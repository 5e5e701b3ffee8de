/** The filesystem as the album code queries it: which paths exist, where the
    pictures folder is, which files it lists, and the shape of each image. */
module Files {

  type PositiveReal = r: real | r > 0.0 witness 1.0

  datatype FileSystem = FileSystem(
    existing: set<string>,           // the paths `File.Exists` answers true for
    picturesDir: string,             // the pictures folder under the mod's user data
    folderPresent: bool,             // `Directory.Exists` on that folder
    listing: seq<string>,            // names of the files in that folder, in enumeration order
    aspect: string -> PositiveReal)  // height / width of the decoded image at a path

  /** A path that `Path.Combine` does not prefix: it starts at a root or a drive. */
  predicate IsRooted(p: string)
  {
    (|p| > 0 && (p[0] == '/' || p[0] == '\\')) || (|p| >= 2 && p[1] == ':')
  }

  /** `Path.Combine(picturesFolder, p)`. */
  function Join(fs: FileSystem, p: string): string
  {
    if IsRooted(p) then p else fs.picturesDir + "\\" + p
  }

  predicate EndsWith(s: string, suffix: string)
  {
    |suffix| <= |s| && s[|s| - |suffix|..] == suffix
  }

  /** The extension filter applied to the folder listing. */
  predicate IsImageName(name: string)
  {
    EndsWith(name, ".png") || EndsWith(name, ".jpg") || EndsWith(name, ".jpeg")
  }

  /** The names enumerated from the pictures folder; none when it is missing. */
  function ListedFiles(fs: FileSystem): seq<string>
  {
    if fs.folderPresent then fs.listing else []
  }
}
