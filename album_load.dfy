/** Loading one scene of the configuration file: the album entries and the
    stash are reconciled with the files on disk, missing images are added to
    the stash, and the document is written back. */
module AlbumLoad {
  import opened Wrappers
  import opened Json
  import opened Files
  import opened Pictures
  import opened EntryParsing

  /** The configuration file as it is found: absent, unreadable or not JSON,
      or parsed into a token. */
  datatype ConfigFile = NoFile | Unreadable | Stored(doc: Json)

  /** The top-level object, or nothing when reading or `JObject.Parse` throws. */
  function RootFields(config: ConfigFile): Option<map<string, Json>>
  {
    match config
    case NoFile => Some(map[])
    case Unreadable => None
    case Stored(doc) => if doc.JObj? then Some(doc.fields) else None
  }

  /** The scene's object; a missing or non-object entry counts as an empty object. */
  function SceneFields(root: map<string, Json>, scene: string): map<string, Json>
  {
    if scene in root && root[scene].JObj? then root[scene].fields else map[]
  }

  /** `sceneObj[key] as JArray ?? new JArray()`. */
  function ArrayField(fields: map<string, Json>, key: string): seq<Json>
  {
    if key in fields && fields[key].JArr? then fields[key].items else []
  }

  predicate AllObjects(album: seq<Json>)
  {
    forall i :: 0 <= i < |album| ==> album[i].JObj?
  }

  predicate NoDuplicates<T(==)>(s: seq<T>)
  {
    forall i, j :: 0 <= i < j < |s| ==> s[i] != s[j]
  }

  function Last<T>(s: seq<T>): T
    requires s != []
  {
    s[|s| - 1]
  }

  function Init<T>(s: seq<T>): seq<T>
    requires s != []
  {
    s[..|s| - 1]
  }

  // ---------------------------------------------------------------- album

  /** An entry stays in the saved album when it parses and its path resolves
      only under the pictures folder. */
  predicate KeptInAlbum(entry: Json, fs: FileSystem, settings: Settings)
  {
    var parsed := ParsePictureData(entry, settings);
    parsed.Success? && parsed.value.path !in fs.existing && Join(fs, parsed.value.path) in fs.existing
  }

  /** An entry gets a scene object when it parses and its path resolves either way. */
  predicate PlacedInScene(entry: Json, fs: FileSystem, settings: Settings)
  {
    var parsed := ParsePictureData(entry, settings);
    parsed.Success? && (parsed.value.path in fs.existing || Join(fs, parsed.value.path) in fs.existing)
  }

  /** The record with its path replaced by the resolved one when it is not found as given. */
  function Resolved(fp: FramedPicture, fs: FileSystem): FramedPicture
  {
    if fp.path in fs.existing then fp else fp.(path := Join(fs, fp.path))
  }

  /** `CreatePictureBlock` on a resolved record: the record with its derived size. */
  function CreatePictureBlock(fp: FramedPicture, fs: FileSystem, settings: Settings): FramedPicture
  {
    DeriveSize(fp, fs.aspect(fp.path), settings.defaultSize)
  }

  /** The cleaned album: the kept entries, in their original order. */
  function KeptAlbum(album: seq<Json>, fs: FileSystem, settings: Settings): seq<Json>
  {
    if album == [] then []
    else KeptAlbum(Init(album), fs, settings) + (if KeptInAlbum(Last(album), fs, settings) then [Last(album)] else [])
  }

  /** The pictures created in the scene, one per entry placed, in album order. */
  function Placed(album: seq<Json>, fs: FileSystem, settings: Settings): seq<FramedPicture>
  {
    if album == [] then []
    else
      Placed(Init(album), fs, settings) +
      (if PlacedInScene(Last(album), fs, settings)
       then [CreatePictureBlock(Resolved(ParsePictureData(Last(album), settings).value, fs), fs, settings)]
       else [])
  }

  /** The string paths of the album entries as written, whether or not they parse. */
  function AlbumPaths(album: seq<Json>): set<string>
  {
    if album == [] then {}
    else
      var e := Last(album);
      AlbumPaths(Init(album)) + (if e.JObj? && "path" in e.fields && e.fields["path"].JStr? then {e.fields["path"].str} else {})
  }

  // ---------------------------------------------------------------- stash

  /** `HashSet.Add` on a set kept in insertion order. */
  function Insert(acc: seq<string>, x: string): seq<string>
  {
    if x in acc then acc else acc + [x]
  }

  /** A stash entry is kept when it resolves only under the pictures folder. */
  predicate KeptInStash(entry: Json, fs: FileSystem)
  {
    entry.JStr? && entry.str !in fs.existing && Join(fs, entry.str) in fs.existing
  }

  function CleanedStash(stash: seq<Json>, fs: FileSystem): seq<string>
  {
    if stash == [] then []
    else
      var acc := CleanedStash(Init(stash), fs);
      if KeptInStash(Last(stash), fs) then Insert(acc, Last(stash).str) else acc
  }

  /** The images of the folder listing that are not in `used`, added to `acc`. */
  function AddUnused(acc: seq<string>, names: seq<string>, used: set<string>): seq<string>
  {
    if names == [] then acc
    else
      var added := AddUnused(acc, Init(names), used);
      if IsImageName(Last(names)) && Last(names) !in used then Insert(added, Last(names)) else added
  }

  function ReconciledStash(sceneFields: map<string, Json>, fs: FileSystem): seq<string>
  {
    var cleaned := CleanedStash(ArrayField(sceneFields, "stash"), fs);
    var used := (set x | x in cleaned) + AlbumPaths(ArrayField(sceneFields, "album"));
    AddUnused(cleaned, ListedFiles(fs), used)
  }

  function ReconciledScene(sceneFields: map<string, Json>, fs: FileSystem, settings: Settings): map<string, Json>
  {
    sceneFields["stash" := JArr(StringArray(ReconciledStash(sceneFields, fs)))]
               ["album" := JArr(KeptAlbum(ArrayField(sceneFields, "album"), fs, settings))]
  }

  /** The document `LoadAlbum` writes back, or nothing when it throws before writing. */
  function Reconcile(config: ConfigFile, scene: string, fs: FileSystem, settings: Settings): (saved: Option<Json>)
    ensures saved.Some? <==> RootFields(config).Some? && AllObjects(ArrayField(SceneFields(RootFields(config).value, scene), "album"))
    ensures saved.Some? ==>
      var root := RootFields(config).value;
      && saved.value.JObj?
      && saved.value.fields.Keys == root.Keys + {scene}
      && (forall k :: k in root && k != scene ==> saved.value.fields[k] == root[k])
      && saved.value.fields[scene].JObj?
      && saved.value.fields[scene].fields.Keys == SceneFields(root, scene).Keys + {"stash", "album"}
      && (forall k :: k in SceneFields(root, scene) && k != "stash" && k != "album" ==>
            saved.value.fields[scene].fields[k] == SceneFields(root, scene)[k])
      && saved.value.fields[scene].fields["stash"] == JArr(StringArray(ReconciledStash(SceneFields(root, scene), fs)))
      && saved.value.fields[scene].fields["album"] == JArr(KeptAlbum(ArrayField(SceneFields(root, scene), "album"), fs, settings))
  {
    match RootFields(config)
    case None => None
    case Some(root) =>
      var sceneFields := SceneFields(root, scene);
      if !AllObjects(ArrayField(sceneFields, "album")) then None
      else Some(JObj(root[scene := JObj(ReconciledScene(sceneFields, fs, settings))]))
  }

  /** The album array of the scene in the configuration file. */
  function AlbumOf(config: ConfigFile, scene: string): seq<Json>
  {
    match RootFields(config)
    case None => []
    case Some(root) => ArrayField(SceneFields(root, scene), "album")
  }

  /** `LoadAlbum(sceneName)`: returns the document written back (nothing when
      the outer handler caught an exception) and the pictures created in the
      scene. */
  method LoadAlbum(config: ConfigFile, scene: string, fs: FileSystem, settings: Settings)
    returns (saved: Option<Json>, placed: seq<FramedPicture>)
    ensures saved == Reconcile(config, scene, fs, settings)
    ensures placed == if saved.Some? then Placed(AlbumOf(config, scene), fs, settings) else []
  {
    var root: map<string, Json>;
    match config {
      case Unreadable =>
        return None, [];
      case NoFile =>
        root := map[];
      case Stored(doc) =>
        if !doc.JObj? {
          return None, [];
        }
        root := doc.fields;
    }

    var sceneObj := if scene in root && root[scene].JObj? then root[scene].fields else map[];
    var stash := ArrayField(sceneObj, "stash");
    var album := ArrayField(sceneObj, "album");

    var ok, albumSet := CollectAlbumPaths(album);
    if !ok {
      return None, [];
    }
    var cleanedAlbum;
    cleanedAlbum, placed := ValidateAlbum(album, fs, settings);
    var cleanedStash := ValidateStash(stash, fs);
    var usedImages := (set x | x in cleanedStash) + albumSet;
    cleanedStash := AddMissingImages(cleanedStash, ListedFiles(fs), usedImages);

    assert cleanedStash == ReconciledStash(sceneObj, fs);
    sceneObj := sceneObj["stash" := JArr(StringArray(cleanedStash))]["album" := JArr(cleanedAlbum)];
    saved := Some(JObj(root[scene := JObj(sceneObj)]));
  }

  /** Building `albumSet`: reading `e["path"]` throws on an entry that is not
      an object, which ends the whole load. */
  method CollectAlbumPaths(album: seq<Json>) returns (ok: bool, albumSet: set<string>)
    ensures ok == AllObjects(album)
    ensures ok ==> albumSet == AlbumPaths(album)
  {
    albumSet := {};
    for i := 0 to |album|
      invariant AllObjects(album[..i])
      invariant albumSet == AlbumPaths(album[..i])
    {
      var e := album[i];
      assert album[..i + 1][..i] == album[..i];
      if !e.JObj? {
        return false, albumSet;
      }
      if "path" in e.fields && e.fields["path"].JStr? {
        albumSet := albumSet + {e.fields["path"].str};
      }
    }
    assert album[..|album|] == album;
    ok := true;
  }

  /** The loop over the album entries: an entry that throws is skipped, one
      that resolves under the pictures folder is kept, and every entry that
      resolves gets its scene object. */
  method ValidateAlbum(album: seq<Json>, fs: FileSystem, settings: Settings)
    returns (cleanedAlbum: seq<Json>, placed: seq<FramedPicture>)
    ensures cleanedAlbum == KeptAlbum(album, fs, settings)
    ensures placed == Placed(album, fs, settings)
  {
    cleanedAlbum, placed := [], [];
    for i := 0 to |album|
      invariant cleanedAlbum == KeptAlbum(album[..i], fs, settings)
      invariant placed == Placed(album[..i], fs, settings)
    {
      var entry := album[i];
      assert album[..i + 1][..i] == album[..i];
      var parsed := ParsePictureData(entry, settings);
      if parsed.Failure? {
        continue;
      }
      var framedPicture := parsed.value;
      if framedPicture.path !in fs.existing {
        var globalPicturePath := Join(fs, framedPicture.path);
        if globalPicturePath !in fs.existing {
          continue;
        } else {
          framedPicture := framedPicture.(path := globalPicturePath);
          cleanedAlbum := cleanedAlbum + [entry];
        }
      }
      var built := CreatePictureBlock(framedPicture, fs, settings);
      placed := placed + [built];
    }
    assert album[..|album|] == album;
  }

  /** The loop over the stash entries: an entry is kept only when it resolves
      under the pictures folder and not as given. */
  method ValidateStash(stash: seq<Json>, fs: FileSystem) returns (cleanedStash: seq<string>)
    ensures cleanedStash == CleanedStash(stash, fs)
  {
    cleanedStash := [];
    for i := 0 to |stash|
      invariant cleanedStash == CleanedStash(stash[..i], fs)
    {
      var entry := stash[i];
      assert stash[..i + 1][..i] == stash[..i];
      if !entry.JStr? {
        continue;
      }
      var picturePath := entry.str;
      if picturePath !in fs.existing {
        var globalPicturePath := Join(fs, picturePath);
        if globalPicturePath !in fs.existing {
          continue;
        }
        if picturePath !in cleanedStash {
          cleanedStash := cleanedStash + [picturePath];
        }
      }
    }
    assert stash[..|stash|] == stash;
  }

  /** The loop over the image files of the pictures folder. */
  method AddMissingImages(cleanedStash: seq<string>, imageFiles: seq<string>, usedImages: set<string>)
    returns (stash: seq<string>)
    ensures stash == AddUnused(cleanedStash, imageFiles, usedImages)
  {
    stash := cleanedStash;
    for i := 0 to |imageFiles|
      invariant stash == AddUnused(cleanedStash, imageFiles[..i], usedImages)
    {
      var fileName := imageFiles[i];
      assert imageFiles[..i + 1][..i] == imageFiles[..i];
      if IsImageName(fileName) && fileName !in usedImages && fileName !in stash {
        stash := stash + [fileName];
      }
    }
    assert imageFiles[..|imageFiles|] == imageFiles;
  }
}
