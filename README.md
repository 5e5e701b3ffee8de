# RumblePhotoAlbum — a verified model of the album core

RumblePhotoAlbum is a mod for the game RUMBLE. It hangs framed pictures in the
scenes of the game. Each scene has an entry in `config.json` with two arrays:

- `album`: the pictures placed in the scene, with their position, rotation,
  size, padding, thickness and colour;
- `stash`: image files waiting to be placed.

The player picks pictures up and moves them with the controllers. A button on
the gear market delivers the next stash picture through the mail tube.

This project models three parts of that core in Dafny and proves what they
promise.

- **Loading an album** (`EntryParsing`, `AlbumLoad`, `AlbumProperties`):
  - Parsing one album entry into a framed picture.
  - Deriving the picture's missing dimension from the image's aspect ratio.
  - Reconciling the scene's entry with the pictures folder. Unresolvable album
    entries are dropped, unresolvable stash entries are dropped, and unused
    image files are added to the stash.
  - Which pictures get a scene object.
- **Grabbing** (`Grabbing`, `SurfaceDistance`):
  - Grip edges on each controller.
  - Choosing the nearest picture within 5 cm.
  - A second hand joining the first.
  - Where the held picture is attached.
  - The clamp part of the distance from a hand to a picture's frame.
- **Spawning from the stash** (`Interaction`): the button's guards, the
  stash pop, registering the new picture, and the animation flags.

Each imperative source routine becomes a Dafny method or a class:

- `LoadAlbum` and its four loops are methods.
- The static grab state is the `Grabbing.Grabber` class, with the `grip` and
  `holding` arrays.
- The spawner's static fields are the `Interaction.PictureSpawner` class.

Each method is proved equal to a specification function of its inputs or of
its old state. The lemmas then state the source's promises about those
functions.

Supporting modules:

- `Wrappers`: `Option` and `Result`. `Result` stands for the exceptions.
- `Json`: the JSON document. Objects are maps.
- `Files`: an abstract file system. It is made of:
  - the set of existing paths;
  - the pictures folder and the way a relative path is joined to it;
  - the listing of the folder;
  - the aspect ratio of each image.
- `Pictures`: the picture records and the mod settings.

## Behaviour worth knowing

Several properties one might expect of the album do not hold in the code.
The model follows the code, and the lemmas named below exhibit each one.

- **Reconciliation is not idempotent after one load.**
  - An album entry that fails to parse is dropped from the album.
  - Its raw `path` still counts as "used", so its image is not added to the
    stash either.
  - The image reappears in the stash on the next load.
  - `AlbumProperties.MalformedEntryImageReturnsOnSecondLoad` exhibits this.
  - From the second load on, the document is a fixed point, provided every
    listed image resolves only under the pictures folder
    (`AlbumProperties.ReconcileSettlesOnSecondLoad`).
- **Stash and album are not kept disjoint.** Only images added from the
  folder listing are checked against the album. A stash entry that is
  already present stays, even when the album shows the same image
  (`AlbumProperties.StashAndAlbumMayShareAnImage`).
- **An album entry whose path exists as given is placed but not saved.**
  - It gets its scene object.
  - It is missing from the saved album, because `cleanedAlbum.Add` is only
    reached on the pictures-folder branch.
  - A stash entry that exists as given is likewise dropped.
  - `AlbumProperties.FoundAsGivenIsPlacedButNotSaved` proves the album case.
- **A non-object album element aborts the whole load.** Reading `e["path"]`
  throws while the album paths are collected, before the loop. The outer
  handler catches it, so nothing is written and no picture is placed.
- **One spawn per scene load.** `mailTubePicture` is set by a spawn and never
  cleared again in the spawner. So after the first delivery every press is
  ignored until the gym objects are initialised again
  (`Interaction.OneSpawnPerInitialisation`).
- **Padding of a spawned picture.** A spawned picture gets the default padding
  as is. The album parser doubles the stored padding.
- **Ties when picking a picture.** The strict `<` of the scan picks the
  earliest picture in list order (`Grabbing.ClosestIsNearest`).

## Model

| member | source | states |
|---|---|---|
| EntryParsing.ToFloats | src/ConfigParsing.cs:229 | converting an array succeeds exactly when every element is a number, and then keeps every value in order |
| EntryParsing.ParseVector3 | src/ConfigParsing.cs:217-236 | a missing field and a non-array each give their own error; the result is a vector exactly when the token is an array of three numbers, and then it holds them in order |
| EntryParsing.ParseColor | src/ConfigParsing.cs:243-262 | an array of at least three numbers gives (c0, c1, c2, c3 or 1); a shorter array or a non-number fails; a string succeeds exactly when the engine's colour parser accepts it, with its colour; any other token fails |
| EntryParsing.ParsePictureData | src/ConfigParsing.cs:180-210 | a non-object fails, and a missing or empty path fails; otherwise parsing succeeds exactly when position, rotation, the numeric fields and any colour all parse; on success the record carries the path, the vectors, width and height defaulting to 0, twice the given or default padding, the given or default thickness, and the given or default colour |
| EntryParsing.DeriveSize | src/ConfigParsing.cs:276-295 | only width and height change; when neither is given, a tall image gets `defaultSize` as height and a wide one as width; a given width is kept, and so is a given height when the width is not given; afterwards the image inside the padding has the image's aspect ratio |
| AlbumLoad.Reconcile | src/ConfigParsing.cs:37-171 | a document is written exactly when the file is absent or parses to an object and every album element is an object; the written root keeps every other scene unchanged and gains the scene; the scene object keeps its keys, and every field other than `stash` and `album` keeps its value; `stash` is written as the reconciled stash and `album` as the kept album entries |
| AlbumLoad.LoadAlbum | src/ConfigParsing.cs:37-171 | the written document is the reconciliation of the file, and the pictures placed are those of the album when a document is written, none otherwise |
| AlbumLoad.CollectAlbumPaths | src/ConfigParsing.cs:73-76 | the collection completes exactly when every album element is an object, and then it holds the string paths of the entries |
| AlbumLoad.ValidateAlbum | src/ConfigParsing.cs:82-115 | the loop produces the kept entries and the placed pictures of the album |
| AlbumLoad.ValidateStash | src/ConfigParsing.cs:119-134 | the loop produces the cleaned stash |
| AlbumLoad.AddMissingImages | src/ConfigParsing.cs:150-158 | the loop adds every unused listed image to the stash |
| AlbumProperties.KeptAlbumMembership | src/ConfigParsing.cs:83-115 | an entry is in the cleaned album exactly when it was in the album, parses, and resolves only under the pictures folder |
| AlbumProperties.KeptAlbumConcat | src/ConfigParsing.cs:83-115 | entries are judged one by one: a dropped entry does not stop later ones, and the kept entries keep their relative order |
| AlbumProperties.KeptAlbumStable | src/ConfigParsing.cs:83-115 | cleaning an already cleaned album changes nothing |
| AlbumProperties.KeptAlbumObjects | src/ConfigParsing.cs:82-104 | every entry of the cleaned album is an object |
| AlbumProperties.AlbumPathsMembership | src/ConfigParsing.cs:73-76 | a path is among the album paths exactly when some object entry stores it as its `path` string |
| AlbumProperties.PlacedPicturesResolve | src/ConfigParsing.cs:92-108 | every placed picture points at an existing file, and its size keeps the aspect ratio of that file |
| AlbumProperties.FoundAsGivenIsPlacedButNotSaved | src/ConfigParsing.cs:92-108 | an entry found as given gets a picture with its own path but is left out of the saved album |
| AlbumProperties.InsertSpec | src/ConfigParsing.cs:132 | adding to the hash set keeps it free of duplicates, adds exactly the new element, and keeps what was there first |
| AlbumProperties.CleanedStashSpec | src/ConfigParsing.cs:119-134 | the cleaned stash has no duplicates and holds exactly the stash strings that resolve only under the pictures folder |
| AlbumProperties.AddUnusedSpec | src/ConfigParsing.cs:150-158 | adding the folder's images keeps the stash free of duplicates and keeps its earlier entries first; it adds exactly the listed image names not in use |
| AlbumProperties.ReconciledStashSpec | src/ConfigParsing.cs:119-161 | the rebuilt stash has no duplicates; a name is in it exactly when it is a stash string that resolves only under the pictures folder, or a listed image that no album entry names |
| AlbumProperties.ListedImagesAccountedFor | src/ConfigParsing.cs:137-158 | every listed image ends up in the stash or is named by the album |
| AlbumProperties.UnresolvableAlbumEntryPruned | src/ConfigParsing.cs:92-158 | an album entry whose path resolves neither way is absent from the cleaned album, and its path is not added to the stash |
| AlbumProperties.CleanedStashOfCleanStash | src/ConfigParsing.cs:119-134 | a stash of distinct entries that all resolve under the folder is left as it is |
| AlbumProperties.AddUnusedNothingNew | src/ConfigParsing.cs:150-158 | when every listed image is in use, nothing is added |
| AlbumProperties.SettledSceneIsFixedPoint | src/ConfigParsing.cs:119-162 | a settled scene object is reconciled to itself |
| AlbumProperties.ReconciledSceneSettles | src/ConfigParsing.cs:82-162 | with a clean album and a folder whose images resolve only under it, one reconciliation settles the scene |
| AlbumProperties.ReconcileSettlesOnSecondLoad | src/ConfigParsing.cs:37-171 | from the second load on, loading writes back the same document |
| AlbumProperties.FirstLoadDropsEntryAndImage | src/ConfigParsing.cs:73-158 | an entry without a position is dropped, and its image is not added to the stash on that load |
| AlbumProperties.SecondLoadAddsImage | src/ConfigParsing.cs:137-158 | on the next load the image of that entry is added to the stash |
| AlbumProperties.MalformedEntryImageReturnsOnSecondLoad | src/ConfigParsing.cs:37-171 | the first saved document has an empty album and an empty stash, and the second has that image in its stash |
| AlbumProperties.StashAndAlbumMayShareAnImage | src/ConfigParsing.cs:119-158 | a stash entry naming an image the album keeps stays in the rebuilt stash |
| Grabbing.ScanFromSelects | src/Grabbing.cs:139-154 | the rest of the scan keeps the scan invariant: the best picture so far has an object, is within reach and is the nearest, with ties to the earliest |
| Grabbing.ClosestIsNearest | src/Grabbing.cs:139-154 | the picked picture has a scene object, is strictly within 0.05, is no farther than any picture with an object, and is strictly nearer than every such picture before it; when none is picked, no picture with an object is within reach |
| Grabbing.FindClosest | src/Grabbing.cs:139-154 | the loop with `dst_min` finds the picked picture |
| Grabbing.ParentFor | src/Grabbing.cs:202-226 | two hands attach the picture to the resizing handle, one hand to that hand, none to the album |
| Grabbing.HoldingRules | src/Grabbing.cs:118-160 | with no pictures list nothing changes; the other hand is untouched; a released grip drops the hold; with an active picture the hold is the distance test against it and the active picture stays; otherwise the nearest picture within reach is picked and held, or nothing changes when none is |
| Grabbing.HandChangeIsHoldingChange | src/Grabbing.cs:64-111 | one hand's step reports a change exactly when that hand's holding changed; its stored grip is the new signal; the other hand is untouched; without a grip edge nothing changes |
| Grabbing.LeftChangeSkipsRight | src/Grabbing.cs:44 | when the left hand's holding changes, the right hand's grip and holding are not updated in that tick |
| Grabbing.ReleaseExactlyWhenNoHandHolds | src/Grabbing.cs:42-56 | after a change with a picture active, the picture is re-parented as the two holding flags say and released exactly when neither hand holds it |
| Grabbing.NoReselectionWhileActive | src/Grabbing.cs:130-135 | while a picture is active a tick keeps it or releases it, never switching to another |
| Grabbing.HandKeepsActiveUnlessHoldingChanges | src/Grabbing.cs:64-74 | when a picture is active exactly when some hand holds it, a hand step that reports no change leaves the active picture and the holding flags alone, and one that reports a change leaves a picture active |
| Grabbing.TickKeepsConsistent | src/Grabbing.cs:42-160 | every tick keeps "a picture is active exactly when some hand holds it" |
| Grabbing.Grabber.constructor | src/Grabbing.cs:22-34 | no grip, no hold, no active picture |
| Grabbing.Grabber.CheckIfGripChanged | src/Grabbing.cs:82-111 | returns whether the new signal (trigger or grip past 0.5) differs from the stored grip, and stores the signal |
| Grabbing.Grabber.UpdateHolding | src/Grabbing.cs:118-160 | the arrays and the active picture become the holding step of the old state |
| Grabbing.Grabber.ProcessHand | src/Grabbing.cs:64-74 | the arrays, the active picture and the result become one hand's step of the old state |
| Grabbing.Grabber.ProcessGrabbing | src/Grabbing.cs:42-56 | the arrays, the active picture and the chosen parent become the tick of the old state |
| SurfaceDistance.AxisGap | src/Grabbing.cs:184-186 | the gap on one axis is never negative, and it is zero exactly when the coordinate lies within the half extent |
| SurfaceDistance.SurfaceDistanceZeroExactlyInside | src/Grabbing.cs:175-193 | the squared distance to the frame is never negative, and positive exactly for points outside the box |
| SurfaceDistance.WithinReachIffDistanceBelow | src/Grabbing.cs:188-193 | comparing the squared distance with 0.05 squared is the same as the source's test on the distance |
| SurfaceDistance.InsideIsWithinReach | src/Grabbing.cs:188-190 | a hand inside or touching the frame can always hold it |
| Interaction.PressIgnoredWhenBusyOrEmpty | src/Interaction.cs:130-141 | a press while the animation runs or a delivered picture is recorded, or with an empty stash, changes nothing |
| Interaction.PressSpawnsFirstStashEntry | src/Interaction.cs:166-191 | a press that gets through takes exactly the first stash entry and keeps the rest in order; the new picture's record holds just that path, with the default padding, thickness and colour and rotation (0, 180, 0); with a pictures list the picture is appended to it and the animation starts; without one, the list stays null and the animation does not start |
| Interaction.StepKeepsConsistent | src/Interaction.cs:130-208 | every event keeps the animation flag in agreement with the coroutine and a running coroutine with its picture |
| Interaction.AnimationRunsFromPressToFinish | src/Interaction.cs:190-208 | the flag is set by the press that starts the delivery, kept at seven seconds, and cleared at nine |
| Interaction.OneSpawnPerInitialisation | src/Interaction.cs:130-208 | once a picture was delivered, no run of events moves the stash or the pictures list or clears the picture |
| Interaction.RunKeepsConsistent | src/Interaction.cs:130-208 | any run of events from a consistent state stays consistent |
| Interaction.PictureSpawner.constructor | src/Interaction.cs:76-82 | the animation flag is off, no picture is recorded, and the stash is the scene's |
| Interaction.PictureSpawner.InitGymObjects | src/Interaction.cs:76-82 | re-initialising resets the flag and the picture and takes the scene's stash again |
| Interaction.PictureSpawner.SpawnPicture | src/Interaction.cs:130-144 | the fields become the press step of the old state |
| Interaction.PictureSpawner.RunMailTubeAnimation | src/Interaction.cs:166-191 | the fields become the press step of the old state once the guards have passed |
| Interaction.PictureSpawner.StopDelivery | src/Interaction.cs:198-203 | the delivery stops after seven seconds |
| Interaction.PictureSpawner.EndAnimation | src/Interaction.cs:205-208 | the animation ends at nine seconds and the flag is cleared |

## Left out

- Image decoding and blending (`LoadFlattenedTexture`, src/ConfigParsing.cs:344-375) is not modelled. It is Unity texture work; each image's aspect ratio is an input of the file system.
- Hex colour parsing (`ColorUtility.TryParseHtmlString`) is engine code. It is an opaque partial function in the settings.
- File I/O is abstract: existence is a set of paths, the folder listing is a sequence of names, and an unreadable or unparsable file is one case of the configuration. A failing `File.WriteAllText` is not modelled. JSON key order and formatting are not modelled.
- `EnsureUserDataFolders` is not modelled; it only creates directories.
- `Path.Combine` is modelled as a rooted path staying as it is and any other path being joined under the pictures folder with `\`. The `Application.dataPath` prefix is folded into the folder name.
- Floating point: every `float` is a Dafny `real`, so float32 rounding is not modelled.
- EntryParsing.ParsePictureData: booleans or numeric strings where numbers are expected, and a non-string `path`, are treated as malformed. The JSON library may convert them instead.
- EntryParsing.ToFloats: an element that is a numeric string, or another value the JSON library converts to a float, is rejected. The conversion to a float array would accept it, so `"position": ["1","2","3"]` gives a vector in the program and a parse error here.
- EntryParsing.ParseVector3: inherits the same gap from `ToFloats`. Vectors given as numeric strings are treated as malformed, whereas the program converts them (src/ConfigParsing.cs:229).
- EntryParsing.ParseColor: inherits the same gap from `ToFloats`. Colour arrays of numeric strings are treated as malformed, whereas the program converts them (src/ConfigParsing.cs:247).
- AlbumLoad.AlbumPaths: only `path` values that are JSON strings are collected, and the same holds for AlbumLoad.CollectAlbumPaths. The program also collects the text of a non-string `path` token, such as `5`, `True`, an empty text for null, or the text of an array or object. None of these texts ends in `.png`, `.jpg` or `.jpeg`, so the written stash is the same.
- AlbumLoad.CreatePictureBlock: the build is total. In the program the entry is added to the cleaned album (src/ConfigParsing.cs:104) before the picture is built (src/ConfigParsing.cs:108). An exception during the build, for instance when the image file cannot be read (src/ConfigParsing.cs:347), would leave the entry in the saved album with no picture placed. The model does not capture that case.
- AlbumLoad.ValidateStash: a stash element that is not a string is dropped. The source would use its JSON text as a path.
- EntryParsing.DeriveSize: the promise "the longer side gets `defaultSize`" is stated only for a nonzero `defaultSize`. With a zero default, the width is derived from the height, as the code does.
- Interaction.PressSpawnsFirstStashEntry: the spawned picture's width and height stay 0. The two-argument `CreatePictureBlock` it calls is not part of this model, so any size it derives is not captured.
- Grabbing.Grabber: the active picture is an index into the pictures list, not a reference. A held picture that leaves the list is not modelled.
- Hand-to-picture distances: the distances are inputs of each tick. `SurfaceDistance` models their clamp part separately, without the rotation into the frame's axes and without the square root, which is why it compares squares.
- `UpdateResizingIfNeeded`, `UpdateResizingHandle` and `UpdatePictureSize` (src/Grabbing.cs:234-316) are not modelled. They are quaternion and scale geometry.
- GameObjects, parenting, shaders and logging are not modelled. `UpdatePictureParent` becomes the parent it chooses.
- Coroutine timing is not modelled; the mail-tube coroutine becomes three events. Not modelled either:
  - `InitObjects`, `initializeGlobals`, `NewGearMarketButton` and `SetPreviewSlabVisibility` (src/Interaction.cs:31-122, 151-159).
  - The mail-tube animation itself.
  - A coroutine that outlives a re-initialisation of the gym objects.
- The stash the spawner reads is a sequence of strings, which is what a load writes. A non-string element is not modelled.
- `src/Configuration.cs` (mod settings UI) is not modelled; its settings are a parameter.
- `src/API.cs` is not modelled. It wraps a `CreatePicture` that is not part of this model, and it sets `height = width` (src/API.cs:47).
- `src/main.cs` (logging) and `Properties/AssemblyInfo.cs` are not modelled.
