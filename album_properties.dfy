/** What the reconciliation of `LoadAlbum` guarantees, and where it falls
    short of a single-pass fixed point. */
module AlbumProperties {
  import opened Wrappers
  import opened Json
  import opened Files
  import opened Pictures
  import opened EntryParsing
  import opened AlbumLoad

  // ---------------------------------------------------------------- album

  /** An entry is in the cleaned album exactly when it is in the album and
      parses and resolves under the pictures folder only. */
  lemma {:induction false} KeptAlbumMembership(album: seq<Json>, fs: FileSystem, settings: Settings)
    ensures forall e :: e in KeptAlbum(album, fs, settings) <==> e in album && KeptInAlbum(e, fs, settings)
  {
    if album != [] {
      KeptAlbumMembership(Init(album), fs, settings);
      assert album == Init(album) + [Last(album)];
    }
  }

  /** Entries are filtered one by one: an entry that is dropped does not stop
      the later ones, and the kept ones keep their relative order. */
  lemma {:induction false} KeptAlbumConcat(a: seq<Json>, b: seq<Json>, fs: FileSystem, settings: Settings)
    ensures KeptAlbum(a + b, fs, settings) == KeptAlbum(a, fs, settings) + KeptAlbum(b, fs, settings)
  {
    if b == [] {
      assert a + b == a;
    } else {
      KeptAlbumConcat(a, Init(b), fs, settings);
      assert Init(a + b) == a + Init(b);
      assert Last(a + b) == Last(b);
    }
  }

  /** Cleaning a cleaned album changes nothing. */
  lemma {:induction false} KeptAlbumStable(album: seq<Json>, fs: FileSystem, settings: Settings)
    ensures KeptAlbum(KeptAlbum(album, fs, settings), fs, settings) == KeptAlbum(album, fs, settings)
  {
    if album != [] {
      var e := Last(album);
      var kept := KeptAlbum(Init(album), fs, settings);
      KeptAlbumStable(Init(album), fs, settings);
      if KeptInAlbum(e, fs, settings) {
        KeptAlbumConcat(kept, [e], fs, settings);
        assert Init([e]) == [] && Last([e]) == e;
        assert KeptAlbum([e], fs, settings) == [e];
        assert KeptAlbum(album, fs, settings) == kept + [e];
        assert KeptAlbum(kept, fs, settings) == kept;
        assert KeptAlbum(kept + [e], fs, settings) == kept + [e];
      } else {
        assert KeptAlbum(album, fs, settings) == kept;
      }
    }
  }

  lemma {:induction false} KeptAlbumObjects(album: seq<Json>, fs: FileSystem, settings: Settings)
    ensures AllObjects(KeptAlbum(album, fs, settings))
  {
    KeptAlbumMembership(album, fs, settings);
    var kept := KeptAlbum(album, fs, settings);
    forall i | 0 <= i < |kept|
      ensures kept[i].JObj?
    {
      assert kept[i] in kept;
    }
  }

  /** A path is in `AlbumPaths` exactly when some object entry stores it as its `path` string. */
  lemma {:induction false} AlbumPathsMembership(album: seq<Json>)
    ensures forall x :: x in AlbumPaths(album) <==>
      exists e :: e in album && e.JObj? && "path" in e.fields && e.fields["path"] == JStr(x)
  {
    if album != [] {
      AlbumPathsMembership(Init(album));
      assert album == Init(album) + [Last(album)];
    }
  }

  /** A picture whose file exists and whose frame keeps that file's aspect
      ratio inside the padding. */
  predicate ResolvesWithAspect(p: FramedPicture, fs: FileSystem)
  {
    p.path in fs.existing && p.height - p.padding == (p.width - p.padding) * fs.aspect(p.path)
  }

  /** Every picture created in the scene points at an existing file, and its
      frame keeps the aspect ratio of that file's image inside the padding. */
  lemma {:induction false} PlacedPicturesResolve(album: seq<Json>, fs: FileSystem, settings: Settings)
    ensures forall p :: p in Placed(album, fs, settings) ==> ResolvesWithAspect(p, fs)
  {
    if album != [] {
      PlacedPicturesResolve(Init(album), fs, settings);
      PlacedStep(album, fs, settings);
      if PlacedInScene(Last(album), fs, settings) {
        PlacedPictureResolves(Last(album), fs, settings);
      }
    }
  }

  /** The picture created for one placed entry. */
  function PlacedPicture(entry: Json, fs: FileSystem, settings: Settings): FramedPicture
    requires PlacedInScene(entry, fs, settings)
  {
    CreatePictureBlock(Resolved(ParsePictureData(entry, settings).value, fs), fs, settings)
  }

  /** One step of `Placed`, with the last entry's picture named. */
  lemma PlacedStep(album: seq<Json>, fs: FileSystem, settings: Settings)
    requires album != []
    ensures Placed(album, fs, settings) ==
      Placed(Init(album), fs, settings) +
      (if PlacedInScene(Last(album), fs, settings) then [PlacedPicture(Last(album), fs, settings)] else [])
  {
  }

  lemma PlacedPictureResolves(entry: Json, fs: FileSystem, settings: Settings)
    requires PlacedInScene(entry, fs, settings)
    ensures ResolvesWithAspect(PlacedPicture(entry, fs, settings), fs)
  {
    BlockResolves(Resolved(ParsePictureData(entry, settings).value, fs), fs, settings);
  }

  lemma BlockResolves(fp: FramedPicture, fs: FileSystem, settings: Settings)
    requires fp.path in fs.existing
    ensures ResolvesWithAspect(CreatePictureBlock(fp, fs, settings), fs)
  {
  }

  /** The quirk of the album loop: an entry whose path exists as given gets a
      scene object but is left out of the saved album. */
  lemma FoundAsGivenIsPlacedButNotSaved(entry: Json, fs: FileSystem, settings: Settings)
    requires ParsePictureData(entry, settings).Success?
    requires ParsePictureData(entry, settings).value.path in fs.existing
    ensures KeptAlbum([entry], fs, settings) == []
    ensures |Placed([entry], fs, settings)| == 1
    ensures Placed([entry], fs, settings)[0].path == ParsePictureData(entry, settings).value.path
  {
  }

  // ---------------------------------------------------------------- stash

  lemma InsertSpec(acc: seq<string>, x: string)
    requires NoDuplicates(acc)
    ensures NoDuplicates(Insert(acc, x))
    ensures forall y :: y in Insert(acc, x) <==> y in acc || y == x
    ensures |acc| <= |Insert(acc, x)| && Insert(acc, x)[..|acc|] == acc
  {
  }

  /** The cleaned stash has no duplicates and holds exactly the string entries
      that resolve under the pictures folder and not as given. */
  lemma {:induction false} CleanedStashSpec(stash: seq<Json>, fs: FileSystem)
    ensures NoDuplicates(CleanedStash(stash, fs))
    ensures forall x :: x in CleanedStash(stash, fs) <==> JStr(x) in stash && KeptInStash(JStr(x), fs)
  {
    if stash != [] {
      CleanedStashSpec(Init(stash), fs);
      assert stash == Init(stash) + [Last(stash)];
      if KeptInStash(Last(stash), fs) {
        InsertSpec(CleanedStash(Init(stash), fs), Last(stash).str);
      }
    }
  }

  /** Adding the unused images keeps what was there, in front, adds no
      duplicate, and adds exactly the listed images outside `used`. */
  lemma {:induction false} AddUnusedSpec(acc: seq<string>, names: seq<string>, used: set<string>)
    requires NoDuplicates(acc)
    ensures NoDuplicates(AddUnused(acc, names, used))
    ensures forall x :: x in AddUnused(acc, names, used) <==> x in acc || (x in names && IsImageName(x) && x !in used)
    ensures |acc| <= |AddUnused(acc, names, used)| && AddUnused(acc, names, used)[..|acc|] == acc
  {
    if names != [] {
      AddUnusedSpec(acc, Init(names), used);
      assert names == Init(names) + [Last(names)];
      var added := AddUnused(acc, Init(names), used);
      if IsImageName(Last(names)) && Last(names) !in used {
        InsertSpec(added, Last(names));
        assert Insert(added, Last(names))[..|added|] == added;
        assert added[..|acc|] == acc;
      }
    }
  }

  /** The saved stash has no duplicates; it holds the old stash entries that
      resolve under the pictures folder only, and every image of the folder
      that is neither among those nor the path written in an album entry. */
  lemma ReconciledStashSpec(sceneFields: map<string, Json>, fs: FileSystem)
    ensures NoDuplicates(ReconciledStash(sceneFields, fs))
    ensures forall x :: x in ReconciledStash(sceneFields, fs) <==>
      || (JStr(x) in ArrayField(sceneFields, "stash") && KeptInStash(JStr(x), fs))
      || (x in ListedFiles(fs) && IsImageName(x) && x !in AlbumPaths(ArrayField(sceneFields, "album")))
  {
    var stash := ArrayField(sceneFields, "stash");
    var cleaned := CleanedStash(stash, fs);
    var used := (set x | x in cleaned) + AlbumPaths(ArrayField(sceneFields, "album"));
    CleanedStashSpec(stash, fs);
    AddUnusedSpec(cleaned, ListedFiles(fs), used);
  }

  /** Completeness as the code has it: every image of the pictures folder ends
      up in the saved stash or is the path written in some album entry (an
      entry that may itself have been dropped). */
  lemma ListedImagesAccountedFor(sceneFields: map<string, Json>, fs: FileSystem, x: string)
    requires x in ListedFiles(fs) && IsImageName(x)
    ensures x in ReconciledStash(sceneFields, fs) || x in AlbumPaths(ArrayField(sceneFields, "album"))
  {
    ReconciledStashSpec(sceneFields, fs);
  }

  /** An album entry whose path resolves neither as given nor under the
      pictures folder is dropped from the album and not moved to the stash. */
  lemma UnresolvableAlbumEntryPruned(sceneFields: map<string, Json>, fs: FileSystem, settings: Settings, e: Json)
    requires e in ArrayField(sceneFields, "album")
    requires e.JObj? && "path" in e.fields && e.fields["path"].JStr?
    requires e.fields["path"].str !in fs.existing && Join(fs, e.fields["path"].str) !in fs.existing
    ensures e !in KeptAlbum(ArrayField(sceneFields, "album"), fs, settings)
    ensures e.fields["path"].str !in ReconciledStash(sceneFields, fs)
  {
    KeptAlbumMembership(ArrayField(sceneFields, "album"), fs, settings);
    AlbumPathsMembership(ArrayField(sceneFields, "album"));
    ReconciledStashSpec(sceneFields, fs);
  }

  // ---------------------------------------------------------------- reloading

  /** The folder listing agrees with `File.Exists`: every listed name is found
      under the pictures folder and not relative to the working directory. */
  predicate Coherent(fs: FileSystem)
  {
    forall n :: n in fs.listing ==> n !in fs.existing && Join(fs, n) in fs.existing
  }

  /** A scene object that a load leaves as it is. */
  predicate Settled(sceneFields: map<string, Json>, fs: FileSystem, settings: Settings)
  {
    && "album" in sceneFields && sceneFields["album"].JArr?
    && "stash" in sceneFields && sceneFields["stash"].JArr?
    && var album := sceneFields["album"].items;
       var stash := sceneFields["stash"].items;
    && KeptAlbum(album, fs, settings) == album
    && (forall i :: 0 <= i < |stash| ==> KeptInStash(stash[i], fs))
    && (forall i, j :: 0 <= i < j < |stash| ==> stash[i] != stash[j])
    && (forall x :: x in ListedFiles(fs) && IsImageName(x) ==> JStr(x) in stash || x in AlbumPaths(album))
  }

  /** A stash of distinct entries that all resolve under the pictures folder is cleaned to itself. */
  lemma {:induction false} CleanedStashOfCleanStash(stash: seq<Json>, fs: FileSystem)
    requires forall i :: 0 <= i < |stash| ==> KeptInStash(stash[i], fs)
    requires forall i, j :: 0 <= i < j < |stash| ==> stash[i] != stash[j]
    ensures StringArray(CleanedStash(stash, fs)) == stash
  {
    if stash != [] {
      var init := Init(stash);
      CleanedStashOfCleanStash(init, fs);
      var cleaned := CleanedStash(init, fs);
      CleanedStashSpec(init, fs);
      assert Last(stash) !in init;
      assert Last(stash).str !in cleaned;
      StringArrayAppend(cleaned, Last(stash).str);
      assert stash == init + [Last(stash)];
    }
  }

  lemma StringArrayAppend(strings: seq<string>, x: string)
    ensures StringArray(strings + [x]) == StringArray(strings) + [JStr(x)]
  {
  }

  /** Nothing is added when every listed image is already used. */
  lemma {:induction false} AddUnusedNothingNew(acc: seq<string>, names: seq<string>, used: set<string>)
    requires forall x :: x in names && IsImageName(x) ==> x in used
    ensures AddUnused(acc, names, used) == acc
  {
    if names != [] {
      AddUnusedNothingNew(acc, Init(names), used);
      assert Last(names) in names;
    }
  }

  /** A settled scene object is a fixed point of the reconciliation. */
  lemma SettledSceneIsFixedPoint(sceneFields: map<string, Json>, fs: FileSystem, settings: Settings)
    requires Settled(sceneFields, fs, settings)
    ensures ReconciledScene(sceneFields, fs, settings) == sceneFields
  {
    var stash := sceneFields["stash"].items;
    SettledStashIsKept(sceneFields, fs, settings);
    assert sceneFields["stash" := JArr(stash)] == sceneFields;
  }

  /** The reconciled stash of a settled scene object is its stash. */
  lemma SettledStashIsKept(sceneFields: map<string, Json>, fs: FileSystem, settings: Settings)
    requires Settled(sceneFields, fs, settings)
    ensures StringArray(ReconciledStash(sceneFields, fs)) == sceneFields["stash"].items
  {
    var album := sceneFields["album"].items;
    var stash := sceneFields["stash"].items;
    CleanedStashOfCleanStash(stash, fs);
    var cleaned := CleanedStash(stash, fs);
    ListedImagesUsed(stash, cleaned, album, fs);
    AddUnusedNothingNew(cleaned, ListedFiles(fs), (set x | x in cleaned) + AlbumPaths(album));
  }

  /** In a settled scene object every listed image is used by the stash or the album. */
  lemma ListedImagesUsed(stash: seq<Json>, cleaned: seq<string>, album: seq<Json>, fs: FileSystem)
    requires StringArray(cleaned) == stash
    requires forall x :: x in ListedFiles(fs) && IsImageName(x) ==> JStr(x) in stash || x in AlbumPaths(album)
    ensures forall x :: x in ListedFiles(fs) && IsImageName(x) ==> x in (set y | y in cleaned) + AlbumPaths(album)
  {
    forall x | x in ListedFiles(fs) && IsImageName(x) && JStr(x) in stash
      ensures x in cleaned
    {
      var i :| 0 <= i < |stash| && stash[i] == JStr(x);
      assert StringArray(cleaned)[i] == JStr(cleaned[i]);
    }
  }

  /** Reconciling a scene object whose album is already clean gives a settled one. */
  lemma ReconciledSceneSettles(sceneFields: map<string, Json>, fs: FileSystem, settings: Settings)
    requires Coherent(fs)
    requires KeptAlbum(ArrayField(sceneFields, "album"), fs, settings) == ArrayField(sceneFields, "album")
    ensures Settled(ReconciledScene(sceneFields, fs, settings), fs, settings)
  {
    var album := ArrayField(sceneFields, "album");
    var stash := ArrayField(sceneFields, "stash");
    var next := ReconciledScene(sceneFields, fs, settings);
    var newStash := ReconciledStash(sceneFields, fs);
    var cleaned := CleanedStash(stash, fs);
    var used := (set x | x in cleaned) + AlbumPaths(album);
    ReconciledStashSpec(sceneFields, fs);
    CleanedStashSpec(stash, fs);
    AddUnusedSpec(cleaned, ListedFiles(fs), used);
    assert next["album"].items == album;
    assert next["stash"].items == StringArray(newStash);
    forall i | 0 <= i < |newStash|
      ensures KeptInStash(JStr(newStash[i]), fs)
    {
      assert newStash[i] in newStash;
    }
    forall x | x in ListedFiles(fs) && IsImageName(x)
      ensures JStr(x) in StringArray(newStash) || x in AlbumPaths(album)
    {
      if x in newStash {
        var i :| 0 <= i < |newStash| && newStash[i] == x;
        assert StringArray(newStash)[i] == JStr(x);
      }
    }
  }

  /** One load of a stored document: the root with the scene replaced by its
      reconciliation. */
  lemma ReconcileStored(root: map<string, Json>, scene: string, fs: FileSystem, settings: Settings)
    requires AllObjects(ArrayField(SceneFields(root, scene), "album"))
    ensures
      var next := ReconciledScene(SceneFields(root, scene), fs, settings);
      && Reconcile(Stored(JObj(root)), scene, fs, settings) == Some(JObj(root[scene := JObj(next)]))
      && SceneFields(root[scene := JObj(next)], scene) == next
  {
  }

  /** The first load of any configuration that is written. */
  lemma ReconcileFirst(config: ConfigFile, scene: string, fs: FileSystem, settings: Settings)
    requires Reconcile(config, scene, fs, settings).Some?
    ensures
      var root := RootFields(config).value;
      var next := ReconciledScene(SceneFields(root, scene), fs, settings);
      && AllObjects(ArrayField(SceneFields(root, scene), "album"))
      && Reconcile(config, scene, fs, settings) == Some(JObj(root[scene := JObj(next)]))
  {
  }

  /** At the level of one scene object: the second reconciliation is settled. */
  lemma SceneSettlesOnSecondLoad(scene0: map<string, Json>, fs: FileSystem, settings: Settings)
    requires Coherent(fs)
    requires AllObjects(ArrayField(scene0, "album"))
    ensures
      var scene1 := ReconciledScene(scene0, fs, settings);
      var scene2 := ReconciledScene(scene1, fs, settings);
      && AllObjects(ArrayField(scene1, "album"))
      && AllObjects(ArrayField(scene2, "album"))
      && ReconciledScene(scene2, fs, settings) == scene2
  {
    var scene1 := ReconciledScene(scene0, fs, settings);
    var album1 := KeptAlbum(ArrayField(scene0, "album"), fs, settings);
    assert ArrayField(scene1, "album") == album1;
    KeptAlbumObjects(ArrayField(scene0, "album"), fs, settings);
    KeptAlbumStable(ArrayField(scene0, "album"), fs, settings);
    ReconciledSceneSettles(scene1, fs, settings);
    var scene2 := ReconciledScene(scene1, fs, settings);
    assert ArrayField(scene2, "album") == album1;
    SettledSceneIsFixedPoint(scene2, fs, settings);
  }

  /** Two loads always reach a fixed point: loading the document written by
      the second load writes the same document again. */
  lemma ReconcileSettlesOnSecondLoad(config: ConfigFile, scene: string, fs: FileSystem, settings: Settings)
    requires Coherent(fs)
    requires Reconcile(config, scene, fs, settings).Some?
    ensures
      var second := Reconcile(Stored(Reconcile(config, scene, fs, settings).value), scene, fs, settings);
      second.Some? && Reconcile(Stored(second.value), scene, fs, settings) == second
  {
    var root0 := RootFields(config).value;
    var scene0 := SceneFields(root0, scene);
    ReconcileFirst(config, scene, fs, settings);
    SceneSettlesOnSecondLoad(scene0, fs, settings);
    var scene1 := ReconciledScene(scene0, fs, settings);
    var scene2 := ReconciledScene(scene1, fs, settings);
    var root1 := root0[scene := JObj(scene1)];
    var root2 := root1[scene := JObj(scene2)];
    SecondAndThirdLoads(root1, scene, scene2, fs, settings);
  }

  /** The loads after the first, given that the second reconciles the scene
      object to a fixed point. */
  lemma SecondAndThirdLoads(root1: map<string, Json>, scene: string, scene2: map<string, Json>, fs: FileSystem, settings: Settings)
    requires AllObjects(ArrayField(SceneFields(root1, scene), "album"))
    requires scene2 == ReconciledScene(SceneFields(root1, scene), fs, settings)
    requires AllObjects(ArrayField(scene2, "album"))
    requires ReconciledScene(scene2, fs, settings) == scene2
    ensures Reconcile(Stored(JObj(root1)), scene, fs, settings) == Some(JObj(root1[scene := JObj(scene2)]))
    ensures Reconcile(Stored(JObj(root1[scene := JObj(scene2)])), scene, fs, settings) == Some(JObj(root1[scene := JObj(scene2)]))
  {
    var root2 := root1[scene := JObj(scene2)];
    ReconcileStored(root1, scene, fs, settings);
    ReconcileStored(root2, scene, fs, settings);
    assert root2[scene := JObj(scene2)] == root2;
  }

  /** The example of `MalformedEntryImageReturnsOnSecondLoad`: the pictures
      folder holds `a.png`, and the album's only entry names it but has no
      `position`. */
  function ExampleFs(): FileSystem
  {
    FileSystem({"pics\\a.png"}, "pics", true, ["a.png"], (p: string) => 1.0)
  }

  function ExampleEntry(): Json
  {
    JObj(map["path" := JStr("a.png")])
  }

  function ExampleScene(): map<string, Json>
  {
    map["album" := JArr([ExampleEntry()]), "stash" := JArr([])]
  }

  lemma FirstLoadDropsEntryAndImage(settings: Settings)
    ensures KeptAlbum([ExampleEntry()], ExampleFs(), settings) == []
    ensures ReconciledStash(ExampleScene(), ExampleFs()) == []
  {
    var fs, entry, scene0 := ExampleFs(), ExampleEntry(), ExampleScene();
    assert ParsePictureData(entry, settings) == Failure(MissingField("position"));
    assert Init([entry]) == [] && Last([entry]) == entry;
    assert AlbumPaths([entry]) == {"a.png"};
    assert ArrayField(scene0, "album") == [entry] && ArrayField(scene0, "stash") == [];
    assert ListedFiles(fs) == ["a.png"];
    assert Init(["a.png"]) == [] && Last(["a.png"]) == "a.png";
    var noStrings: seq<string> := [];
    assert AddUnused(noStrings, ["a.png"], {"a.png"}) == [];
    assert CleanedStash([], fs) == noStrings;
    assert (set x | x in noStrings) == {};
    var used0 := (set x | x in CleanedStash(ArrayField(scene0, "stash"), fs)) + AlbumPaths(ArrayField(scene0, "album"));
    assert used0 == {"a.png"};
    assert ReconciledStash(scene0, fs) == AddUnused(noStrings, ListedFiles(fs), used0);
  }

  /** After the first load of the example scene both arrays are empty. */
  lemma FirstLoadEmptiesScene(settings: Settings)
    ensures ArrayField(ReconciledScene(ExampleScene(), ExampleFs(), settings), "album") == []
    ensures ArrayField(ReconciledScene(ExampleScene(), ExampleFs(), settings), "stash") == []
  {
    FirstLoadDropsEntryAndImage(settings);
  }

  /** A scene with an empty album and an empty stash gets every listed image. */
  lemma EmptySceneGetsListing(sceneFields: map<string, Json>, fs: FileSystem)
    requires ArrayField(sceneFields, "album") == [] && ArrayField(sceneFields, "stash") == []
    ensures ReconciledStash(sceneFields, fs) == AddUnused([], ListedFiles(fs), {})
  {
    var noStrings: seq<string> := [];
    var emptyAlbum: seq<Json> := [];
    assert CleanedStash(ArrayField(sceneFields, "stash"), fs) == noStrings;
    assert (set x | x in noStrings) == {};
    assert AlbumPaths(emptyAlbum) == {};
    assert (set x | x in noStrings) + AlbumPaths(ArrayField(sceneFields, "album")) == {};
  }

  /** The example listing, added to an empty stash with nothing used. */
  lemma ExampleListingAdded()
    ensures AddUnused([], ListedFiles(ExampleFs()), {}) == ["a.png"]
  {
    assert ListedFiles(ExampleFs()) == ["a.png"];
    assert IsImageName("a.png") by {
      assert "a.png"[1..] == ".png";
    }
    assert Init(["a.png"]) == [] && Last(["a.png"]) == "a.png";
  }

  lemma SecondLoadAddsImage(settings: Settings)
    ensures ReconciledStash(ReconciledScene(ExampleScene(), ExampleFs(), settings), ExampleFs()) == ["a.png"]
  {
    FirstLoadEmptiesScene(settings);
    EmptySceneGetsListing(ReconciledScene(ExampleScene(), ExampleFs(), settings), ExampleFs());
    ExampleListingAdded();
  }

  /** One load is not always enough: an album entry that fails to parse is
      dropped, but its image still counts as used, so the image is in neither
      the album nor the stash until the next load adds it to the stash. */
  lemma MalformedEntryImageReturnsOnSecondLoad(settings: Settings)
    ensures
      var config := Stored(JObj(map["Gym" := JObj(ExampleScene())]));
      var first := Reconcile(config, "Gym", ExampleFs(), settings);
      var second := Reconcile(Stored(first.value), "Gym", ExampleFs(), settings);
      && first.Some? && second.Some?
      && first.value.fields["Gym"].fields["album"] == JArr([])
      && first.value.fields["Gym"].fields["stash"] == JArr([])
      && second.value.fields["Gym"].fields["stash"] == JArr([JStr("a.png")])
  {
    var fs := ExampleFs();
    var root0 := map["Gym" := JObj(ExampleScene())];
    assert SceneFields(root0, "Gym") == ExampleScene();
    assert ArrayField(ExampleScene(), "album") == [ExampleEntry()];
    ReconcileStored(root0, "Gym", fs, settings);
    var scene1 := ReconciledScene(ExampleScene(), fs, settings);
    var root1 := root0["Gym" := JObj(scene1)];
    ExampleSceneLoads(settings);
    ReconcileStored(root1, "Gym", fs, settings);
  }

  /** The example scene object over two loads. */
  lemma ExampleSceneLoads(settings: Settings)
    ensures
      var scene1 := ReconciledScene(ExampleScene(), ExampleFs(), settings);
      var scene2 := ReconciledScene(scene1, ExampleFs(), settings);
      && scene1["album"] == JArr([])
      && scene1["stash"] == JArr([])
      && ArrayField(scene1, "album") == []
      && scene2["stash"] == JArr([JStr("a.png")])
  {
    var fs := ExampleFs();
    FirstLoadDropsEntryAndImage(settings);
    SecondLoadAddsImage(settings);
    var scene1 := ReconciledScene(ExampleScene(), fs, settings);
    assert scene1["album"] == JArr([]);
    assert scene1["stash"] == JArr([]);
    FirstLoadEmptiesScene(settings);
    assert StringArray(["a.png"]) == [JStr("a.png")];
  }

  /** An album entry for `a.png` that parses. */
  function ExamplePlacedEntry(): Json
  {
    var origin := JArr([JNum(0.0), JNum(0.0), JNum(0.0)]);
    JObj(map["path" := JStr("a.png"), "position" := origin, "rotation" := origin])
  }

  /** Only images added from the folder listing are kept out of the album: a
      stash entry that is already there stays even when the album holds the
      same image, so stash and album may share a path after a load. */
  lemma StashAndAlbumMayShareAnImage(settings: Settings)
    ensures
      var scene := map["album" := JArr([ExamplePlacedEntry()]), "stash" := JArr([JStr("a.png")])];
      && KeptAlbum(ArrayField(scene, "album"), ExampleFs(), settings) == [ExamplePlacedEntry()]
      && "a.png" in ReconciledStash(scene, ExampleFs())
  {
    var fs, entry := ExampleFs(), ExamplePlacedEntry();
    var scene := map["album" := JArr([entry]), "stash" := JArr([JStr("a.png")])];
    ExamplePlacedEntryKept(settings);
    assert Init([entry]) == [] && Last([entry]) == entry;
    assert ArrayField(scene, "album") == [entry];
    ExampleStashEntryStays(scene);
  }

  /** The parsed example entry is kept in the album. */
  lemma ExamplePlacedEntryKept(settings: Settings)
    ensures KeptInAlbum(ExamplePlacedEntry(), ExampleFs(), settings)
  {
    var origin := JArr([JNum(0.0), JNum(0.0), JNum(0.0)]);
    assert AllNumbers(origin.items);
    assert ParsePictureData(ExamplePlacedEntry(), settings).Success?;
    assert ParsePictureData(ExamplePlacedEntry(), settings).value.path == "a.png";
    assert Join(ExampleFs(), "a.png") == "pics\\a.png";
  }

  /** A stash holding `a.png` keeps it, whatever the album holds. */
  lemma ExampleStashEntryStays(scene: map<string, Json>)
    requires ArrayField(scene, "stash") == [JStr("a.png")]
    ensures "a.png" in ReconciledStash(scene, ExampleFs())
  {
    assert Join(ExampleFs(), "a.png") == "pics\\a.png";
    assert KeptInStash(JStr("a.png"), ExampleFs());
    assert JStr("a.png") in ArrayField(scene, "stash");
    ReconciledStashSpec(scene, ExampleFs());
  }
}
