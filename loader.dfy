/** `ParseLoadScene` and `LoadModelToGroup` (main.go) with the engine calls removed:
    the scanning loop reads the scene file once, points the camera at each room block
    in turn, and hands each room object that names a file to the preprocessing cache,
    under the assets directory; the placed model is the cache file with the object's
    transform. */
module Loader {
  import opened Wrappers
  import opened Text
  import opened Props
  import opened Records
  import opened Scene
  import opened Cache

  /** A model handed on to the decoder: the file it is decoded from and the placement
      its group is given. */
  datatype Placement = Placement(path: string, obj: RoomObject)

  /** What loading a scene has produced so far: the camera placement of the last room
      block (None while the default camera is untouched), the placed models in order,
      and the filesystem with its write count. */
  datatype Outcome = Outcome(camera: Option<Room>, placed: seq<Placement>, files: map<string, string>, writes: nat)

  /** `LoadModelToGroup`'s model path: the assets directory, a slash, and the file. */
  function ObjPath(assetsPath: string, file: string): (r: string) {
    assetsPath + "/" + file
  }

  /** What one command does to the outcome. */
  function LoadOne(o: Outcome, assetsPath: string, c: Command): (r: Outcome) {
    match c
    case RoomCommand(r) => o.(camera := Some(r))
    case ObjectCommand(obj) =>
      if obj.file == "" then o
      else
        var p := ObjPath(assetsPath, obj.file);
        Outcome(o.camera, o.placed + [Placement(CachePath(p), obj)],
                CacheStep(o.files, p), o.writes + WritesFor(o.files, p))
  }

  /** The outcome of the commands, in order. */
  function LoadAll(o: Outcome, assetsPath: string, cmds: seq<Command>): (r: Outcome)
    decreases |cmds|
  {
    if cmds == [] then o else LoadAll(LoadOne(o, assetsPath, cmds[0]), assetsPath, cmds[1..])
  }

  /** The lines of the scene file; a missing file is not checked and reads as no lines. */
  function SceneLines(files: map<string, string>, scenePath: string): (r: seq<string>) {
    ScanLines(ReadText(files, scenePath))
  }

  /** `LoadModelToGroup`: the model file under the assets directory goes through the
      preprocessing cache, and the cache file is what is decoded. */
  method LoadModelToGroup(fs: FileSystem, assetsPath: string, file: string) returns (path: string)
    modifies fs
    ensures path == CachePath(ObjPath(assetsPath, file))
    ensures fs.files == CacheStep(old(fs.files), ObjPath(assetsPath, file))
    ensures fs.writes == old(fs.writes) + WritesFor(old(fs.files), ObjPath(assetsPath, file))
  {
    var objPath := assetsPath + "/" + file;
    path := fs.ObjPreprocessCache(objPath);
  }

  /** The room-object branch of the scanning loop: an object that names a file has its
      model loaded through the cache and is placed; one with no file is skipped. */
  method PlaceRoomObject(fs: FileSystem, assetsPath: string, camera: Option<Room>, placed: seq<Placement>, o: RoomObject)
    returns (placed': seq<Placement>)
    modifies fs
    ensures Outcome(camera, placed', fs.files, fs.writes)
      == LoadOne(Outcome(camera, placed, old(fs.files), old(fs.writes)), assetsPath, ObjectCommand(o))
  {
    placed' := placed;
    if |o.file| > 0 {
      var path := LoadModelToGroup(fs, assetsPath, o.file);
      placed' := placed + [Placement(path, o)];
    }
  }

  /** The outcome of the scanning loop from the line at `i` on, starting from `o`. */
  function Run(o: Outcome, assetsPath: string, lines: seq<string>, i: nat): (r: Outcome)
    requires i <= |lines|
    decreases |lines| - i
  {
    if i == |lines| then o
    else if OpensRoom(lines[i]) then
      var b := ReadBlock(lines, i + 1, EndRoom);
      Run(LoadOne(o, assetsPath, RoomCommand(DecodeRoom(b.props))), assetsPath, lines, b.next)
    else if OpensRoomObject(lines[i]) then
      var b := ReadBlock(lines, i + 1, EndAny);
      Run(LoadOne(o, assetsPath, ObjectCommand(DecodeRoomObject(b.props))), assetsPath, lines, b.next)
    else
      Run(o, assetsPath, lines, i + 1)
  }

  /** `ParseLoadScene`: scans the scene text once; a room block moves the camera, a room
      object that names a file has its model preprocessed and placed. */
  method ParseLoadScene(fs: FileSystem, assetsPath: string, scenePath: string)
    returns (camera: Option<Room>, placed: seq<Placement>)
    modifies fs
    ensures Outcome(camera, placed, fs.files, fs.writes)
      == LoadAll(Outcome(None, [], old(fs.files), old(fs.writes)), assetsPath, Commands(SceneLines(old(fs.files), scenePath), 0))
  {
    var lines := SceneLines(fs.files, scenePath);
    ghost var goal := Run(Outcome(None, [], fs.files, fs.writes), assetsPath, lines, 0);
    camera, placed := None, [];
    var i := 0;
    while i < |lines|
      invariant i <= |lines|
      invariant Run(Outcome(camera, placed, fs.files, fs.writes), assetsPath, lines, i) == goal
      decreases |lines| - i
    {
      var line := lines[i];
      if OpensRoom(line) {
        var r, next := ParseRoom(lines, i + 1);
        camera, i := Some(r), next;
      } else if OpensRoomObject(line) {
        var o, next := ParseRoomObject(lines, i + 1);
        placed := PlaceRoomObject(fs, assetsPath, camera, placed, o);
        i := next;
      } else {
        i := i + 1;
      }
    }
    RunLoadsCommands(Outcome(None, [], old(fs.files), old(fs.writes)), assetsPath, lines, 0);
  }

  /** The scanning loop loads the commands of the scene, in order. */
  lemma {:induction false} RunLoadsCommands(o: Outcome, assetsPath: string, lines: seq<string>, i: nat)
    requires i <= |lines|
    ensures Run(o, assetsPath, lines, i) == LoadAll(o, assetsPath, Commands(lines, i))
    decreases |lines| - i
  {
    if i < |lines| {
      if Opens(lines[i]) {
        var b := ReadBlock(lines, i + 1, if OpensRoom(lines[i]) then EndRoom else EndAny);
        var c := if OpensRoom(lines[i]) then RoomCommand(DecodeRoom(b.props)) else ObjectCommand(DecodeRoomObject(b.props));
        RunLoadsCommands(LoadOne(o, assetsPath, c), assetsPath, lines, b.next);
        assert Commands(lines, i) == [c] + Commands(lines, b.next);
        LoadStep(o, assetsPath, c, Commands(lines, b.next));
      } else {
        RunLoadsCommands(o, assetsPath, lines, i + 1);
      }
    }
  }

  lemma LoadStep(o: Outcome, assetsPath: string, c: Command, rest: seq<Command>)
    ensures LoadAll(o, assetsPath, [c] + rest) == LoadAll(LoadOne(o, assetsPath, c), assetsPath, rest)
  {
    assert ([c] + rest)[1..] == rest;
  }

  /** The models placed for the commands, which depend on the commands and the assets
      directory only: one per room object naming a file, in order, decoded from the
      cache file of that file. */
  function Placements(assetsPath: string, cmds: seq<Command>): (r: seq<Placement>)
    decreases |cmds|
  {
    if cmds == [] then []
    else (if WouldLoad(cmds[0]) then [Placement(CachePath(ObjPath(assetsPath, cmds[0].obj.file)), cmds[0].obj)] else [])
         + Placements(assetsPath, cmds[1..])
  }

  /** The placed models are the model files in order: the k-th is decoded from the cache
      file of the k-th model file under the assets directory. */
  lemma {:induction false} PlacementsOfModelFiles(assetsPath: string, cmds: seq<Command>)
    ensures |Placements(assetsPath, cmds)| == |ModelFiles(cmds)|
    ensures forall k :: 0 <= k < |ModelFiles(cmds)| ==>
      Placements(assetsPath, cmds)[k].obj.file == ModelFiles(cmds)[k]
      && Placements(assetsPath, cmds)[k].path == CachePath(ObjPath(assetsPath, ModelFiles(cmds)[k]))
    decreases |cmds|
  {
    if cmds != [] {
      PlacementsOfModelFiles(assetsPath, cmds[1..]);
    }
  }

  /** Loading the commands places their models after those already placed. */
  lemma {:induction false} LoadAllPlaces(o: Outcome, assetsPath: string, cmds: seq<Command>)
    ensures LoadAll(o, assetsPath, cmds).placed == o.placed + Placements(assetsPath, cmds)
    decreases |cmds|
  {
    if cmds == [] {
      assert o.placed + [] == o.placed;
    } else {
      var c := cmds[0];
      var head := if WouldLoad(c) then [Placement(CachePath(ObjPath(assetsPath, c.obj.file)), c.obj)] else [];
      var o1 := LoadOne(o, assetsPath, c);
      assert o1.placed == o.placed + head;
      assert Placements(assetsPath, cmds) == head + Placements(assetsPath, cmds[1..]);
      LoadAllPlaces(o1, assetsPath, cmds[1..]);
      assert o1.placed + Placements(assetsPath, cmds[1..]) == o.placed + (head + Placements(assetsPath, cmds[1..]));
    }
  }

  /** The camera ends at the last room block of the scene; without one it stays as it was. */
  lemma {:induction false} LoadAllCamera(o: Outcome, assetsPath: string, cmds: seq<Command>)
    ensures LoadAll(o, assetsPath, cmds).camera == if LastRoom(cmds).Some? then LastRoom(cmds) else o.camera
    decreases |cmds|
  {
    if cmds != [] {
      LoadAllCamera(LoadOne(o, assetsPath, cmds[0]), assetsPath, cmds[1..]);
    }
  }

  /** Loading never removes or changes a file that was there: it only adds cache files,
      and it never takes writes back. */
  lemma {:induction false} LoadAllGrows(o: Outcome, assetsPath: string, cmds: seq<Command>)
    ensures forall q :: q in o.files ==> q in LoadAll(o, assetsPath, cmds).files && LoadAll(o, assetsPath, cmds).files[q] == o.files[q]
    ensures LoadAll(o, assetsPath, cmds).writes >= o.writes
    decreases |cmds|
  {
    if cmds != [] {
      LoadAllGrows(LoadOne(o, assetsPath, cmds[0]), assetsPath, cmds[1..]);
    }
  }

  /** After loading, every model file of the scene has its cache file. */
  lemma {:induction false} LoadAllCaches(o: Outcome, assetsPath: string, cmds: seq<Command>)
    ensures forall f :: f in ModelFiles(cmds) ==> CachePath(ObjPath(assetsPath, f)) in LoadAll(o, assetsPath, cmds).files
    decreases |cmds|
  {
    if cmds != [] {
      var o1 := LoadOne(o, assetsPath, cmds[0]);
      LoadAllCaches(o1, assetsPath, cmds[1..]);
      LoadAllGrows(o1, assetsPath, cmds[1..]);
      if WouldLoad(cmds[0]) {
        CacheStepEffect(o.files, ObjPath(assetsPath, cmds[0].obj.file));
      }
    }
  }

  /** When every model file of the scene already has its cache file, loading creates and
      writes nothing. */
  lemma {:induction false} LoadAllCached(o: Outcome, assetsPath: string, cmds: seq<Command>)
    requires forall f :: f in ModelFiles(cmds) ==> CachePath(ObjPath(assetsPath, f)) in o.files
    ensures LoadAll(o, assetsPath, cmds).files == o.files
    ensures LoadAll(o, assetsPath, cmds).writes == o.writes
    decreases |cmds|
  {
    if cmds != [] {
      var o1 := LoadOne(o, assetsPath, cmds[0]);
      assert o1.files == o.files && o1.writes == o.writes;
      LoadAllCached(o1, assetsPath, cmds[1..]);
    }
  }

  /** Loading a scene a second time over the files the first load left gives the same
      camera, the same placed models and the same files, and makes no write: the scene
      text is unchanged, and every cache file it needs is there. */
  lemma Reload(files: map<string, string>, writes: nat, assetsPath: string, scenePath: string)
    ensures var first := LoadAll(Outcome(None, [], files, writes), assetsPath, Commands(SceneLines(files, scenePath), 0));
      SceneLines(first.files, scenePath) == SceneLines(files, scenePath)
      && LoadAll(Outcome(None, [], first.files, first.writes), assetsPath, Commands(SceneLines(first.files, scenePath), 0)) == first
  {
    var start := Outcome(None, [], files, writes);
    var cmds := Commands(SceneLines(files, scenePath), 0);
    var first := LoadAll(start, assetsPath, cmds);
    LoadAllGrows(start, assetsPath, cmds);
    if scenePath !in files {
      assert SceneLines(files, scenePath) == [];
      assert cmds == [];
    }
    assert SceneLines(first.files, scenePath) == SceneLines(files, scenePath);
    var again := Outcome(None, [], first.files, first.writes);
    LoadAllCaches(start, assetsPath, cmds);
    LoadAllCached(again, assetsPath, cmds);
    LoadAllPlaces(start, assetsPath, cmds);
    LoadAllPlaces(again, assetsPath, cmds);
    LoadAllCamera(start, assetsPath, cmds);
    LoadAllCamera(again, assetsPath, cmds);
  }
}
