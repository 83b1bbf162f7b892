/** What the scanning loop of `ParseLoadScene` (main.go) reads: a single pass over
    the scene text that hands the shared cursor to a block reader whenever a line opens
    a block, and skips every other line. `Commands` is the ordered sequence of decoded
    blocks; which of them are handed on to model loading is stated separately, and the
    loop itself is `Loader.ParseLoadScene`. */
module Scene {
  import opened Props
  import opened Wrappers
  import opened Records

  /** One decoded block of the scene text. */
  datatype Command = RoomCommand(room: Room) | ObjectCommand(obj: RoomObject)

  /** `^begin room$`, matched against the line as read (not trimmed). */
  predicate OpensRoom(line: string) {
    line == "begin room"
  }

  /** `^begin roomobject$`, matched against the line as read (not trimmed). */
  predicate OpensRoomObject(line: string) {
    line == "begin roomobject"
  }

  predicate Opens(line: string) {
    OpensRoom(line) || OpensRoomObject(line)
  }

  /** The commands the scanner produces from the line at `i` on. */
  function Commands(lines: seq<string>, i: nat): (r: seq<Command>)
    requires i <= |lines|
    decreases |lines| - i
  {
    if i == |lines| then []
    else if OpensRoom(lines[i]) then
      var b := ReadBlock(lines, i + 1, EndRoom);
      [RoomCommand(DecodeRoom(b.props))] + Commands(lines, b.next)
    else if OpensRoomObject(lines[i]) then
      var b := ReadBlock(lines, i + 1, EndAny);
      [ObjectCommand(DecodeRoomObject(b.props))] + Commands(lines, b.next)
    else
      Commands(lines, i + 1)
  }

  /** One turn of the scanning loop at an opening line: the decoded block that follows
      it is the next command, and scanning goes on from the cursor the block reader
      returns. */
  lemma OpeningStep(lines: seq<string>, i: nat, done: seq<Command>, c: Command, next: nat)
    requires i < |lines| && Opens(lines[i])
    requires OpensRoom(lines[i]) ==> var b := ReadBlock(lines, i + 1, EndRoom);
      c == RoomCommand(DecodeRoom(b.props)) && next == b.next
    requires !OpensRoom(lines[i]) ==> var b := ReadBlock(lines, i + 1, EndAny);
      c == ObjectCommand(DecodeRoomObject(b.props)) && next == b.next
    ensures next <= |lines| && done + Commands(lines, i) == (done + [c]) + Commands(lines, next)
  {
    assert Commands(lines, i) == [c] + Commands(lines, next);
  }

  /** The number of opening lines from `i` on. */
  function OpeningLines(lines: seq<string>, i: nat): (r: nat)
    requires i <= |lines|
    decreases |lines| - i
  {
    if i == |lines| then 0 else (if Opens(lines[i]) then 1 else 0) + OpeningLines(lines, i + 1)
  }

  lemma {:induction false} OpeningLinesMonotone(lines: seq<string>, i: nat, j: nat)
    requires i <= j <= |lines|
    ensures OpeningLines(lines, j) <= OpeningLines(lines, i)
    decreases j - i
  {
    if i < j {
      OpeningLinesMonotone(lines, i + 1, j);
    }
  }

  /** Lines that do not open a block are skipped: from a cursor before a run of such
      lines, the scanner produces exactly what it produces after the run. */
  lemma {:induction false} SkipsOtherLines(lines: seq<string>, i: nat, j: nat)
    requires i <= j <= |lines|
    requires forall k :: i <= k < j ==> !Opens(lines[k])
    ensures Commands(lines, i) == Commands(lines, j)
    decreases j - i
  {
    if i < j {
      SkipsOtherLines(lines, i + 1, j);
    }
  }

  /** Text without an opening line produces no command. */
  lemma NoOpeningNoCommands(lines: seq<string>)
    requires forall k :: 0 <= k < |lines| ==> !Opens(lines[k])
    ensures Commands(lines, 0) == []
  {
    SkipsOtherLines(lines, 0, |lines|);
  }

  /** The first opening line always opens a block: the first command is decoded from
      the block that follows it, read with that block's terminator, and scanning then
      goes on just past the block. */
  lemma FirstBlock(lines: seq<string>, i: nat, j: nat)
    requires i <= j < |lines| && Opens(lines[j])
    requires forall k :: i <= k < j ==> !Opens(lines[k])
    ensures OpensRoom(lines[j]) ==>
      var b := ReadBlock(lines, j + 1, EndRoom);
      Commands(lines, i) == [RoomCommand(DecodeRoom(b.props))] + Commands(lines, b.next)
    ensures OpensRoomObject(lines[j]) ==>
      var b := ReadBlock(lines, j + 1, EndAny);
      Commands(lines, i) == [ObjectCommand(DecodeRoomObject(b.props))] + Commands(lines, b.next)
  {
    SkipsOtherLines(lines, i, j);
  }

  /** Every command comes from its own opening line: there are never more commands
      than opening lines, since lines inside a block open nothing. */
  lemma {:induction false} CommandsBounded(lines: seq<string>, i: nat)
    requires i <= |lines|
    ensures |Commands(lines, i)| <= OpeningLines(lines, i)
    decreases |lines| - i
  {
    if i < |lines| {
      if Opens(lines[i]) {
        var b := ReadBlock(lines, i + 1, if OpensRoom(lines[i]) then EndRoom else EndAny);
        CommandsBounded(lines, b.next);
        OpeningLinesMonotone(lines, i + 1, b.next);
      } else {
        CommandsBounded(lines, i + 1);
      }
    }
  }

  /** The room of the last room command, which is where the camera ends up. */
  function LastRoom(cmds: seq<Command>): (r: Option<Room>)
    decreases |cmds|
  {
    if cmds == [] then None
    else if LastRoom(cmds[1..]).Some? then LastRoom(cmds[1..])
    else if cmds[0].RoomCommand? then Some(cmds[0].room)
    else None
  }

  /** The last room command decides the camera: later blocks of other kinds do not. */
  lemma {:induction false} LastRoomIsLast(cmds: seq<Command>, k: nat)
    requires k < |cmds| && cmds[k].RoomCommand?
    requires forall j :: k < j < |cmds| ==> !cmds[j].RoomCommand?
    ensures LastRoom(cmds) == Some(cmds[k].room)
    decreases |cmds|
  {
    if k > 0 {
      assert forall j :: k - 1 < j < |cmds[1..]| ==> cmds[1..][j] == cmds[j + 1];
      LastRoomIsLast(cmds[1..], k - 1);
    } else {
      LastRoomNone(cmds[1..]);
    }
  }

  /** Without a room command the camera is left alone. */
  lemma {:induction false} LastRoomNone(cmds: seq<Command>)
    ensures LastRoom(cmds) == None <==> forall k :: 0 <= k < |cmds| ==> !cmds[k].RoomCommand?
    decreases |cmds|
  {
    if cmds != [] {
      LastRoomNone(cmds[1..]);
      assert forall k :: 1 <= k < |cmds| ==> cmds[k] == cmds[1..][k - 1];
    }
  }

  /** Whether `ParseLoadScene` hands a command on to model loading: only a room object
      that names a file. */
  predicate WouldLoad(c: Command) {
    c.ObjectCommand? && c.obj.file != ""
  }

  /** The model files handed on to loading, in command order. */
  function ModelFiles(cmds: seq<Command>): (files: seq<string>)
    ensures |files| <= |cmds|
  {
    if cmds == [] then []
    else (if WouldLoad(cmds[0]) then [cmds[0].obj.file] else []) + ModelFiles(cmds[1..])
  }

  /** Loading keeps command order: the files of two runs of commands are the files of
      the first run followed by those of the second. */
  lemma {:induction false} ModelFilesAppend(a: seq<Command>, b: seq<Command>)
    ensures ModelFiles(a + b) == ModelFiles(a) + ModelFiles(b)
    decreases |a|
  {
    if a != [] {
      assert (a + b)[0] == a[0];
      assert (a + b)[1..] == a[1..] + b;
      ModelFilesAppend(a[1..], b);
    } else {
      assert a + b == b;
    }
  }

  /** A file is loaded exactly when some room object names it and it is not empty. */
  lemma {:induction false} ModelFilesExactly(cmds: seq<Command>, f: string)
    ensures f in ModelFiles(cmds) <==>
      exists k :: 0 <= k < |cmds| && WouldLoad(cmds[k]) && cmds[k].obj.file == f
    decreases |cmds|
  {
    if cmds != [] {
      ModelFilesExactly(cmds[1..], f);
      if f in ModelFiles(cmds[1..]) {
        var k :| 0 <= k < |cmds[1..]| && WouldLoad(cmds[1..][k]) && cmds[1..][k].obj.file == f;
        assert cmds[k + 1] == cmds[1..][k];
      }
      if exists k :: 0 <= k < |cmds| && WouldLoad(cmds[k]) && cmds[k].obj.file == f {
        var k :| 0 <= k < |cmds| && WouldLoad(cmds[k]) && cmds[k].obj.file == f;
        if k > 0 {
          assert cmds[1..][k - 1] == cmds[k];
        }
      }
    }
  }
}
