/** Small scene texts and what the model reads from them. */
module Scenarios {
  import opened Wrappers
  import opened Text
  import opened Numbers
  import opened Props
  import opened Records
  import opened Scene

  /** A `key=value` line with no white space at its ends is left alone by trimming and
      is no terminator. */
  lemma PlainEntry(key: string, value: string, endOn: Terminator)
    requires '=' !in key && '=' !in value && |key| > 0 && |value| > 0
    requires !IsSpace(key[0]) && !IsSpace(value[|value| - 1])
    requires endOn == EndRoom || key[0] != 'e'
    ensures TrimSpace(key + "=" + value) == key + "=" + value
    ensures !Ends(endOn, key + "=" + value)
  {
    var t := key + "=" + value;
    assert t[0] == key[0] && t[|t| - 1] == value[|value| - 1];
    TrimSpaceKeeps(t);
    assert '=' in t;
  }

  /** Reading ["a=1", "end room", "a=2"] as a room block stores a=1, stops at "end room"
      and leaves the cursor on "a=2". */
  lemma RoomBlockStops()
    ensures ReadBlock(["a=1", "end room", "a=2"], 0, EndRoom) == Block(map["a" := "1"], 2)
  {
    var lines := ["a=1", "end room", "a=2"];
    assert lines[0] == "a" + "=" + "1";
    RoomBlock(lines, 0, "a", "1");
  }

  /** A room block whose body is one plain `key=value` line, closed by "end room", holds
      just that property, and the cursor ends past "end room". */
  lemma RoomBlock(lines: seq<string>, i: nat, key: string, value: string)
    requires i + 2 <= |lines| && lines[i] == key + "=" + value && lines[i + 1] == "end room"
    requires '=' !in key && '=' !in value && |key| > 0 && |value| > 0
    requires !IsSpace(key[0]) && !IsSpace(value[|value| - 1])
    ensures ReadBlock(lines, i, EndRoom) == Block(map[key := value], i + 2)
  {
    PlainEntry(key, value, EndRoom);
    StoreLine(map[], key, value);
    TrimSpaceKeeps("end room");
    assert BodyEnd(lines, i + 1, EndRoom) == i + 1;
    assert BodyEnd(lines, i, EndRoom) == i + 1;
    assert lines[i..i + 1] == [lines[i]];
    assert PropsOf([lines[i]]) == Store(map[], lines[i]);
  }

  /** Decimal text as `ParseFloat` reads it: a fraction, and a whole number. */
  lemma NumberExamples()
    ensures ParseNum("1.5") == Some(1.5)
    ensures ParseNum("2") == Some(2.0)
  {
    var s := "1.5";
    assert ReadMantissa(s, 3, Mantissa(15, 2, 1, true)) == Some(1.5);
    assert ReadMantissa(s, 0, NoDigits) == ReadMantissa(s, 1, Mantissa(1, 1, 0, false));
    assert ReadMantissa(s, 1, Mantissa(1, 1, 0, false)) == ReadMantissa(s, 2, Mantissa(1, 1, 0, true));
    DigitsParse("2");
  }

  /** A signed fraction with a signed exponent. */
  lemma ExponentExample()
    ensures ParseNum("-2.5e-1") == Some(-0.25)
  {
    var t := "-2.5e-1";
    assert ReadExponentDigits(t, 7, 1, 1) == Some(1);
    assert ReadExponent(t, 5) == Some(-1);
    assert ReadMantissa(t, 4, Mantissa(25, 2, 1, true)) == Some(0.25);
    assert ReadMantissa(t, 1, NoDigits) == Some(0.25);
  }

  /** Syntax errors: a leading space, a second '.', and a '.' without digits. */
  lemma RejectedExamples()
    ensures ParseNum(" 1.5") == None && ParseNum("1.5.") == None && ParseNum(".") == None
  {
    LeadingSpaceRejected(" 1.5");
    var u := "1.5.";
    assert ReadMantissa(u, 3, Mantissa(15, 2, 1, true)) == None;
    assert ReadMantissa(".", 1, NoDigits.(dot := true)) == None;
  }

  /** The room placement of a block that sets only `cameraposx=1.5`. */
  const CameraX := Room(1.5, 0.0, 0.0, 0.0)

  /** A room block that sets only `cameraposx` gives a room command with the camera at
      (1.5, 0, 0), turned 0, and scanning goes on after "end room". */
  lemma OneRoom(lines: seq<string>, i: nat)
    requires i + 3 <= |lines| && lines[i..i + 3] == ["begin room", "cameraposx=1.5", "end room"]
    ensures Commands(lines, i) == [RoomCommand(CameraX)] + Commands(lines, i + 3)
  {
    assert lines[i] == lines[i..i + 3][0];
    assert lines[i + 1] == "cameraposx" + "=" + "1.5" by { assert lines[i + 1] == lines[i..i + 3][1]; }
    assert lines[i + 2] == "end room" by { assert lines[i + 2] == lines[i..i + 3][2]; }
    RoomBlock(lines, i + 1, "cameraposx", "1.5");
    FirstBlock(lines, i, i);
    RoomDecode();
  }

  lemma RoomDecode()
    ensures DecodeRoom(map["cameraposx" := "1.5"]) == CameraX
  {
    NumberExamples();
    EmptyRejected();
  }

  /** The room object of a block that sets only `file=foo.obj` and `locationx=2`. */
  const Foo := RoomObject("foo.obj", 2.0, 0.0, 0.0, 0.0, 0.0, 0.0, 0.0, 0.0, 0.0)

  /** A room-object block that sets `file` and `locationx` gives an object command with
      that file at (2, 0, 0), scale and rotation all 0. */
  lemma OneRoomObject(lines: seq<string>, i: nat)
    requires i + 4 <= |lines|
    requires lines[i..i + 4] == ["begin roomobject", "file=foo.obj", "locationx=2", "end roomobject"]
    ensures Commands(lines, i) == [ObjectCommand(Foo)] + Commands(lines, i + 4)
  {
    assert lines[i] == lines[i..i + 4][0];
    assert lines[i + 1..i + 4] == lines[i..i + 4][1..];
    ObjectBlock(lines, i + 1);
    var b := ReadBlock(lines, i + 1, EndAny);
    assert OpensRoomObject(lines[i]) && !OpensRoom(lines[i]);
    FirstBlock(lines, i, i);
    assert Commands(lines, i) == [ObjectCommand(DecodeRoomObject(b.props))] + Commands(lines, i + 4);
    FooDecode(b.props);
  }

  /** The `file=foo.obj`, `locationx=2` block, wherever it starts. */
  lemma ObjectBlock(lines: seq<string>, i: nat)
    requires i + 3 <= |lines|
    requires lines[i..i + 3] == ["file=foo.obj", "locationx=2", "end roomobject"]
    ensures ReadBlock(lines, i, EndAny) == Block(map["file" := "foo.obj", "locationx" := "2"], i + 3)
  {
    ObjectBody(lines, i);
    assert lines[i..i + 2] == [lines[i], lines[i + 1]];
    ObjectProps(lines[i], lines[i + 1]);
  }

  /** The body of that block is its two property lines: neither ends it, and
      "end roomobject" does. */
  lemma ObjectBody(lines: seq<string>, i: nat)
    requires i + 3 <= |lines|
    requires lines[i..i + 3] == ["file=foo.obj", "locationx=2", "end roomobject"]
    ensures BodyEnd(lines, i, EndAny) == i + 2
    ensures lines[i] == "file" + "=" + "foo.obj" && lines[i + 1] == "locationx" + "=" + "2"
  {
    assert lines[i] == "file" + "=" + "foo.obj" by { assert lines[i] == lines[i..i + 3][0]; }
    assert lines[i + 1] == "locationx" + "=" + "2" by { assert lines[i + 1] == lines[i..i + 3][1]; }
    assert lines[i + 2] == "end roomobject" by { assert lines[i + 2] == lines[i..i + 3][2]; }
    PlainEntry("file", "foo.obj", EndAny);
    PlainEntry("locationx", "2", EndAny);
    TrimSpaceKeeps("end roomobject");
    assert Ends(EndAny, "end roomobject");
    assert BodyEnd(lines, i + 2, EndAny) == i + 2;
  }

  /** The two property lines set `file` and `locationx`. */
  lemma ObjectProps(a: string, b: string)
    requires a == "file" + "=" + "foo.obj" && b == "locationx" + "=" + "2"
    ensures PropsOf([a, b]) == map["file" := "foo.obj", "locationx" := "2"]
  {
    PlainEntry("file", "foo.obj", EndAny);
    PlainEntry("locationx", "2", EndAny);
    StoreLine(map[], "file", "foo.obj");
    StoreLine(map["file" := "foo.obj"], "locationx", "2");
    assert [a, b][..1] == [a];
    assert PropsOf([a]) == Store(map[], a);
  }

  lemma FooDecode(props: map<string, string>)
    requires props == map["file" := "foo.obj", "locationx" := "2"]
    ensures DecodeRoomObject(props) == Foo
  {
    NumberExamples();
    EmptyRejected();
  }

  /** Spaces around '=' stay in the key and the value, since only the ends of the whole
      line are trimmed: "cameraposx = 1.5" sets the key "cameraposx ". */
  lemma SpacedEntry()
    ensures Store(map[], "cameraposx = 1.5") == map["cameraposx " := " 1.5"]
  {
    var t := "cameraposx = 1.5";
    assert t == "cameraposx " + "=" + " 1.5";
    TrimSpaceKeeps(t);
    StoreLine(map[], "cameraposx ", " 1.5");
  }

  /** So a room block whose only line is "cameraposx = 1.5" leaves the camera at zero. */
  lemma SpacedEntryIgnored()
    ensures DecodeRoom(Store(map[], "cameraposx = 1.5")) == Room(0.0, 0.0, 0.0, 0.0)
  {
    SpacedEntry();
    EmptyRejected();
  }

  /** Opening lines are matched as read: an indented "begin room" opens nothing. */
  lemma IndentedOpening(lines: seq<string>, i: nat)
    requires i < |lines| && lines[i] == " begin room"
    ensures Commands(lines, i) == Commands(lines, i + 1)
  {
    assert !Opens(lines[i]);
    SkipsOtherLines(lines, i, i + 1);
  }

  /** Terminators are matched once trimmed: an indented "end room" ends a room. */
  lemma IndentedTerminator()
    ensures Ends(EndRoom, TrimSpace(" end room"))
  {
    var t := "end room";
    assert IsSpace(' ') && !IsSpace(t[0]) && !IsSpace(t[|t| - 1]);
    assert ([' '] + t)[1..] == t;
    assert TrimLeft([' '] + t) == TrimLeft(t);
    TrimSpaceKeeps(t);
    assert " end room" == [' '] + t;
  }
}
