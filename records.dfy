/** `ParseRoom` and `ParseRoomObject` (main.go): the records a room block and a
    room-object block decode into, and how their fields are taken from the block's
    properties. Numbers are kept as exact values; see README for what that leaves out. */
module Records {
  import opened Wrappers
  import opened Numbers
  import opened Props

  /** The camera placement of a room block. */
  datatype Room = Room(cameraPosX: real, cameraPosY: real, cameraPosZ: real, cameraRotY: real)

  /** An object placement: the model file and its location, scale and rotation. */
  datatype RoomObject = RoomObject(
    file: string,
    locationX: real, locationY: real, locationZ: real,
    scaleX: real, scaleY: real, scaleZ: real,
    rotationX: real, rotationY: real, rotationZ: real)

  /** `props[key]` in Go: the value stored for `key`, or the empty string when there is none. */
  function Lookup(props: map<string, string>, key: string): (r: string) {
    if key in props then props[key] else ""
  }

  /** A numeric field: the parsed value of the key's text, zero when that fails. */
  function Field(props: map<string, string>, key: string): (r: real) {
    ParseNum(Lookup(props, key)).GetOr(0.0)
  }

  /** The room record, each camera field from its own key. */
  function DecodeRoom(props: map<string, string>): (r: Room) {
    Room(Field(props, "cameraposx"), Field(props, "cameraposy"),
         Field(props, "cameraposz"), Field(props, "cameraroty"))
  }

  /** The room-object record, each field from its own key, and the file from `file`. */
  function DecodeRoomObject(props: map<string, string>): (r: RoomObject) {
    RoomObject(
      Lookup(props, "file"),
      Field(props, "locationx"), Field(props, "locationy"), Field(props, "locationz"),
      Field(props, "scalex"), Field(props, "scaley"), Field(props, "scalez"),
      Field(props, "rotationx"), Field(props, "rotationy"), Field(props, "rotationz"))
  }

  /** A numeric field is the parsed value of its key when that parses, and zero when
      the key is missing or its text does not parse (the parse error is dropped). */
  lemma FieldValue(props: map<string, string>, key: string)
    ensures key !in props ==> Field(props, key) == 0.0
    ensures key in props && ParseNum(props[key]).Some? ==> Field(props, key) == ParseNum(props[key]).value
    ensures key in props && ParseNum(props[key]).None? ==> Field(props, key) == 0.0
  {
  }

  /** The keys a room record is decoded from. */
  const RoomKeys: set<string> := {"cameraposx", "cameraposy", "cameraposz", "cameraroty"}

  /** The keys a room-object record is decoded from. */
  const RoomObjectKeys: set<string> := {
    "file", "locationx", "locationy", "locationz", "scalex", "scaley", "scalez",
    "rotationx", "rotationy", "rotationz"}

  /** A block with no properties decodes to an all-zero room. */
  lemma EmptyRoom()
    ensures DecodeRoom(map[]) == Room(0.0, 0.0, 0.0, 0.0)
  {
  }

  /** A block with no properties decodes to an all-zero object with no file. */
  lemma EmptyRoomObject()
    ensures DecodeRoomObject(map[]) == RoomObject("", 0.0, 0.0, 0.0, 0.0, 0.0, 0.0, 0.0, 0.0, 0.0)
  {
  }

  /** Only the four camera keys matter: two property maps that agree on them decode to
      the same room, whatever else they hold. */
  lemma RoomIgnoresOtherKeys(props: map<string, string>, other: map<string, string>)
    requires forall k :: k in RoomKeys ==> Lookup(props, k) == Lookup(other, k)
    ensures DecodeRoom(props) == DecodeRoom(other)
  {
    assert "cameraposx" in RoomKeys && "cameraposy" in RoomKeys;
    assert "cameraposz" in RoomKeys && "cameraroty" in RoomKeys;
  }

  /** Only the ten room-object keys matter. */
  lemma RoomObjectIgnoresOtherKeys(props: map<string, string>, other: map<string, string>)
    requires forall k :: k in RoomObjectKeys ==> Lookup(props, k) == Lookup(other, k)
    ensures DecodeRoomObject(props) == DecodeRoomObject(other)
  {
    assert "file" in RoomObjectKeys;
    assert "locationx" in RoomObjectKeys && "locationy" in RoomObjectKeys && "locationz" in RoomObjectKeys;
    assert "scalex" in RoomObjectKeys && "scaley" in RoomObjectKeys && "scalez" in RoomObjectKeys;
    assert "rotationx" in RoomObjectKeys && "rotationy" in RoomObjectKeys && "rotationz" in RoomObjectKeys;
  }

  /** `ParseRoom`: reads a room block from the cursor, ending only on the line
      "end room", and decodes it. */
  method ParseRoom(lines: seq<string>, cursor: nat) returns (r: Room, next: nat)
    requires cursor <= |lines|
    ensures var b := ReadBlock(lines, cursor, EndRoom); r == DecodeRoom(b.props) && next == b.next
    ensures cursor <= next <= |lines|
  {
    var props;
    props, next := LoadProps(lines, cursor, EndRoom);
    r := DecodeRoom(props);
  }

  /** `ParseRoomObject`: reads a room-object block from the cursor, ending on any line
      that starts with "end", and decodes it. */
  method ParseRoomObject(lines: seq<string>, cursor: nat) returns (o: RoomObject, next: nat)
    requires cursor <= |lines|
    ensures var b := ReadBlock(lines, cursor, EndAny); o == DecodeRoomObject(b.props) && next == b.next
    ensures cursor <= next <= |lines|
  {
    var props;
    props, next := LoadProps(lines, cursor, EndAny);
    o := DecodeRoomObject(props);
  }
}
