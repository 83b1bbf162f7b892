/** `loadProps` (main.go): reading one block of `key=value` lines from the scene
    text. The shared line scanner is a sequence of lines and a cursor; reading a
    block starts at the cursor and returns the properties and the cursor after it. */
module Props {
  import opened Wrappers
  import opened Text

  /** The two terminator patterns a block can end on: `^end room$`, which only the
      exact line matches, and `^end`, which every line starting with "end" matches. */
  datatype Terminator = EndRoom | EndAny

  predicate Ends(endOn: Terminator, line: string) {
    match endOn
    case EndRoom => line == "end room"
    case EndAny => |line| >= 3 && line[..3] == "end"
  }

  /** The key and value a trimmed line holds, when it splits on '=' into exactly two
      pieces: then neither holds '=', and the line is the key, '=' and the value. */
  function Entry(line: string): (r: Option<(string, string)>)
    ensures r.Some? ==> '=' !in r.value.0 && '=' !in r.value.1 && line == r.value.0 + "=" + r.value.1
  {
    SplitPieces(line, '=');
    SplitJoin(line, '=');
    var kv := Split(line, '=');
    if |kv| == 2 then Some((kv[0], kv[1])) else None
  }

  /** A line splits into exactly two pieces exactly when it holds one '=', and then the
      key is what lies before that '=' and the value what lies after it. */
  lemma EntryShape(line: string)
    ensures Entry(line).Some? <==> Count(line, '=') == 1
    ensures Entry(line).Some? ==>
      var k := Find(line, '='); k < |line| && Entry(line).value == (line[..k], line[k + 1..])
  {
    SplitCount(line, '=');
    if Count(line, '=') == 1 {
      SplitOnce(line, '=');
    }
  }

  /** What one non-terminator line does to the properties read so far: no property is
      ever removed, and a new one is the entry of that line. */
  function Store(props: map<string, string>, line: string): (r: map<string, string>)
    ensures forall k :: k in props ==> k in r
    ensures forall k :: k in r && k !in props ==> Entry(TrimSpace(line)) == Some((k, r[k]))
  {
    match Entry(TrimSpace(line))
    case None => props
    case Some(kv) => props[kv.0 := kv.1]
  }

  /** A line that, once trimmed, holds exactly one '=' sets its key to its value,
      replacing any earlier value and touching no other key; any other line changes
      nothing. */
  lemma StoreEffect(props: map<string, string>, line: string)
    ensures Count(TrimSpace(line), '=') != 1 ==> Store(props, line) == props
    ensures Count(TrimSpace(line), '=') == 1 ==>
      var t := TrimSpace(line); var k := Find(t, '=');
      k < |t| && Store(props, line) == props[t[..k] := t[k + 1..]]
  {
    EntryShape(TrimSpace(line));
  }

  /** A line `key=value` whose key and value hold no '=' and which trimming leaves
      alone sets `key` to `value`. */
  lemma StoreLine(props: map<string, string>, key: string, value: string)
    requires '=' !in key && '=' !in value
    requires TrimSpace(key + "=" + value) == key + "=" + value
    ensures Store(props, key + "=" + value) == props[key := value]
  {
    var t := key + "=" + value;
    FindFirst(key, '=', value);
    assert t[..|key|] == key;
    assert t[|key| + 1..] == value;
    assert Split(value, '=') == [value];
  }

  /** The properties of a block body: every line stored in order. */
  function PropsOf(body: seq<string>): (r: map<string, string>)
    decreases |body|
  {
    if body == [] then map[] else Store(PropsOf(body[..|body| - 1]), body[|body| - 1])
  }

  /** Where the body of a block that starts at `start` ends: at the first line that,
      once trimmed, matches the terminator, or at the end of the input. */
  function BodyEnd(lines: seq<string>, start: nat, endOn: Terminator): (j: nat)
    requires start <= |lines|
    ensures start <= j <= |lines|
    ensures forall i :: start <= i < j ==> !Ends(endOn, TrimSpace(lines[i]))
    ensures j < |lines| ==> Ends(endOn, TrimSpace(lines[j]))
    decreases |lines| - start
  {
    if start == |lines| || Ends(endOn, TrimSpace(lines[start])) then start
    else BodyEnd(lines, start + 1, endOn)
  }

  /** A block read from the scene text: its properties and the cursor after it. */
  datatype Block = Block(props: map<string, string>, next: nat)

  /** The block `loadProps` reads from `start`: the properties of its body, with the
      cursor just past the terminator line, or at the end of the input when the input
      runs out before a terminator. */
  function ReadBlock(lines: seq<string>, start: nat, endOn: Terminator): (b: Block)
    requires start <= |lines|
    ensures start <= b.next <= |lines|
  {
    var j := BodyEnd(lines, start, endOn);
    Block(PropsOf(lines[start..j]), if j < |lines| then j + 1 else |lines|)
  }

  /** `loadProps`: reads lines from the cursor, trimming each, up to and including the
      first one that matches the terminator, and stores every other line's entry. */
  method LoadProps(lines: seq<string>, start: nat, endOn: Terminator) returns (props: map<string, string>, next: nat)
    requires start <= |lines|
    ensures Block(props, next) == ReadBlock(lines, start, endOn)
  {
    props := map[];
    var i := start;
    while i < |lines|
      invariant start <= i <= |lines|
      invariant BodyEnd(lines, start, endOn) == BodyEnd(lines, i, endOn)
      invariant props == PropsOf(lines[start..i])
    {
      var line := TrimSpace(lines[i]);
      if Ends(endOn, line) {
        return props, i + 1;
      }
      var kv := Split(line, '=');
      if |kv| == 2 {
        props := props[kv[0] := kv[1]];
      }
      PropsOfStep(lines, start, i);
      i := i + 1;
    }
    return props, i;
  }

  lemma PropsOfStep(lines: seq<string>, start: nat, i: nat)
    requires start <= i < |lines|
    ensures PropsOf(lines[start..i + 1]) == Store(PropsOf(lines[start..i]), lines[i])
  {
    assert lines[start..i + 1][..i - start] == lines[start..i];
  }

  /** The entry line `j` of a body contributes, if any. */
  function EntryAt(body: seq<string>, j: nat): (r: Option<(string, string)>)
    requires j < |body|
  {
    Entry(TrimSpace(body[j]))
  }

  /** Last occurrence wins: when line `j` sets `key` to `value` and no later line sets
      `key`, the block maps `key` to `value`. */
  lemma {:induction false} LastEntryWins(body: seq<string>, j: nat, key: string, value: string)
    requires j < |body| && EntryAt(body, j) == Some((key, value))
    requires forall l :: j < l < |body| ==> EntryAt(body, l).None? || EntryAt(body, l).value.0 != key
    ensures key in PropsOf(body) && PropsOf(body)[key] == value
    decreases |body|
  {
    var last := |body| - 1;
    var front := body[..last];
    assert PropsOf(body) == Store(PropsOf(front), body[last]);
    if j < last {
      assert forall l :: j < l < |front| ==> EntryAt(front, l) == EntryAt(body, l);
      assert EntryAt(front, j) == EntryAt(body, j);
      LastEntryWins(front, j, key, value);
      assert EntryAt(body, last).None? || EntryAt(body, last).value.0 != key;
    }
  }

  /** A key that no line of a body sets is not among its properties. */
  lemma {:induction false} UnsetKeyAbsent(body: seq<string>, key: string)
    requires forall l :: 0 <= l < |body| ==> EntryAt(body, l).None? || EntryAt(body, l).value.0 != key
    ensures key !in PropsOf(body)
    decreases |body|
  {
    if body != [] {
      var last := |body| - 1;
      var front := body[..last];
      assert PropsOf(body) == Store(PropsOf(front), body[last]);
      assert forall l :: 0 <= l < |front| ==> EntryAt(front, l) == EntryAt(body, l);
      UnsetKeyAbsent(front, key);
      assert EntryAt(body, last).None? || EntryAt(body, last).value.0 != key;
    }
  }

  /** Every property of a block was set by one of its lines. */
  lemma {:induction false} PropsFromLines(body: seq<string>, key: string)
    requires key in PropsOf(body)
    ensures exists l :: 0 <= l < |body| && EntryAt(body, l) == Some((key, PropsOf(body)[key]))
    decreases |body|
  {
    var last := |body| - 1;
    var front := body[..last];
    assert PropsOf(body) == Store(PropsOf(front), body[last]);
    if EntryAt(body, last).Some? && EntryAt(body, last).value.0 == key {
      assert EntryAt(body, last) == Some((key, PropsOf(body)[key]));
    } else {
      assert key in PropsOf(front) && PropsOf(front)[key] == PropsOf(body)[key];
      PropsFromLines(front, key);
      var l :| 0 <= l < |front| && EntryAt(front, l) == Some((key, PropsOf(front)[key]));
      assert EntryAt(body, l) == EntryAt(front, l);
    }
  }

  /** A block that reaches its terminator reads nothing after it: whatever follows the
      terminator line, the block read is the same. */
  lemma {:induction false} ReadsNothingAfter(lines: seq<string>, start: nat, endOn: Terminator, rest: seq<string>)
    requires start <= |lines|
    requires BodyEnd(lines, start, endOn) < |lines|
    ensures var b := ReadBlock(lines, start, endOn);
      Ends(endOn, TrimSpace(lines[b.next - 1]))
      && ReadBlock(lines[..b.next] + rest, start, endOn) == b
  {
    var j := BodyEnd(lines, start, endOn);
    var cut := lines[..j + 1] + rest;
    assert forall i :: start <= i <= j ==> cut[i] == lines[i];
    BodyEndSame(lines, cut, start, endOn);
    assert cut[start..j] == lines[start..j];
  }

  /** Two inputs that agree from `start` up to and including the first terminator have
      the same body end. */
  lemma {:induction false} BodyEndSame(lines: seq<string>, other: seq<string>, start: nat, endOn: Terminator)
    requires start <= |lines| && start <= |other|
    requires BodyEnd(lines, start, endOn) < |lines| && BodyEnd(lines, start, endOn) < |other|
    requires forall i :: start <= i <= BodyEnd(lines, start, endOn) ==> other[i] == lines[i]
    ensures BodyEnd(other, start, endOn) == BodyEnd(lines, start, endOn)
    decreases |lines| - start
  {
    if !Ends(endOn, TrimSpace(lines[start])) {
      BodyEndSame(lines, other, start + 1, endOn);
    }
  }

  /** A block that runs out of input keeps what it read: every line from the cursor on
      is part of its body, and the cursor ends at the end of the input. */
  lemma UnterminatedBlock(lines: seq<string>, start: nat, endOn: Terminator)
    requires start <= |lines|
    requires forall i :: start <= i < |lines| ==> !Ends(endOn, TrimSpace(lines[i]))
    ensures ReadBlock(lines, start, endOn) == Block(PropsOf(lines[start..]), |lines|)
  {
    assert lines[start..|lines|] == lines[start..];
  }

  /** The room terminator matches only the exact line "end room"; the room-object
      terminator matches every line starting with "end", so also "end room" and "endX". */
  lemma TerminatorAsymmetry()
    ensures Ends(EndRoom, "end room") && !Ends(EndRoom, "end roomobject") && !Ends(EndRoom, "end")
    ensures Ends(EndAny, "end roomobject") && Ends(EndAny, "end room") && Ends(EndAny, "endX")
    ensures !Ends(EndAny, "en") && !Ends(EndAny, "x=end")
  {
    assert "x=end"[..3][0] != "end"[0];
  }
}
