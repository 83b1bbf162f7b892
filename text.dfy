/** The behaviour of the Go standard-library text routines that the scene reader and
    the OBJ filter are built on: `strings.TrimSpace`, `strings.Split` with a
    one-character separator, and the line tokenisation of a `bufio.Scanner` using
    `bufio.ScanLines`. Strings are sequences of characters. */
module Text {

  /** The characters `unicode.IsSpace` accepts, which `strings.TrimSpace` strips. */
  const Spaces: set<char> := {
    ' ', '\t', '\n', '\U{B}', '\U{C}', '\r', '\U{85}', '\U{A0}', '\U{1680}',
    '\U{2000}', '\U{2001}', '\U{2002}', '\U{2003}', '\U{2004}', '\U{2005}',
    '\U{2006}', '\U{2007}', '\U{2008}', '\U{2009}', '\U{200A}',
    '\U{2028}', '\U{2029}', '\U{202F}', '\U{205F}', '\U{3000}'
  }

  predicate IsSpace(c: char) {
    c in Spaces
  }

  /** Drops the leading white space of `s`. */
  function TrimLeft(s: string): (r: string) {
    if |s| > 0 && IsSpace(s[0]) then TrimLeft(s[1..]) else s
  }

  /** Drops the trailing white space of `s`. */
  function TrimRight(s: string): (r: string) {
    if |s| > 0 && IsSpace(s[|s| - 1]) then TrimRight(s[..|s| - 1]) else s
  }

  /** `strings.TrimSpace`: `s` without its leading and trailing white space. */
  function TrimSpace(s: string): (r: string)
    ensures |r| <= |s|
    ensures r == [] || (!IsSpace(r[0]) && !IsSpace(r[|r| - 1]))
  {
    TrimLeftShape(s);
    TrimRightShape(TrimLeft(s));
    TrimRight(TrimLeft(s))
  }

  lemma {:induction false} TrimLeftShape(s: string)
    ensures var r := TrimLeft(s);
      |r| <= |s| && r == s[|s| - |r|..] && (r == [] || !IsSpace(r[0]))
      && forall i :: 0 <= i < |s| - |r| ==> IsSpace(s[i])
  {
    if |s| > 0 && IsSpace(s[0]) {
      TrimLeftShape(s[1..]);
    }
  }

  lemma {:induction false} TrimRightShape(s: string)
    ensures var r := TrimRight(s);
      |r| <= |s| && r == s[..|r|] && (r == [] || !IsSpace(r[|r| - 1]))
      && forall i :: |r| <= i < |s| ==> IsSpace(s[i])
  {
    if |s| > 0 && IsSpace(s[|s| - 1]) {
      TrimRightShape(s[..|s| - 1]);
    }
  }

  /** What `TrimSpace` removes is white space only, from both ends, and what it keeps
      is a contiguous part of `s` that neither starts nor ends with white space. */
  lemma TrimSpaceShape(s: string)
    ensures var r := TrimSpace(s); var i := |s| - |TrimLeft(s)|;
      (r == [] || (!IsSpace(r[0]) && !IsSpace(r[|r| - 1])))
      && 0 <= i && i + |r| <= |s| && r == s[i..i + |r|]
      && (forall k :: 0 <= k < i ==> IsSpace(s[k]))
      && (forall k :: i + |r| <= k < |s| ==> IsSpace(s[k]))
  {
    var l := TrimLeft(s);
    TrimLeftShape(s);
    TrimRightShape(l);
    var r := TrimRight(l);
    assert r == s[|s| - |l|..|s| - |l| + |r|];
  }

  /** A string that neither starts nor ends with white space is its own trim. */
  lemma TrimSpaceKeeps(s: string)
    requires s == [] || (!IsSpace(s[0]) && !IsSpace(s[|s| - 1]))
    ensures TrimSpace(s) == s
  {
    assert TrimLeft(s) == s;
    assert TrimRight(s) == s;
  }

  /** Trimming twice is trimming once. */
  lemma TrimSpaceIdempotent(s: string)
    ensures TrimSpace(TrimSpace(s)) == TrimSpace(s)
  {
    TrimSpaceShape(s);
    TrimSpaceKeeps(TrimSpace(s));
  }

  /** The index of the first `c` in `s`, or `|s|` when there is none. */
  function Find(s: string, c: char): (k: nat)
    ensures k <= |s|
    ensures k < |s| ==> s[k] == c
    ensures forall j :: 0 <= j < k ==> s[j] != c
  {
    if |s| == 0 || s[0] == c then 0 else 1 + Find(s[1..], c)
  }

  /** The number of occurrences of `c` in `s`. */
  function Count(s: string, c: char): (r: nat) {
    if |s| == 0 then 0 else (if s[0] == c then 1 else 0) + Count(s[1..], c)
  }

  lemma {:induction false} CountAppend(a: string, b: string, c: char)
    ensures Count(a + b, c) == Count(a, c) + Count(b, c)
  {
    if |a| == 0 {
      assert a + b == b;
    } else {
      assert (a + b)[1..] == a[1..] + b;
      CountAppend(a[1..], b, c);
    }
  }

  lemma {:induction false} CountAbsent(s: string, c: char)
    requires c !in s
    ensures Count(s, c) == 0
  {
    if |s| > 0 {
      CountAbsent(s[1..], c);
    }
  }

  /** The pieces joined back together with `sep` between them. */
  function Join(parts: seq<string>, sep: char): (r: string) {
    if |parts| == 0 then ""
    else if |parts| == 1 then parts[0]
    else parts[0] + [sep] + Join(parts[1..], sep)
  }

  /** `strings.Split(s, string(sep))`: the pieces of `s` between the occurrences of
      `sep`; there is always at least one piece, and none holds `sep`. */
  function Split(s: string, sep: char): (parts: seq<string>)
    ensures |parts| >= 1
    decreases |s|
  {
    var k := Find(s, sep);
    if k == |s| then [s] else [s[..k]] + Split(s[k + 1..], sep)
  }

  /** No piece holds the separator. */
  lemma {:induction false} SplitPieces(s: string, sep: char)
    ensures forall i :: 0 <= i < |Split(s, sep)| ==> sep !in Split(s, sep)[i]
    decreases |s|
  {
    var k := Find(s, sep);
    if k < |s| {
      SplitPieces(s[k + 1..], sep);
      assert sep !in s[..k];
      assert forall i :: 1 <= i < |Split(s, sep)| ==> Split(s, sep)[i] == Split(s[k + 1..], sep)[i - 1];
    }
  }

  /** Splitting and joining again gives back the original string. */
  lemma {:induction false} SplitJoin(s: string, sep: char)
    ensures Join(Split(s, sep), sep) == s
    decreases |s|
  {
    var k := Find(s, sep);
    if k < |s| {
      var parts := Split(s, sep);
      var rest := Split(s[k + 1..], sep);
      assert parts == [s[..k]] + rest;
      assert parts[1..] == rest;
      assert Join(parts, sep) == s[..k] + [sep] + Join(rest, sep);
      SplitJoin(s[k + 1..], sep);
      assert s == s[..k] + [sep] + s[k + 1..];
    }
  }

  /** There is one more piece than there are separators. */
  lemma {:induction false} SplitCount(s: string, sep: char)
    ensures |Split(s, sep)| == Count(s, sep) + 1
    decreases |s|
  {
    var k := Find(s, sep);
    if k == |s| {
      CountAbsent(s, sep);
    } else {
      SplitCount(s[k + 1..], sep);
      assert s == s[..k] + ([sep] + s[k + 1..]);
      CountAppend(s[..k], [sep] + s[k + 1..], sep);
      CountAbsent(s[..k], sep);
      assert ([sep] + s[k + 1..])[1..] == s[k + 1..];
    }
  }

  /** A string with exactly one `sep` splits into what lies before it and what lies after it. */
  lemma SplitOnce(s: string, sep: char)
    requires Count(s, sep) == 1
    ensures Find(s, sep) < |s|
    ensures Split(s, sep) == [s[..Find(s, sep)], s[Find(s, sep) + 1..]]
  {
    var k := Find(s, sep);
    if k == |s| {
      CountAbsent(s, sep);
    }
    SplitCount(s, sep);
    assert Split(s, sep) == [s[..k]] + Split(s[k + 1..], sep);
  }

  /** A scanned line loses one carriage return at its end. */
  function DropCR(s: string): (r: string) {
    if |s| > 0 && s[|s| - 1] == '\r' then s[..|s| - 1] else s
  }

  /** The lines a `bufio.Scanner` with `bufio.ScanLines` yields from `text`: each line
      ends at a newline, which is not part of it, and loses one carriage return just
      before that newline; a last line without a newline is still yielded, and nothing
      after a final newline is. */
  function ScanLines(text: string): (lines: seq<string>)
    ensures |lines| <= |text|
    decreases |text|
  {
    if |text| == 0 then []
    else
      var k := Find(text, '\n');
      if k == |text| then [DropCR(text)]
      else [DropCR(text[..k])] + ScanLines(text[k + 1..])
  }

  /** The scanner yields the text before the first newline, less one carriage return,
      and then goes on after that newline. */
  lemma ScanLinesCons(line: string, rest: string)
    requires '\n' !in line
    ensures ScanLines(line + "\n" + rest) == [DropCR(line)] + ScanLines(rest)
  {
    var text := line + "\n" + rest;
    FindFirst(line, '\n', rest);
    assert text[..|line|] == line;
    assert text[|line| + 1..] == rest;
  }

  /** The first `c` in a text that holds none before a given one is that one. */
  lemma {:induction false} FindFirst(front: string, c: char, rest: string)
    requires c !in front
    ensures Find(front + [c] + rest, c) == |front|
    decreases |front|
  {
    if front != [] {
      assert (front + [c] + rest)[1..] == front[1..] + [c] + rest;
      FindFirst(front[1..], c, rest);
    }
  }

  /** No scanned line holds a newline. */
  lemma {:induction false} ScanLinesNoNewline(text: string)
    ensures forall i :: 0 <= i < |ScanLines(text)| ==> '\n' !in ScanLines(text)[i]
    decreases |text|
  {
    if |text| > 0 {
      var lines := ScanLines(text);
      var k := Find(text, '\n');
      if k == |text| {
        assert lines == [DropCR(text)];
        assert '\n' !in text;
      } else {
        var rest := ScanLines(text[k + 1..]);
        ScanLinesNoNewline(text[k + 1..]);
        assert lines == [DropCR(text[..k])] + rest;
        assert '\n' !in text[..k];
        forall i | 0 <= i < |lines|
          ensures '\n' !in lines[i]
        {
          if i > 0 {
            assert lines[i] == rest[i - 1];
          }
        }
      }
    }
  }

  /** Each line followed by one newline, as `fmt.Sprintln(line)` writes it. */
  function Unlines(lines: seq<string>): (text: string)
    ensures |text| >= |lines|
    ensures lines != [] ==> text[|text| - 1] == '\n'
    decreases |lines|
  {
    if lines == [] then "" else lines[0] + "\n" + Unlines(lines[1..])
  }

  /** Writing two runs of lines writes the first run and then the second. */
  lemma {:induction false} UnlinesAppend(a: seq<string>, b: seq<string>)
    ensures Unlines(a + b) == Unlines(a) + Unlines(b)
    decreases |a|
  {
    if a == [] {
      assert a + b == b;
    } else {
      assert (a + b)[0] == a[0];
      assert (a + b)[1..] == a[1..] + b;
      UnlinesAppend(a[1..], b);
    }
  }

  /** A line the scanner gives back unchanged: no newline inside, no carriage return at the end. */
  predicate PlainLine(line: string) {
    '\n' !in line && (|line| == 0 || line[|line| - 1] != '\r')
  }

  /** Writing lines out with `Unlines` and scanning the text again gives back the same lines. */
  lemma {:induction false} ScanUnlines(lines: seq<string>)
    requires forall i :: 0 <= i < |lines| ==> PlainLine(lines[i])
    ensures ScanLines(Unlines(lines)) == lines
    decreases |lines|
  {
    if lines != [] {
      assert PlainLine(lines[0]);
      ScanLinesCons(lines[0], Unlines(lines[1..]));
      ScanUnlines(lines[1..]);
    }
  }
}
