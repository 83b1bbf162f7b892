/** `ObjPreprocessCache` (main.go): the Wavefront OBJ preprocessing cache. The cache
    file of a model is its path with ".pr" appended; when that file exists it is used
    as it is, and otherwise it is created from the model file with every smoothing-group
    statement (`^s\s.`) left out, one kept line and one newline per write. */
module Cache {
  import opened Text

  /** What `\s` matches in Go's regular expressions: space, tab, newline, form feed and
      carriage return (not the vertical tab, and none of the Unicode spaces). */
  const PatternSpaces: set<char> := {' ', '\t', '\n', '\U{C}', '\r'}

  /** `^s\s.`: an 's', a white-space character, and then one more character that is
      not a newline. */
  predicate IsSmoothing(line: string) {
    |line| >= 3 && line[0] == 's' && line[1] in PatternSpaces && line[2] != '\n'
  }

  /** The lines the filter keeps, in their order. */
  function Kept(lines: seq<string>): (r: seq<string>)
    decreases |lines|
  {
    if lines == [] then []
    else (if IsSmoothing(lines[0]) then [] else [lines[0]]) + Kept(lines[1..])
  }

  /** The filter works line by line: filtering two runs of lines filters each run. */
  lemma {:induction false} KeptAppend(a: seq<string>, b: seq<string>)
    ensures Kept(a + b) == Kept(a) + Kept(b)
    decreases |a|
  {
    if a == [] {
      assert a + b == b;
    } else {
      assert (a + b)[0] == a[0];
      assert (a + b)[1..] == a[1..] + b;
      KeptAppend(a[1..], b);
    }
  }

  /** A line is kept exactly when it is a line of the input and not a smoothing-group
      statement. */
  lemma {:induction false} KeptMembers(lines: seq<string>, line: string)
    ensures line in Kept(lines) <==> line in lines && !IsSmoothing(line)
    decreases |lines|
  {
    if lines != [] {
      KeptMembers(lines[1..], line);
      assert lines == [lines[0]] + lines[1..];
    }
  }

  /** The filter never keeps more lines than it is given, and filtering its output
      again changes nothing. */
  lemma {:induction false} KeptIdempotent(lines: seq<string>)
    ensures |Kept(lines)| <= |lines|
    ensures Kept(Kept(lines)) == Kept(lines)
    decreases |lines|
  {
    if lines != [] {
      KeptIdempotent(lines[1..]);
      if !IsSmoothing(lines[0]) {
        assert Kept(lines) == [lines[0]] + Kept(lines[1..]);
        KeptAppend([lines[0]], Kept(lines[1..]));
        assert [lines[0]][1..] == [];
        assert Kept([lines[0]]) == [lines[0]];
      } else {
        assert Kept(lines) == [] + Kept(lines[1..]);
        assert Kept(lines) == Kept(lines[1..]);
      }
    }
  }

  /** The text a cache file is created with from the model text `source`. */
  function Preprocessed(source: string): (r: string) {
    Unlines(Kept(ScanLines(source)))
  }

  /** Reading a cache file back line by line gives exactly the kept lines of its
      source, unchanged and in their order, provided no kept line ends in a carriage
      return the scanner left in place. */
  lemma PreprocessedRescan(source: string)
    requires forall l :: l in Kept(ScanLines(source)) ==> PlainLine(l)
    ensures ScanLines(Preprocessed(source)) == Kept(ScanLines(source))
  {
    var kept := Kept(ScanLines(source));
    assert forall i :: 0 <= i < |kept| ==> PlainLine(kept[i]);
    ScanUnlines(kept);
  }

  /** A source line "a" followed by two carriage returns is written back as "a" and one
      carriage return, which reads back as "a": such a line does not survive the round trip. */
  lemma CarriageReturnNotPreserved()
    ensures ScanLines("a\r\r\n") == ["a\r"]
    ensures Preprocessed("a\r\r\n") == "a\r\n"
    ensures ScanLines(Preprocessed("a\r\r\n")) == ["a"]
  {
    assert "a\r\r\n" == "a\r\r" + "\n" + "";
    ScanLinesCons("a\r\r", "");
    assert DropCR("a\r\r") == "a\r";
    assert Kept(["a\r"]) == ["a\r"];
    assert Unlines(["a\r"]) == "a\r\n";
    assert "a\r\n" == "a\r" + "\n" + "";
    ScanLinesCons("a\r", "");
    assert DropCR("a\r") == "a";
  }

  /** A source of two smoothing-group statements around a vertex keeps only the vertex. */
  lemma SmoothingExample()
    ensures Kept(["s 1", "v 0 0 0", "s off"]) == ["v 0 0 0"]
    ensures Preprocessed(Unlines(["s 1", "v 0 0 0", "s off"])) == Unlines(["v 0 0 0"])
  {
    var lines := ["s 1", "v 0 0 0", "s off"];
    assert IsSmoothing(lines[0]) && !IsSmoothing(lines[1]) && IsSmoothing(lines[2]);
    assert lines[1..][1..][1..] == [];
    assert Kept(lines) == ["v 0 0 0"];
    assert PlainLine(lines[0]) && PlainLine(lines[1]) && PlainLine(lines[2]);
    ScanUnlines(lines);
  }

  /** Lines the pattern does not take for smoothing-group statements: the marker must
      be a lower-case 's' at the very start, followed by white space and one more
      character. */
  lemma NotSmoothingExamples()
    ensures !IsSmoothing("s 1"[..2]) && !IsSmoothing("s") && !IsSmoothing("S 1")
    ensures !IsSmoothing("s\U{A0}1") && !IsSmoothing("s \n") && IsSmoothing("s\n1")
    ensures !IsSmoothing(" s 1") && !IsSmoothing("sa 1") && !IsSmoothing("s\U{B}1")
    ensures IsSmoothing("s\t1") && IsSmoothing("s  ")
  {
  }

  /** The path of the cache file of `objPath`. */
  function CachePath(objPath: string): (p: string)
    ensures |p| == |objPath| + 3 && p[..|objPath|] == objPath && p[|objPath|..] == ".pr"
  {
    objPath + ".pr"
  }

  /** The text of the file at `path`; opening a missing file is not checked, so it
      reads as empty. */
  function ReadText(files: map<string, string>, path: string): (r: string) {
    if path in files then files[path] else ""
  }

  /** The files after one `ObjPreprocessCache(objPath)`. */
  function CacheStep(files: map<string, string>, objPath: string): (r: map<string, string>) {
    var p := CachePath(objPath);
    if p in files then files else files[p := Preprocessed(ReadText(files, objPath))]
  }

  /** How many writes that call makes: one per kept line, none on a cache hit. */
  function WritesFor(files: map<string, string>, objPath: string): (r: nat) {
    if CachePath(objPath) in files then 0 else |Kept(ScanLines(ReadText(files, objPath)))|
  }

  /** After a call the cache file exists, and it holds the filtered source when it did
      not exist before; a cache file that existed is left as it was, whatever the
      source holds now. No other file changes. */
  lemma CacheStepEffect(files: map<string, string>, objPath: string)
    ensures CachePath(objPath) in CacheStep(files, objPath)
    ensures CachePath(objPath) in files ==> CacheStep(files, objPath) == files
    ensures CachePath(objPath) !in files ==>
      CacheStep(files, objPath)[CachePath(objPath)] == Preprocessed(ReadText(files, objPath))
    ensures forall q :: q != CachePath(objPath) ==>
      (q in CacheStep(files, objPath) <==> q in files)
      && (q in files ==> CacheStep(files, objPath)[q] == files[q])
  {
  }

  /** A second call for the same model changes nothing and writes nothing. */
  lemma CacheStepIdempotent(files: map<string, string>, objPath: string)
    ensures CacheStep(CacheStep(files, objPath), objPath) == CacheStep(files, objPath)
    ensures WritesFor(CacheStep(files, objPath), objPath) == 0
  {
  }

  /** The model source is never a cache file of itself, so creating the cache does not
      change what is read from the source. */
  lemma SourceIsNotCache(objPath: string)
    ensures CachePath(objPath) != objPath
  {
    assert |CachePath(objPath)| != |objPath|;
  }

  /** The filesystem the cache reads and writes: file contents by path, and the number
      of `WriteString` calls made on any file. */
  class FileSystem {
    var files: map<string, string>
    var writes: nat

    constructor (initial: map<string, string>)
      ensures files == initial && writes == 0
    {
      files := initial;
      writes := 0;
    }

    /** `ObjPreprocessCache`: returns the cache path; when no file is there, creates it
        empty and writes each kept source line with a newline, one line per write. */
    method ObjPreprocessCache(objPath: string) returns (processedPath: string)
      modifies this
      ensures processedPath == CachePath(objPath)
      ensures files == CacheStep(old(files), objPath)
      ensures writes == old(writes) + WritesFor(old(files), objPath)
    {
      processedPath := objPath + ".pr";
      if processedPath in files {
        return;
      }
      var source := ReadText(files, objPath);
      files := files[processedPath := ""];
      var lines := ScanLines(source);
      var i := 0;
      while i < |lines|
        invariant i <= |lines|
        invariant files == old(files)[processedPath := Unlines(Kept(lines[..i]))]
        invariant writes == old(writes) + |Kept(lines[..i])|
      {
        var line := lines[i];
        if !IsSmoothing(line) {
          files := files[processedPath := files[processedPath] + line + "\n"];
          writes := writes + 1;
        }
        WriteStep(lines, i);
        i := i + 1;
      }
      assert lines[..i] == lines;
    }
  }

  /** One turn of the copying loop: the kept lines of one more source line, and what
      writing them adds to the cache file. */
  lemma WriteStep(lines: seq<string>, i: nat)
    requires i < |lines|
    ensures IsSmoothing(lines[i]) ==> Kept(lines[..i + 1]) == Kept(lines[..i])
    ensures |Kept(lines[..i + 1])| == |Kept(lines[..i])| + (if IsSmoothing(lines[i]) then 0 else 1)
    ensures !IsSmoothing(lines[i]) ==>
      Kept(lines[..i + 1]) == Kept(lines[..i]) + [lines[i]]
      && Unlines(Kept(lines[..i + 1])) == Unlines(Kept(lines[..i])) + lines[i] + "\n"
  {
    assert lines[..i + 1] == lines[..i] + [lines[i]];
    KeptAppend(lines[..i], [lines[i]]);
    if !IsSmoothing(lines[i]) {
      assert Kept([lines[i]]) == [lines[i]];
      UnlinesAppend(Kept(lines[..i]), [lines[i]]);
      assert Unlines([lines[i]]) == lines[i] + "\n";
    } else {
      assert Kept([lines[i]]) == [];
    }
  }
}
