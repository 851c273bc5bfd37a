/** The parsed form of a unified diff (`ParsedDiff`, `ParsedDiffFile`,
    `DiffHunk`, `DiffLine`) and the counts and projections the reviewer
    computes over it. */
module DiffModel {

  /** One line of a hunk body. An added line carries only its new-file
      number, a removed line only its old-file number, a context line both. */
  datatype DiffLine =
    | Add(content: string, newLine: nat)
    | Remove(content: string, oldLine: nat)
    | Context(content: string, oldLine: nat, newLine: nat)

  datatype DiffHunk = DiffHunk(
    oldStart: nat,
    oldLines: nat,
    newStart: nat,
    newLines: nat,
    lines: seq<DiffLine>)

  datatype DiffFile = DiffFile(
    oldPath: string,
    newPath: string,
    isNew: bool,
    isDeleted: bool,
    isBinary: bool,
    hunks: seq<DiffHunk>,
    changedLines: set<nat>)

  datatype ParsedDiff = ParsedDiff(files: seq<DiffFile>, linesAdded: nat, linesRemoved: nat)

  function CountAdds(lines: seq<DiffLine>): nat {
    if lines == [] then 0 else (if lines[0].Add? then 1 else 0) + CountAdds(lines[1..])
  }

  function CountRemoves(lines: seq<DiffLine>): nat {
    if lines == [] then 0 else (if lines[0].Remove? then 1 else 0) + CountRemoves(lines[1..])
  }

  /** Added lines of a file: the sum over its hunks. */
  function HunksAdds(hunks: seq<DiffHunk>): nat {
    if hunks == [] then 0 else CountAdds(hunks[0].lines) + HunksAdds(hunks[1..])
  }

  function HunksRemoves(hunks: seq<DiffHunk>): nat {
    if hunks == [] then 0 else CountRemoves(hunks[0].lines) + HunksRemoves(hunks[1..])
  }

  /** Added lines over all files of a diff. */
  function FilesAdds(files: seq<DiffFile>): nat {
    if files == [] then 0 else HunksAdds(files[0].hunks) + FilesAdds(files[1..])
  }

  function FilesRemoves(files: seq<DiffFile>): nat {
    if files == [] then 0 else HunksRemoves(files[0].hunks) + FilesRemoves(files[1..])
  }

  /** New-file numbers of the added lines. */
  function AddNumbers(lines: seq<DiffLine>): set<nat> {
    if lines == [] then {}
    else (if lines[0].Add? then {lines[0].newLine} else {}) + AddNumbers(lines[1..])
  }

  function HunksAddNumbers(hunks: seq<DiffHunk>): set<nat> {
    if hunks == [] then {} else AddNumbers(hunks[0].lines) + HunksAddNumbers(hunks[1..])
  }

  /** All lines of all hunks of a file, in order. */
  function HunksLines(hunks: seq<DiffHunk>): seq<DiffLine> {
    if hunks == [] then [] else hunks[0].lines + HunksLines(hunks[1..])
  }

  function FileLines(f: DiffFile): seq<DiffLine> {
    HunksLines(f.hunks)
  }

  /** Contents of the added lines, in order. */
  function AddedContents(lines: seq<DiffLine>): seq<string> {
    if lines == [] then []
    else (if lines[0].Add? then [lines[0].content] else []) + AddedContents(lines[1..])
  }

  /** Contents of the added and removed lines, in order. */
  function ChangedContents(lines: seq<DiffLine>): seq<string> {
    if lines == [] then []
    else (if lines[0].Context? then [] else [lines[0].content]) + ChangedContents(lines[1..])
  }

  /** Added and removed lines (every line that is not context). */
  function CountChanged(lines: seq<DiffLine>): nat {
    if lines == [] then 0 else (if lines[0].Context? then 0 else 1) + CountChanged(lines[1..])
  }

  function NewPaths(files: seq<DiffFile>): (r: seq<string>)
    ensures |r| == |files|
    ensures forall i :: 0 <= i < |files| ==> r[i] == files[i].newPath
  {
    if files == [] then [] else [files[0].newPath] + NewPaths(files[1..])
  }

  lemma {:induction false} CountAppend(a: seq<DiffLine>, b: seq<DiffLine>)
    ensures CountAdds(a + b) == CountAdds(a) + CountAdds(b)
    ensures CountRemoves(a + b) == CountRemoves(a) + CountRemoves(b)
    ensures CountChanged(a + b) == CountChanged(a) + CountChanged(b)
  {
    if a == [] {
      assert a + b == b;
    } else {
      var ab := a + b;
      assert ab[0] == a[0] && ab[1..] == a[1..] + b;
      CountAppend(a[1..], b);
    }
  }

  lemma {:induction false} AddNumbersAppend(a: seq<DiffLine>, b: seq<DiffLine>)
    ensures AddNumbers(a + b) == AddNumbers(a) + AddNumbers(b)
  {
    if a == [] {
      assert a + b == b;
    } else {
      var ab := a + b;
      assert ab[0] == a[0] && ab[1..] == a[1..] + b;
      AddNumbersAppend(a[1..], b);
    }
  }

  lemma {:induction false} AddedContentsAppend(a: seq<DiffLine>, b: seq<DiffLine>)
    ensures AddedContents(a + b) == AddedContents(a) + AddedContents(b)
  {
    if a == [] {
      assert a + b == b;
    } else {
      var ab := a + b;
      assert ab[0] == a[0] && ab[1..] == a[1..] + b;
      AddedContentsAppend(a[1..], b);
      var h := if a[0].Add? then [a[0].content] else [];
      assert AddedContents(ab) == h + (AddedContents(a[1..]) + AddedContents(b));
      assert h + (AddedContents(a[1..]) + AddedContents(b)) == (h + AddedContents(a[1..])) + AddedContents(b);
    }
  }

  lemma {:induction false} ChangedContentsAppend(a: seq<DiffLine>, b: seq<DiffLine>)
    ensures ChangedContents(a + b) == ChangedContents(a) + ChangedContents(b)
  {
    if a == [] {
      assert a + b == b;
    } else {
      var ab := a + b;
      assert ab[0] == a[0] && ab[1..] == a[1..] + b;
      ChangedContentsAppend(a[1..], b);
      var h := if a[0].Context? then [] else [a[0].content];
      assert ChangedContents(ab) == h + (ChangedContents(a[1..]) + ChangedContents(b));
      assert h + (ChangedContents(a[1..]) + ChangedContents(b)) == (h + ChangedContents(a[1..])) + ChangedContents(b);
    }
  }

  lemma {:induction false} HunksAppend(a: seq<DiffHunk>, b: seq<DiffHunk>)
    ensures HunksAdds(a + b) == HunksAdds(a) + HunksAdds(b)
    ensures HunksRemoves(a + b) == HunksRemoves(a) + HunksRemoves(b)
    ensures HunksAddNumbers(a + b) == HunksAddNumbers(a) + HunksAddNumbers(b)
  {
    if a == [] {
      assert a + b == b;
    } else {
      var ab := a + b;
      assert ab[0] == a[0] && ab[1..] == a[1..] + b;
      HunksAppend(a[1..], b);
    }
  }

  lemma {:induction false} HunksLinesAppend(a: seq<DiffHunk>, b: seq<DiffHunk>)
    ensures HunksLines(a + b) == HunksLines(a) + HunksLines(b)
  {
    if a == [] {
      assert a + b == b;
    } else {
      var ab := a + b;
      assert ab[0] == a[0] && ab[1..] == a[1..] + b;
      HunksLinesAppend(a[1..], b);
    }
  }

  lemma {:induction false} FilesAppend(a: seq<DiffFile>, b: seq<DiffFile>)
    ensures FilesAdds(a + b) == FilesAdds(a) + FilesAdds(b)
    ensures FilesRemoves(a + b) == FilesRemoves(a) + FilesRemoves(b)
  {
    if a == [] {
      assert a + b == b;
    } else {
      var ab := a + b;
      assert ab[0] == a[0] && ab[1..] == a[1..] + b;
      FilesAppend(a[1..], b);
    }
  }

  /** Counting per hunk and counting over the flattened lines agree. */
  lemma {:induction false} HunksCountsFlatten(hunks: seq<DiffHunk>)
    ensures HunksAdds(hunks) == CountAdds(HunksLines(hunks))
    ensures HunksRemoves(hunks) == CountRemoves(HunksLines(hunks))
    ensures HunksAddNumbers(hunks) == AddNumbers(HunksLines(hunks))
  {
    if hunks != [] {
      HunksCountsFlatten(hunks[1..]);
      CountAppend(hunks[0].lines, HunksLines(hunks[1..]));
      AddNumbersAppend(hunks[0].lines, HunksLines(hunks[1..]));
    }
  }

  /** A line number is an added line's number exactly when some added line carries it. */
  lemma {:induction false} AddNumbersMembers(lines: seq<DiffLine>, n: nat)
    ensures n in AddNumbers(lines) <==> exists j :: 0 <= j < |lines| && lines[j].Add? && lines[j].newLine == n
  {
    if lines != [] {
      AddNumbersMembers(lines[1..], n);
      if n in AddNumbers(lines[1..]) {
        var j :| 0 <= j < |lines[1..]| && lines[1..][j].Add? && lines[1..][j].newLine == n;
        assert lines[j + 1] == lines[1..][j];
      }
      if exists j :: 0 <= j < |lines| && lines[j].Add? && lines[j].newLine == n {
        var j :| 0 <= j < |lines| && lines[j].Add? && lines[j].newLine == n;
        if j > 0 {
          assert lines[1..][j - 1] == lines[j];
        }
      }
    }
  }
}
