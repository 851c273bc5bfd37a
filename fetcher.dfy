/** The context fetcher (`fetchPlannedContext`): for each planned file it
    reads the file, cuts windows of context around the changed lines,
    merges overlapping or adjacent windows, renders them as numbered
    excerpts and caps each file's text. Reading a file is a lookup in a
    map from path to content; a path missing from the map is a read that
    failed. */
module Fetcher {
  import opened Wrappers
  import opened Text
  import opened Seqs
  import opened Numbers
  import opened DiffModel
  import opened Planner

  /** An inclusive range of 1-based line numbers. */
  datatype Range = Range(start: int, end: int)

  /** `toMaxChars`: the text itself when it fits, otherwise its first
      `maxChars` characters followed by a `\n...` marker. A negative cap
      slices from the end, as `String.prototype.slice` does. */
  function ToMaxChars(text: string, maxChars: int): string {
    if |text| <= maxChars then text
    else if maxChars >= 0 then text[..maxChars] + "\n..."
    else text[..Max(0, |text| + maxChars)] + "\n..."
  }

  /** A text within the cap is kept whole; a longer one keeps exactly its
      first `maxChars` characters and gains the four-character marker. */
  lemma ToMaxCharsShape(text: string, maxChars: int)
    ensures |text| <= maxChars ==> ToMaxChars(text, maxChars) == text
    ensures 0 <= maxChars < |text| ==> var r := ToMaxChars(text, maxChars);
      |r| == maxChars + 4 && StartsWith(text, r[..maxChars]) && EndsWith(r, "\n...")
  {
    if 0 <= maxChars < |text| {
      var r := ToMaxChars(text, maxChars);
      assert r[..maxChars] == text[..maxChars];
    }
  }

  function Start(r: Range): int { r.start }

  predicate NonEmpty(r: Range) { r.start <= r.end }

  predicate StartLeq(a: Range, b: Range) { a.start <= b.start }

  /** One pass of the merge loop: a range that starts more than one line
      after the last merged range ends opens a new range; otherwise it
      extends the last one. */
  function MergeStep(merged: seq<Range>, r: Range): seq<Range> {
    if merged == [] || r.start > merged[|merged| - 1].end + 1 then merged + [r]
    else merged[..|merged| - 1] + [Range(merged[|merged| - 1].start, Max(merged[|merged| - 1].end, r.end))]
  }

  /** The merge loop over ranges already sorted and filtered. */
  function MergeSorted(xs: seq<Range>): seq<Range> {
    if xs == [] then [] else MergeStep(MergeSorted(xs[..|xs| - 1]), xs[|xs| - 1])
  }

  /** `mergeRanges` as a value: stable sort by start, drop the empty
      ranges, then merge. */
  function Merged(ranges: seq<Range>): seq<Range> {
    MergeSorted(Filter(SortBy(ranges, Start), NonEmpty))
  }

  /** `mergeRanges`: the sorted, filtered ranges folded into `merged`,
      whose last element is extended in place. */
  method MergeRanges(ranges: seq<Range>) returns (merged: seq<Range>)
    ensures merged == Merged(ranges)
  {
    var sorted := Filter(SortBy(ranges, Start), NonEmpty);
    merged := [];
    for i := 0 to |sorted|
      invariant merged == MergeSorted(sorted[..i])
    {
      var r := sorted[i];
      if merged == [] || r.start > merged[|merged| - 1].end + 1 {
        merged := merged + [Range(r.start, r.end)];
      } else {
        var last := merged[|merged| - 1];
        merged := merged[|merged| - 1 := last.(end := Max(last.end, r.end))];
        assert merged == merged[..|merged| - 1] + [Range(last.start, Max(last.end, r.end))];
      }
      assert sorted[..i + 1][..i] == sorted[..i];
    }
    assert sorted[..|sorted|] == sorted;
  }

  /** Line `n` lies in one of the ranges. */
  predicate Covers(rs: seq<Range>, n: int) {
    exists r :: r in rs && r.start <= n <= r.end
  }

  /** Every range is non-empty, and each later range starts more than one
      line after every earlier one ends (no overlap, no adjacency). */
  predicate Separated(rs: seq<Range>) {
    (forall i :: 0 <= i < |rs| ==> rs[i].start <= rs[i].end) &&
    (forall i, j :: 0 <= i < j < |rs| ==> rs[i].end + 1 < rs[j].start)
  }

  lemma CoversAppend(a: seq<Range>, b: seq<Range>, n: int)
    ensures Covers(a + b, n) <==> Covers(a, n) || Covers(b, n)
  {
    if Covers(a + b, n) {
      var r :| r in a + b && r.start <= n <= r.end;
      assert r in a || r in b;
    }
    if Covers(a, n) {
      var r :| r in a && r.start <= n <= r.end;
      assert r in a + b;
    }
    if Covers(b, n) {
      var r :| r in b && r.start <= n <= r.end;
      assert r in a + b;
    }
  }

  lemma CoversOne(r: Range, n: int)
    ensures Covers([r], n) <==> r.start <= n <= r.end
  {
    if r.start <= n <= r.end {
      assert r in [r];
    }
  }

  /** The merge step on a separated prefix: appending a range that starts past the gap. */
  lemma StepAppend(m: seq<Range>, r: Range)
    requires Separated(m) && r.start <= r.end
    requires m == [] || r.start > m[|m| - 1].end + 1
    ensures Separated(m + [r])
  {
    var s := m + [r];
    forall i, j | 0 <= i < j < |s| ensures s[i].end + 1 < s[j].start {
      if j == |m| && i < |m| - 1 {
        assert m[i].end + 1 < m[|m| - 1].start;
      }
    }
  }

  /** The merge step that widens the last range. */
  lemma StepWiden(m: seq<Range>, r: Range)
    requires Separated(m) && m != [] && r.start <= r.end
    requires m[|m| - 1].start <= r.start <= m[|m| - 1].end + 1
    ensures Separated(MergeStep(m, r))
    ensures forall n :: Covers(MergeStep(m, r), n) <==> Covers(m, n) || r.start <= n <= r.end
  {
    var k := |m| - 1;
    var w := Range(m[k].start, Max(m[k].end, r.end));
    assert MergeStep(m, r) == m[..k] + [w];
    assert m == m[..k] + [m[k]];
    forall n ensures Covers(MergeStep(m, r), n) <==> Covers(m, n) || r.start <= n <= r.end {
      CoversAppend(m[..k], [w], n);
      CoversAppend(m[..k], [m[k]], n);
      CoversOne(w, n);
      CoversOne(m[k], n);
    }
  }

  /** The merge loop on sorted, non-empty ranges yields separated ranges
      covering exactly the lines the input covers; its last range starts
      no later than the last input range. */
  lemma {:induction false} MergeSortedCorrect(xs: seq<Range>)
    requires forall i :: 0 <= i < |xs| ==> xs[i].start <= xs[i].end
    requires PairwiseOrdered(xs, StartLeq)
    ensures Separated(MergeSorted(xs))
    ensures forall n :: Covers(MergeSorted(xs), n) <==> Covers(xs, n)
    ensures xs != [] ==>
      MergeSorted(xs) != [] && MergeSorted(xs)[|MergeSorted(xs)| - 1].start <= xs[|xs| - 1].start
  {
    if xs != [] {
      var init := xs[..|xs| - 1];
      var r := xs[|xs| - 1];
      var m := MergeSorted(init);
      assert PairwiseOrdered(init, StartLeq) by {
        forall i, j | 0 <= i < j < |init| ensures StartLeq(init[i], init[j]) {
          assert init[i] == xs[i] && init[j] == xs[j];
        }
      }
      MergeSortedCorrect(init);
      assert xs == init + [r];
      if init != [] {
        assert StartLeq(xs[|xs| - 2], r);
      }
      if m == [] || r.start > m[|m| - 1].end + 1 {
        StepAppend(m, r);
        forall n ensures Covers(MergeSorted(xs), n) <==> Covers(xs, n) {
          CoversAppend(m, [r], n);
          CoversAppend(init, [r], n);
        }
      } else {
        StepWiden(m, r);
        forall n ensures Covers(MergeSorted(xs), n) <==> Covers(xs, n) {
          CoversAppend(init, [r], n);
          CoversOne(r, n);
        }
      }
    }
  }

  /** `mergeRanges` drops the empty ranges and returns ranges that are
      sorted by start, pairwise neither overlapping nor adjacent, and
      cover exactly the lines the input ranges cover. */
  lemma MergedCorrect(ranges: seq<Range>)
    ensures Separated(Merged(ranges))
    ensures forall i, j :: 0 <= i < j < |Merged(ranges)| ==> Merged(ranges)[i].start < Merged(ranges)[j].start
    ensures forall n :: Covers(Merged(ranges), n) <==> Covers(ranges, n)
  {
    var s := SortBy(ranges, Start);
    var f := Filter(s, NonEmpty);
    SortByCorrect(ranges, Start);
    SortByMembers(ranges, Start);
    assert PairwiseOrdered(s, StartLeq) by {
      forall i, j | 0 <= i < j < |s| ensures StartLeq(s[i], s[j]) {
        assert Start(s[i]) <= Start(s[j]);
      }
    }
    FilterOrdered(s, NonEmpty, StartLeq);
    FilterMembers(s, NonEmpty);
    forall i | 0 <= i < |f| ensures f[i].start <= f[i].end {
      assert f[i] in f;
    }
    MergeSortedCorrect(f);
    forall n ensures Covers(f, n) <==> Covers(ranges, n) {
      if Covers(ranges, n) {
        var r :| r in ranges && r.start <= n <= r.end;
        assert r in f;
      }
    }
  }

  /** The context window of a changed line: `c` lines either side, within the file. */
  function Window(l: int, c: int, len: int): Range {
    Range(Max(1, l - c), Min(len, l + c))
  }

  /** The windows of the changed lines, in order (`changed.map(...)`). */
  function Windows(lines: seq<nat>, c: int, len: int): (r: seq<Range>)
    ensures |r| == |lines|
    ensures forall i :: 0 <= i < |lines| ==> r[i] == Window(lines[i], c, len)
  {
    if lines == [] then [] else Windows(lines[..|lines| - 1], c, len) + [Window(lines[|lines| - 1], c, len)]
  }

  /** The merged windows show exactly the lines of the file that lie
      within `c` lines of a changed line. */
  lemma WindowsCoverage(lines: seq<nat>, c: int, len: int, n: int)
    ensures Covers(Merged(Windows(lines, c, len)), n) <==>
      1 <= n <= len && exists i :: 0 <= i < |lines| && lines[i] - c <= n <= lines[i] + c
  {
    var w := Windows(lines, c, len);
    MergedCorrect(w);
    if Covers(w, n) {
      var r :| r in w && r.start <= n <= r.end;
      var i :| 0 <= i < |w| && w[i] == r;
      assert lines[i] - c <= n <= lines[i] + c;
    }
    if 1 <= n <= len && exists i :: 0 <= i < |lines| && lines[i] - c <= n <= lines[i] + c {
      var i :| 0 <= i < |lines| && lines[i] - c <= n <= lines[i] + c;
      assert w[i] in w;
    }
  }

  /** `lines[k] ?? ''`: a line outside the file renders as empty. */
  function LineAt(lines: seq<string>, k: int): string {
    if 0 <= k < |lines| then lines[k] else ""
  }

  /** One numbered line: the number right-aligned in five columns, two spaces, the text. */
  function NumberedLine(i: int, lines: seq<string>): string {
    PadStart(IntToString(i), 5, ' ') + "  " + LineAt(lines, i - 1)
  }

  /** The numbered lines `start..end`, one per line number. */
  function NumberedLines(start: int, end: int, lines: seq<string>): (r: seq<string>)
    decreases if end < start then 0 else end - start + 1
    ensures |r| == Max(0, end - start + 1)
    ensures forall k :: 0 <= k < |r| ==> r[k] == NumberedLine(start + k, lines)
  {
    if end < start then [] else NumberedLines(start, end - 1, lines) + [NumberedLine(end, lines)]
  }

  /** The two header lines of a section. */
  function SectionHeader(path: string, start: int, end: int): seq<string> {
    ["Path: " + path, "Lines " + IntToString(start) + "-" + IntToString(end)]
  }

  /** The text of `formatSection`: the headers and `end - start + 1` numbered lines, joined by newlines. */
  function Section(path: string, start: int, end: int, lines: seq<string>): string {
    Join(SectionHeader(path, start, end) + NumberedLines(start, end, lines), "\n")
  }

  /** `formatSection`: pushes the headers, then one numbered line per line number. */
  method FormatSection(path: string, start: int, end: int, lines: seq<string>) returns (text: string)
    ensures text == Section(path, start, end, lines)
  {
    var out := SectionHeader(path, start, end);
    var i := start;
    while i <= end
      invariant start <= i <= Max(start, end + 1)
      invariant out == SectionHeader(path, start, end) + NumberedLines(start, i - 1, lines)
      decreases end - i
    {
      var line := LineAt(lines, i - 1);
      out := out + [PadStart(IntToString(i), 5, ' ') + "  " + line];
      i := i + 1;
    }
    text := Join(out, "\n");
  }

  /** A section lists its two headers and then, for each line number from
      `start` to `end`, that number and the file's line, empty past the
      end of the file. */
  lemma SectionShape(path: string, start: int, end: int, lines: seq<string>, k: nat)
    requires start <= end && k <= end - start
    ensures var body := NumberedLines(start, end, lines);
      |body| == end - start + 1 &&
      EndsWith(body[k], LineAt(lines, start + k - 1)) &&
      StartsWith(body[k], PadStart(IntToString(start + k), 5, ' ') + "  ")
    ensures start + k > |lines| ==> NumberedLines(start, end, lines)[k] == PadStart(IntToString(start + k), 5, ' ') + "  "
  {
    var pre := PadStart(IntToString(start + k), 5, ' ') + "  ";
    var body := NumberedLines(start, end, lines);
    assert body[k] == pre + LineAt(lines, start + k - 1);
    assert (pre + LineAt(lines, start + k - 1))[..|pre|] == pre;
    if start + k > |lines| {
      assert pre + "" == pre;
    }
  }

  /** The sections of a file's merged ranges, in order. */
  function Sections(path: string, merged: seq<Range>, lines: seq<string>): seq<string> {
    if merged == [] then []
    else Sections(path, merged[..|merged| - 1], lines) + [Section(path, merged[|merged| - 1].start, merged[|merged| - 1].end, lines)]
  }

  /** The first member of `s` at or above `k`, found by counting up towards the known member `x`. */
  ghost function LeastFrom(s: set<nat>, k: nat, x: nat): (m: nat)
    requires x in s && k <= x
    requires forall j: nat :: j < k ==> j !in s
    ensures m in s && forall y :: y in s ==> m <= y
    decreases x - k
  {
    if k in s then k else LeastFrom(s, k + 1, x)
  }

  /** A non-empty set of line numbers has a least element. */
  lemma MinExists(s: set<nat>)
    requires s != {}
    ensures exists m :: m in s && forall y :: y in s ==> m <= y
  {
    var x :| x in s;
    var m := LeastFrom(s, 0, x);
  }

  function MinOf(s: set<nat>): (m: nat)
    requires s != {}
    ensures m in s && forall y :: y in s ==> m <= y
  {
    MinExists(s);
    var m :| m in s && forall y :: y in s ==> m <= y; m
  }

  /** The changed lines in ascending order (`Array.from(set).sort((a, b) => a - b)`). */
  function SortedLines(s: set<nat>): (r: seq<nat>)
    decreases |s|
    ensures forall n :: n in r <==> n in s
    ensures forall i, j :: 0 <= i < j < |r| ==> r[i] < r[j]
  {
    if s == {} then []
    else
      var m := MinOf(s);
      var rest := SortedLines(s - {m});
      assert forall i :: 0 <= i < |rest| ==> rest[i] in s - {m};
      [m] + rest
  }

  /** The clamped context width: `clamp(contextLines ?? 20, 0, 200)`. */
  function ContextLinesOf(opt: Option<int>): (c: int)
    ensures 0 <= c <= 200
    ensures opt.None? ==> c == 20
  {
    Clamp(opt.GetOr(20), 0, 200)
  }

  /** The clamped per-file cap: `clamp(maxCharsPerFile ?? 20000, 1000, 200000)`. */
  function MaxCharsOf(opt: Option<int>): (m: int)
    ensures 1000 <= m <= 200000
    ensures opt.None? ==> m == 20000
  {
    Clamp(opt.GetOr(20000), 1000, 200000)
  }

  /** The file has the given new path. */
  function NewPathEq(path: string): DiffFile -> bool {
    (f: DiffFile) => f.newPath == path
  }

  /** The block of a file that has no changed lines: its headers and its capped content. */
  function WholeFileBlock(path: string, content: string, lineCount: nat, maxChars: int): string {
    WholeFileHead(path) + (IntToString(Min(lineCount, 200)) + "\n" + ToMaxChars(content, maxChars))
  }

  function WholeFileHead(path: string): string {
    "Path: " + path + "\nLines 1-"
  }

  /** The block of one allocation, or nothing when its file is not in the
      diff or cannot be read. */
  function Block(d: ParsedDiff, a: Allocation, files: map<string, string>, c: int, maxChars: int): Option<string> {
    match FirstIndex(d.files, NewPathEq(a.file))
    case None => None
    case Some(k) =>
      if a.file !in files then None
      else
        var content := files[a.file];
        var allLines := Split(content, '\n');
        var changed := SortedLines(d.files[k].changedLines);
        if changed == [] then Some(WholeFileBlock(a.file, content, |allLines|, maxChars))
        else Some(ChangedFileBlock(a.file, allLines, changed, c, maxChars))
  }

  /** The block of a file with changed lines: its merged windows rendered as sections, joined and capped. */
  function ChangedFileBlock(path: string, allLines: seq<string>, changed: seq<nat>, c: int, maxChars: int): string {
    ToMaxChars(Join(Sections(path, Merged(Windows(changed, c, |allLines|)), allLines), "\n\n"), maxChars)
  }

  /** The blocks of the allocations that yield one, in allocation order. */
  function Blocks(allocs: seq<Allocation>, d: ParsedDiff, files: map<string, string>, c: int, maxChars: int): seq<string> {
    if allocs == [] then []
    else
      var last := Block(d, allocs[|allocs| - 1], files, c, maxChars);
      Blocks(allocs[..|allocs| - 1], d, files, c, maxChars) + (if last.Some? then [last.value] else [])
  }

  /** The per-file loop of `fetchPlannedContext`: one formatted section per merged range. */
  method FormatSections(path: string, merged: seq<Range>, allLines: seq<string>) returns (perFileBlocks: seq<string>)
    ensures perFileBlocks == Sections(path, merged, allLines)
  {
    perFileBlocks := [];
    for j := 0 to |merged|
      invariant perFileBlocks == Sections(path, merged[..j], allLines)
    {
      var section := FormatSection(path, merged[j].start, merged[j].end, allLines);
      assert merged[..j + 1][..j] == merged[..j];
      perFileBlocks := perFileBlocks + [section];
    }
    assert merged[..|merged|] == merged;
  }

  /** What `fetchPlannedContext` returns. */
  function Fetched(d: ParsedDiff, plan: ContextPlan, files: map<string, string>,
                   contextLines: Option<int>, maxCharsPerFile: Option<int>): string {
    Join(Blocks(plan.allocations, d, files, ContextLinesOf(contextLines), MaxCharsOf(maxCharsPerFile)), "\n\n---\n\n")
  }

  /** `fetchPlannedContext`: one block per allocation whose file is in the
      diff and readable, joined by separators. */
  method FetchPlannedContext(d: ParsedDiff, plan: ContextPlan, files: map<string, string>,
                             contextLines: Option<int>, maxCharsPerFile: Option<int>)
    returns (text: string)
    ensures text == Fetched(d, plan, files, contextLines, maxCharsPerFile)
  {
    var c := ContextLinesOf(contextLines);
    var maxChars := MaxCharsOf(maxCharsPerFile);
    var allocs := plan.allocations;
    var blocks: seq<string> := [];
    for i := 0 to |allocs|
      invariant blocks == Blocks(allocs[..i], d, files, c, maxChars)
    {
      var a := allocs[i];
      assert allocs[..i + 1][..i] == allocs[..i];
      var found := FirstIndex(d.files, NewPathEq(a.file));
      if found.Some? && a.file in files {
        var content := files[a.file];
        var allLines := Split(content, '\n');
        var changed := SortedLines(d.files[found.value].changedLines);
        if |changed| == 0 {
          blocks := blocks + [WholeFileBlock(a.file, content, |allLines|, maxChars)];
        } else {
          var merged := MergeRanges(Windows(changed, c, |allLines|));
          var perFileBlocks := FormatSections(a.file, merged, allLines);
          blocks := blocks + [ToMaxChars(Join(perFileBlocks, "\n\n"), maxChars)];
        }
      }
    }
    assert allocs[..|allocs|] == allocs;
    text := Join(blocks, "\n\n---\n\n");
  }

  /** An allocation yields a block exactly when some diff file has its
      path as new path and the file can be read. */
  lemma BlockPresence(d: ParsedDiff, a: Allocation, files: map<string, string>, c: int, maxChars: int)
    ensures Block(d, a, files, c, maxChars).Some? <==>
      (exists k :: 0 <= k < |d.files| && d.files[k].newPath == a.file) && a.file in files
  {
    if k :| 0 <= k < |d.files| && d.files[k].newPath == a.file {
      assert NewPathEq(a.file)(d.files[k]);
    }
  }

  /** Blocks keep allocation order: the blocks of two runs of allocations
      are the blocks of the first followed by those of the second. */
  lemma {:induction false} BlocksAppend(xs: seq<Allocation>, ys: seq<Allocation>, d: ParsedDiff,
                                        files: map<string, string>, c: int, maxChars: int)
    ensures Blocks(xs + ys, d, files, c, maxChars) == Blocks(xs, d, files, c, maxChars) + Blocks(ys, d, files, c, maxChars)
    decreases |ys|
  {
    if ys == [] {
      assert xs + ys == xs;
    } else {
      var init := ys[..|ys| - 1];
      assert (xs + ys)[..|xs + ys| - 1] == xs + init;
      assert (xs + ys)[|xs + ys| - 1] == ys[|ys| - 1];
      BlocksAppend(xs, init, d, files, c, maxChars);
    }
  }

  /** The first file with a given new path is found at its index. */
  lemma FoundAt(d: ParsedDiff, path: string, k: nat)
    requires k < |d.files| && d.files[k].newPath == path
    requires forall j :: 0 <= j < k ==> d.files[j].newPath != path
    ensures FirstIndex(d.files, NewPathEq(path)) == Some(k)
  {
    assert NewPathEq(path)(d.files[k]);
  }

  /** A block built from changed lines is at most the cap plus the four
      characters of the truncation marker. */
  lemma ChangedBlockBound(d: ParsedDiff, a: Allocation, files: map<string, string>, c: int, maxChars: int, k: nat)
    requires maxChars >= 0
    requires k < |d.files| && d.files[k].newPath == a.file && a.file in files
    requires forall j :: 0 <= j < k ==> d.files[j].newPath != a.file
    requires d.files[k].changedLines != {}
    ensures Block(d, a, files, c, maxChars).Some?
    ensures |Block(d, a, files, c, maxChars).value| <= maxChars + 4
  {
    FoundAt(d, a.file, k);
    var allLines := Split(files[a.file], '\n');
    var changed := SortedLines(d.files[k].changedLines);
    ToMaxCharsShape(Join(Sections(a.file, Merged(Windows(changed, c, |allLines|)), allLines), "\n\n"), maxChars);
    var l :| l in d.files[k].changedLines;
    assert l in changed;
  }

  /** A file of the diff without changed lines yields its whole content,
      capped, under a `Path:` and a `Lines 1-` header. */
  lemma UnchangedFileBlock(d: ParsedDiff, a: Allocation, files: map<string, string>, c: int, maxChars: int, k: nat)
    requires k < |d.files| && d.files[k].newPath == a.file && a.file in files
    requires forall j :: 0 <= j < k ==> d.files[j].newPath != a.file
    requires d.files[k].changedLines == {}
    ensures Block(d, a, files, c, maxChars) ==
      Some(WholeFileBlock(a.file, files[a.file], |Split(files[a.file], '\n')|, maxChars))
    ensures StartsWith(Block(d, a, files, c, maxChars).value, WholeFileHead(a.file))
  {
    FoundAt(d, a.file, k);
    var content := files[a.file];
    PrefixOfConcat(WholeFileHead(a.file), IntToString(Min(|Split(content, '\n')|, 200)) + "\n" + ToMaxChars(content, maxChars));
  }
}
