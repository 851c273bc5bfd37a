/** The legacy review post-filter of the MCP code-review service
    (`postProcessReviewFindings`): it fills in whether each finding sits on
    a changed line of the diff, then filters, sorts and caps the findings. */
module CodeReviewPost {
  import opened Wrappers
  import opened Text
  import opened Seqs
  import opened Numbers
  import opened DiffModel
  import opened PostShared

  /** Where a finding points. A field the source does not find as a
      string (the path) or as a number (the range ends) is `None`. */
  datatype CodeLocation = CodeLocation(filePath: Option<string>, start: Option<int>, end: Option<int>)

  /** The fields of a legacy review finding that the post-filter reads or writes. */
  datatype ReviewFinding = ReviewFinding(
    id: string,
    title: string,
    category: string,
    priority: int,
    confidenceScore: real,
    codeLocation: Option<CodeLocation>,
    isOnChangedLine: Option<bool>)

  /** The options the post-filter reads. */
  datatype ReviewOptions = ReviewOptions(
    confidenceThreshold: real,
    changedLinesOnly: bool,
    categories: seq<string>,
    maxFindings: int)

  /** Removes one leading `a/` or `b/` (`/^[ab]\//`). */
  function StripSide(p: string): string {
    if StartsWith(p, "a/") || StartsWith(p, "b/") then p[2..] else p
  }

  /** Removes one leading `./` or `/` (`/^\.?\//`). */
  function StripRoot(p: string): string {
    if StartsWith(p, "./") then p[2..] else if StartsWith(p, "/") then p[1..] else p
  }

  /** `normalizeFilePath`: the path with its diff side prefix and then its
      root prefix removed. */
  function NormalizeFilePath(p: string): string {
    StripRoot(StripSide(p))
  }

  /** The normalized path is a suffix of the input, at most four characters shorter. */
  lemma NormalizeIsSuffix(p: string)
    ensures EndsWith(p, NormalizeFilePath(p)) && |p| <= |NormalizeFilePath(p)| + 4
  {
  }

  /** A path that starts with none of the stripped prefixes. */
  predicate Canonical(q: string) {
    !StartsWith(q, "a/") && !StartsWith(q, "b/") && !StartsWith(q, "./") && !StartsWith(q, "/")
  }

  /** A canonical path is left alone, and every way the source spells a
      path to it (`a/q`, `b/q`, `./q`, `/q`, `a/./q`, `b//q`) normalizes to it. */
  lemma NormalizeSpellings(q: string)
    requires Canonical(q)
    ensures NormalizeFilePath(q) == q
    ensures NormalizeFilePath("a/" + q) == q && NormalizeFilePath("b/" + q) == q
    ensures NormalizeFilePath("./" + q) == q && NormalizeFilePath("/" + q) == q
    ensures NormalizeFilePath("a/./" + q) == q && NormalizeFilePath("b//" + q) == q
  {
    assert ("a/" + q)[2..] == q;
    assert ("b/" + q)[2..] == q;
    assert ("./" + q)[2..] == q;
    assert ("/" + q)[1..] == q;
    assert ("a/./" + q)[2..] == "./" + q;
    assert ("b//" + q)[2..] == "/" + q;
  }

  /** Only one side prefix is removed: after `a/` a path that starts with
      `b/` keeps it. */
  lemma SideOnce(q: string)
    requires StartsWith(q, "b/")
    ensures NormalizeFilePath("a/" + q) == q
  {
    assert ("a/" + q)[..2] == "a/" && ("a/" + q)[2..] == q;
    assert q[0] == 'b';
  }

  /** `a/b/x` becomes `b/x`, which is not itself normalized. */
  lemma NormalizeStripsOnce()
    ensures NormalizeFilePath("a/b/x") == "b/x"
    ensures NormalizeFilePath(NormalizeFilePath("a/b/x")) == "x"
  {
    var q := "b/x";
    assert q[..2] == "b/";
    SideOnce(q);
    assert "a/" + q == "a/b/x";
    assert "x"[..1] != "/";
    NormalizeSpellings("x");
    assert "b/" + "x" == q;
  }

  /** The file's normalized new path is `n`. */
  function NewPathIs(n: string): DiffFile -> bool {
    (f: DiffFile) => NormalizeFilePath(f.newPath) == n
  }

  /** The file's normalized old path is `n`. */
  function OldPathIs(n: string): DiffFile -> bool {
    (f: DiffFile) => NormalizeFilePath(f.oldPath) == n
  }

  /** The file's normalized new or old path is `n`. */
  predicate Names(f: DiffFile, n: string) {
    NormalizeFilePath(f.newPath) == n || NormalizeFilePath(f.oldPath) == n
  }

  /** The diff file a path refers to: the first whose new path matches,
      else the first whose old path matches. */
  function MatchingFile(files: seq<DiffFile>, path: string): Option<DiffFile> {
    var n := NormalizeFilePath(path);
    match FirstIndex(files, NewPathIs(n))
    case Some(i) => Some(files[i])
    case None =>
      match FirstIndex(files, OldPathIs(n))
      case Some(i) => Some(files[i])
      case None => None
  }

  /** A file matches exactly when one of the diff's files names the
      normalized path; a match on a new path wins over one on an old path. */
  lemma MatchingFileMeaning(files: seq<DiffFile>, path: string)
    ensures MatchingFile(files, path).Some? <==>
      exists j :: 0 <= j < |files| && Names(files[j], NormalizeFilePath(path))
    ensures MatchingFile(files, path).Some? ==> MatchingFile(files, path).value in files
    ensures (exists j :: 0 <= j < |files| && NormalizeFilePath(files[j].newPath) == NormalizeFilePath(path)) ==>
      MatchingFile(files, path).Some? && NormalizeFilePath(MatchingFile(files, path).value.newPath) == NormalizeFilePath(path)
  {
    var n := NormalizeFilePath(path);
    if j :| 0 <= j < |files| && Names(files[j], n) {
      assert NewPathIs(n)(files[j]) || OldPathIs(n)(files[j]);
    }
    if j :| 0 <= j < |files| && NormalizeFilePath(files[j].newPath) == n {
      assert NewPathIs(n)(files[j]);
    }
  }

  /** The path a finding names, `''` when it has none. */
  function PathOf(f: ReviewFinding): string {
    if f.codeLocation.Some? && f.codeLocation.value.filePath.Some? then f.codeLocation.value.filePath.value else ""
  }

  /** The finding names a path and both ends of a line range. */
  predicate HasTarget(f: ReviewFinding) {
    PathOf(f) != "" && f.codeLocation.Some? && f.codeLocation.value.start.Some? && f.codeLocation.value.end.Some?
  }

  /** The lines searched for a range: from the smaller end to the larger, each raised to at least 1. */
  function Low(s: int, e: int): nat { Max(1, Min(s, e)) }

  function High(s: int, e: int): nat { Max(1, Max(s, e)) }

  /** Some line in `[lo, hi]` is changed. */
  predicate AnyChanged(changed: set<nat>, lo: nat, hi: nat) {
    exists l: nat :: lo <= l <= hi && l in changed
  }

  /** `computeIsOnChangedLine` as a value. */
  function ChangedLineFlag(f: ReviewFinding, d: ParsedDiff): Option<bool> {
    if !HasTarget(f) then None
    else
      var loc := f.codeLocation.value;
      match MatchingFile(d.files, PathOf(f))
      case None => None
      case Some(file) => Some(AnyChanged(file.changedLines, Low(loc.start.value, loc.end.value), High(loc.start.value, loc.end.value)))
  }

  /** The flag is unknown exactly when the finding lacks a path or a line
      range or no diff file matches its path; otherwise it says whether a
      line of the (raised) range is changed in the matching file. */
  lemma ChangedLineFlagMeaning(f: ReviewFinding, d: ParsedDiff)
    ensures ChangedLineFlag(f, d).None? <==> !HasTarget(f) || MatchingFile(d.files, PathOf(f)).None?
    ensures ChangedLineFlag(f, d).Some? ==> var loc := f.codeLocation.value;
      (ChangedLineFlag(f, d).value <==> exists l: nat ::
        Low(loc.start.value, loc.end.value) <= l <= High(loc.start.value, loc.end.value) &&
        l in MatchingFile(d.files, PathOf(f)).value.changedLines)
  {
  }

  /** `computeIsOnChangedLine`: scans the lines of the range one by one. */
  method ComputeIsOnChangedLine(f: ReviewFinding, d: ParsedDiff) returns (r: Option<bool>)
    ensures r == ChangedLineFlag(f, d)
  {
    if !HasTarget(f) {
      return None;
    }
    var loc := f.codeLocation.value;
    var file := MatchingFile(d.files, PathOf(f));
    if file.None? {
      return None;
    }
    var changed := file.value.changedLines;
    var lo := Low(loc.start.value, loc.end.value);
    var hi := High(loc.start.value, loc.end.value);
    assert ChangedLineFlag(f, d) == Some(AnyChanged(changed, lo, hi));
    var line := lo;
    while line <= hi
      invariant lo <= line <= hi + 1
      invariant forall l: nat :: lo <= l < line ==> l !in changed
    {
      if line in changed {
        assert AnyChanged(changed, lo, hi);
        return Some(true);
      }
      line := line + 1;
    }
    return Some(false);
  }

  /** For an ordinary range `start <= end` from line 1 on, the flag says
      whether a line of the range itself is changed. */
  lemma FlagOnOrdinaryRange(f: ReviewFinding, d: ParsedDiff, file: DiffFile)
    requires HasTarget(f) && MatchingFile(d.files, PathOf(f)) == Some(file)
    requires 1 <= f.codeLocation.value.start.value <= f.codeLocation.value.end.value
    ensures ChangedLineFlag(f, d) == Some(exists l: nat ::
      f.codeLocation.value.start.value <= l <= f.codeLocation.value.end.value && l in file.changedLines)
  {
  }

  /** A range lying wholly at or before line 1 (including a reversed or
      negative one) is checked against line 1. */
  lemma FlagOnLowRange(f: ReviewFinding, d: ParsedDiff, file: DiffFile)
    requires HasTarget(f) && MatchingFile(d.files, PathOf(f)) == Some(file)
    requires f.codeLocation.value.start.value <= 1 && f.codeLocation.value.end.value <= 1
    ensures ChangedLineFlag(f, d) == Some(1 in file.changedLines)
  {
    var loc := f.codeLocation.value;
    assert Low(loc.start.value, loc.end.value) == 1 == High(loc.start.value, loc.end.value);
    if 1 in file.changedLines {
      assert AnyChanged(file.changedLines, 1, 1);
    }
  }

  /** A reversed range is searched like the same range written forwards. */
  lemma FlagIgnoresDirection(f: ReviewFinding, d: ParsedDiff)
    requires HasTarget(f)
    ensures var loc := f.codeLocation.value;
      ChangedLineFlag(f, d) == ChangedLineFlag(f.(codeLocation := Some(loc.(start := loc.end, end := loc.start))), d)
  {
  }

  /** The finding with its flag filled in: an existing boolean is kept,
      a missing one becomes the computed flag, or false. */
  function Backfilled(f: ReviewFinding, d: ParsedDiff): ReviewFinding {
    if f.isOnChangedLine.Some? then f else f.(isOnChangedLine := Some(ChangedLineFlag(f, d).GetOr(false)))
  }

  /** The backfilled findings, in order. */
  function BackfillAll(fs: seq<ReviewFinding>, d: ParsedDiff): (r: seq<ReviewFinding>)
    ensures |r| == |fs|
    ensures forall i :: 0 <= i < |fs| ==> r[i] == Backfilled(fs[i], d)
  {
    if fs == [] then [] else BackfillAll(fs[..|fs| - 1], d) + [Backfilled(fs[|fs| - 1], d)]
  }

  /** Backfilling only ever adds the flag: every other field, and a flag
      already present, is unchanged, and afterwards every finding has one. */
  lemma BackfillKeepsExisting(fs: seq<ReviewFinding>, d: ParsedDiff, i: nat)
    requires i < |fs|
    ensures BackfillAll(fs, d)[i].isOnChangedLine.Some?
    ensures fs[i].isOnChangedLine.Some? ==> BackfillAll(fs, d)[i] == fs[i]
    ensures fs[i].isOnChangedLine.None? ==>
      BackfillAll(fs, d)[i] == fs[i].(isOnChangedLine := Some(ChangedLineFlag(fs[i], d) == Some(true)))
  {
  }

  function Confidence(f: ReviewFinding): real { f.confidenceScore }

  function Category(f: ReviewFinding): string { f.category }

  function Priority(f: ReviewFinding): int { f.priority }

  /** The changed-lines filter: P0 findings always pass, others only on a changed line. */
  predicate KeepOnChanged(f: ReviewFinding) {
    f.priority == 0 || f.isOnChangedLine == Some(true)
  }

  /** The backfilled findings after the confidence, changed-lines and category filters. */
  function Filtered(fs: seq<ReviewFinding>, d: ParsedDiff, opts: ReviewOptions): seq<ReviewFinding> {
    var t := FilterByThreshold(BackfillAll(fs, d), Confidence, opts.confidenceThreshold);
    var c := if opts.changedLinesOnly then Filter(t, KeepOnChanged) else t;
    FilterByAllowedValues(c, Category, Some(opts.categories))
  }

  /** `postProcessReviewFindings` as a value: filtered, stably sorted by ascending priority, capped. */
  function PostProcess(fs: seq<ReviewFinding>, d: ParsedDiff, opts: ReviewOptions): seq<ReviewFinding> {
    LimitToMax(SortBy(Filtered(fs, d, opts), Priority), opts.maxFindings)
  }

  /** `postProcessReviewFindings`: backfills the flag finding by finding,
      then reassigns the list through each filter, the sort and the cap. */
  method PostProcessReviewFindings(findings: seq<ReviewFinding>, d: ParsedDiff, opts: ReviewOptions)
    returns (filtered: seq<ReviewFinding>)
    ensures filtered == PostProcess(findings, d, opts)
  {
    filtered := [];
    for i := 0 to |findings|
      invariant filtered == BackfillAll(findings[..i], d)
    {
      var f := findings[i];
      if f.isOnChangedLine.None? {
        var computed := ComputeIsOnChangedLine(f, d);
        f := f.(isOnChangedLine := Some(computed.GetOr(false)));
      }
      assert findings[..i + 1][..i] == findings[..i];
      filtered := filtered + [f];
    }
    assert findings[..|findings|] == findings;
    filtered := FilterByThreshold(filtered, Confidence, opts.confidenceThreshold);
    if opts.changedLinesOnly {
      filtered := Filter(filtered, KeepOnChanged);
    }
    filtered := FilterByAllowedValues(filtered, Category, Some(opts.categories));
    filtered := SortBy(filtered, Priority);
    filtered := LimitToMax(filtered, opts.maxFindings);
  }

  /** What lets a backfilled finding through the three filters. */
  predicate Survives(f: ReviewFinding, opts: ReviewOptions) {
    f.confidenceScore >= opts.confidenceThreshold &&
    (opts.changedLinesOnly ==> KeepOnChanged(f)) &&
    (opts.categories != [] ==> f.category in opts.categories)
  }

  lemma FilteredMembers(fs: seq<ReviewFinding>, d: ParsedDiff, opts: ReviewOptions)
    ensures forall x :: x in Filtered(fs, d, opts) <==> x in BackfillAll(fs, d) && Survives(x, opts)
  {
    var t := FilterByThreshold(BackfillAll(fs, d), Confidence, opts.confidenceThreshold);
    var c := if opts.changedLinesOnly then Filter(t, KeepOnChanged) else t;
    ThresholdCorrect(BackfillAll(fs, d), Confidence, opts.confidenceThreshold);
    FilterMembers(t, KeepOnChanged);
    AllowedValuesCorrect(c, Category, Some(opts.categories));
  }

  /** The output is ordered by priority (P0 first), holds at most
      `max_findings` findings, each a backfilled input finding with its flag
      set that passes every filter; with a cap no smaller than the input,
      every such finding is in the output. */
  lemma PostProcessCorrect(fs: seq<ReviewFinding>, d: ParsedDiff, opts: ReviewOptions)
    ensures SortedBy(PostProcess(fs, d, opts), Priority)
    ensures |PostProcess(fs, d, opts)| <= Max(0, opts.maxFindings)
    ensures forall x :: x in PostProcess(fs, d, opts) ==>
      x in BackfillAll(fs, d) && x.isOnChangedLine.Some? && Survives(x, opts)
    ensures opts.maxFindings >= |fs| ==>
      forall x :: x in PostProcess(fs, d, opts) <==> x in BackfillAll(fs, d) && Survives(x, opts)
    ensures PostProcess(fs, d, opts) == SortBy(Filtered(fs, d, opts), Priority)[..|PostProcess(fs, d, opts)|]
    ensures |PostProcess(fs, d, opts)| == Min(Max(0, opts.maxFindings), |Filtered(fs, d, opts)|)
  {
    var s := SortBy(Filtered(fs, d, opts), Priority);
    var r := PostProcess(fs, d, opts);
    FilteredMembers(fs, d, opts);
    SortByCorrect(Filtered(fs, d, opts), Priority);
    SortByMembers(Filtered(fs, d, opts), Priority);
    assert r == s[..|r|];
    forall x | x in r ensures x in s {
      var k :| 0 <= k < |r| && r[k] == x;
      assert s[k] == x;
    }
    forall x | x in BackfillAll(fs, d) ensures x.isOnChangedLine.Some? {
      var k :| 0 <= k < |fs| && BackfillAll(fs, d)[k] == x;
      BackfillKeepsExisting(fs, d, k);
    }
    if opts.maxFindings >= |fs| {
      assert |s| <= |fs|;
      assert r == s;
    }
  }

  /** Findings of equal priority leave in the order they came in. */
  lemma PostProcessStable(fs: seq<ReviewFinding>, d: ParsedDiff, opts: ReviewOptions, v: int)
    requires opts.maxFindings >= |fs|
    ensures WithKey(PostProcess(fs, d, opts), Priority, v) == WithKey(Filtered(fs, d, opts), Priority, v)
  {
    SortByCorrect(Filtered(fs, d, opts), Priority);
    assert |Filtered(fs, d, opts)| <= |fs|;
  }
}
