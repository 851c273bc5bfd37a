/** The unified-diff parser: file sections start at `diff --git a/X b/Y`
    lines, hunks at `@@ -a,b +c,d @@` lines, and each hunk body line is
    typed by its first character while two line counters advance. The
    header patterns use the `m` flag, so for them every ECMAScript line
    terminator (LF, CR, U+2028, U+2029) ends a line; the hunk body is split
    at '\n' alone, as `split('\n')` does. */
module DiffParse {
  import opened Wrappers
  import opened Text
  import opened Seqs
  import opened DiffModel

  // ---------------------------------------------------------------------
  // Lines of a text, and what a `/^.../gm` regex sees of them

  /** End of the line that starts at `k`: the next line terminator, or the
      end of the text. This is where `$` matches under the `m` flag, and `.`
      cannot run past it. */
  function LineEnd(s: string, k: nat): (e: nat)
    requires k <= |s|
    decreases |s| - k
    ensures k <= e <= |s|
    ensures forall j :: k <= j < e ==> !IsLineTerminator(s[j])
    ensures e < |s| ==> IsLineTerminator(s[e])
  {
    if k == |s| || IsLineTerminator(s[k]) then k else LineEnd(s, k + 1)
  }

  function LineAt(s: string, k: nat): string
    requires k <= |s|
  {
    s[k..LineEnd(s, k)]
  }

  /** `^` with the `m` flag holds at `k`: the start of the text, or just after
      a line terminator (so CRLF holds two line starts). */
  predicate IsLineStart(s: string, k: int) {
    k == 0 || (0 < k <= |s| && IsLineTerminator(s[k - 1]))
  }

  /** Start offsets, in order, of the lines from `from` on whose text satisfies
      `p`: what `matchAll` returns for a `/^.../gm` pattern that cannot cross a
      line end. */
  function LineMatches(s: string, from: nat, p: string -> bool): (r: seq<nat>)
    requires from <= |s|
    decreases |s| - from
    ensures forall i :: 0 <= i < |r| ==> from <= r[i] <= |s| && p(LineAt(s, r[i]))
    ensures forall i :: 0 <= i < |r| ==> r[i] == from || IsLineStart(s, r[i])
    ensures forall i :: 0 <= i < |r| - 1 ==> r[i] < r[i + 1]
  {
    var e := LineEnd(s, from);
    var here := if p(s[from..e]) then [from] else [];
    if e == |s| then here
    else
      var rest := LineMatches(s, e + 1, p);
      assert IsLineStart(s, e + 1);
      here + rest
  }

  /** Every line start from `from` on whose line satisfies `p` is a match. */
  lemma {:induction false} LineMatchesComplete(s: string, from: nat, p: string -> bool, k: nat)
    requires from <= k <= |s| && IsLineStart(s, k) && p(LineAt(s, k))
    decreases |s| - from
    ensures k in LineMatches(s, from, p)
  {
    var e := LineEnd(s, from);
    if k == from {
      assert LineMatches(s, from, p)[0] == k;
    } else {
      assert e < k;
      LineMatchesComplete(s, e + 1, p, k);
      var rest := LineMatches(s, e + 1, p);
      assert LineMatches(s, from, p) == (if p(s[from..e]) then [from] else []) + rest;
    }
  }

  /** The matches are exactly the line starts whose line satisfies `p`. */
  lemma LineMatchesExact(s: string, from: nat, p: string -> bool, k: int)
    requires from <= |s| && IsLineStart(s, from)
    ensures k in LineMatches(s, from, p) <==> from <= k <= |s| && IsLineStart(s, k) && p(LineAt(s, k))
  {
    if k in LineMatches(s, from, p) {
      var i :| 0 <= i < |LineMatches(s, from, p)| && LineMatches(s, from, p)[i] == k;
    }
    if from <= k <= |s| && IsLineStart(s, k) && p(LineAt(s, k)) {
      LineMatchesComplete(s, from, p, k);
    }
  }

  // ---------------------------------------------------------------------
  // `diff --git a/(.+?) b\/(.+?)$`

  const FileHeaderPrefix := "diff --git a/"
  const PathSeparator := " b/"

  function SplitPathsFrom(rest: string, j: nat): (r: Option<(string, string)>)
    requires 1 <= j
    decreases |rest| - j
    ensures r.Some? ==> rest == r.value.0 + PathSeparator + r.value.1
    ensures r.Some? ==> j <= |r.value.0| && |r.value.1| >= 1 && OccursAt(rest, PathSeparator, |r.value.0|)
    ensures r.Some? ==> forall i :: j <= i < |r.value.0| ==> !OccursAt(rest, PathSeparator, i)
    ensures r.None? ==> forall i :: j <= i && i + 3 < |rest| ==> !OccursAt(rest, PathSeparator, i)
  {
    if j + 3 >= |rest| then None
    else if rest[j..j + 3] == PathSeparator then
      assert rest == rest[..j] + PathSeparator + rest[j + 3..];
      Some((rest[..j], rest[j + 3..]))
    else SplitPathsFrom(rest, j + 1)
  }

  /** The lazy groups of the header pattern: the shortest non-empty old path
      that is followed by " b/" and a non-empty new path running to the end
      of the line. */
  function SplitPaths(rest: string): (r: Option<(string, string)>)
    ensures r.Some? ==> rest == r.value.0 + PathSeparator + r.value.1
    ensures r.Some? ==> |r.value.0| >= 1 && |r.value.1| >= 1
    ensures r.Some? ==> forall i :: 1 <= i < |r.value.0| ==> !OccursAt(rest, PathSeparator, i)
    ensures r.None? ==> forall i :: 1 <= i && i + 3 < |rest| ==> !OccursAt(rest, PathSeparator, i)
  {
    SplitPathsFrom(rest, 1)
  }

  /** Old and new path of a `diff --git` header line. */
  function FileHeader(line: string): Option<(string, string)> {
    if StartsWith(line, FileHeaderPrefix) then SplitPaths(line[|FileHeaderPrefix|..]) else None
  }

  predicate IsFileHeaderLine(line: string) {
    FileHeader(line).Some?
  }

  lemma {:induction false} SplitPathsFromAt(rest: string, j: nat, m: nat)
    requires 1 <= j <= m && m + 3 < |rest| && OccursAt(rest, PathSeparator, m)
    requires forall i :: j <= i < m ==> !OccursAt(rest, PathSeparator, i)
    decreases m - j
    ensures SplitPathsFrom(rest, j) == Some((rest[..m], rest[m + 3..]))
  {
    if j < m {
      SplitPathsFromAt(rest, j + 1, m);
    }
  }

  /** A header written for paths X and Y reads back as X and Y whenever X does
      not itself contain " b/". */
  lemma FileHeaderRoundTrip(x: string, y: string)
    requires |x| >= 1 && |y| >= 1
    requires !Contains(x, PathSeparator)
    ensures FileHeader(FileHeaderPrefix + x + PathSeparator + y) == Some((x, y))
  {
    var line := FileHeaderPrefix + x + PathSeparator + y;
    var rest := x + PathSeparator + y;
    assert line[|FileHeaderPrefix|..] == rest;
    assert OccursAt(rest, PathSeparator, |x|);
    forall i | 1 <= i < |x| ensures !OccursAt(rest, PathSeparator, i) {
      if i + 3 <= |x| {
        if OccursAt(rest, PathSeparator, i) {
          assert x[i..i + 3] == rest[i..i + 3];
          assert OccursAt(x, PathSeparator, i);
        }
      } else {
        assert rest[|x|] == ' ';
      }
    }
    SplitPathsFromAt(rest, 1, |x|);
    assert rest[..|x|] == x;
    assert rest[|x| + 3..] == y;
  }

  /** The line starting at `k` runs to the first line terminator at or after `k`. */
  lemma {:induction false} LineEndAt(s: string, k: nat, e: nat)
    requires k <= e <= |s|
    requires forall j :: k <= j < e ==> !IsLineTerminator(s[j])
    requires e == |s| || IsLineTerminator(s[e])
    decreases e - k
    ensures LineEnd(s, k) == e
  {
    if k < e {
      LineEndAt(s, k + 1, e);
    }
  }

  /** A header line ended by any line terminator (the '\r' of a CRLF diff,
      or U+2028) reads back as X and Y: the terminator belongs to neither
      path, as `(.+?)$` under the `m` flag stops before it. */
  lemma TerminatedHeaderPaths(x: string, y: string, t: char, rest: string)
    requires |x| >= 1 && |y| >= 1 && !Contains(x, PathSeparator)
    requires forall j :: 0 <= j < |x| ==> !IsLineTerminator(x[j])
    requires forall j :: 0 <= j < |y| ==> !IsLineTerminator(y[j])
    requires IsLineTerminator(t)
    ensures var s := FileHeaderPrefix + x + PathSeparator + y + [t] + rest;
      IsFileHeaderLine(LineAt(s, 0)) && FileHeader(LineAt(s, 0)) == Some((x, y))
  {
    var line := FileHeaderPrefix + x + PathSeparator + y;
    var s := line + [t] + rest;
    assert s == FileHeaderPrefix + x + PathSeparator + y + [t] + rest;
    forall j | 0 <= j < |line| ensures !IsLineTerminator(s[j]) {
      assert s[j] == line[j];
      if j < |FileHeaderPrefix| {
        assert line[j] == FileHeaderPrefix[j];
      } else if j < |FileHeaderPrefix| + |x| {
        assert line[j] == x[j - |FileHeaderPrefix|];
      } else if j < |FileHeaderPrefix| + |x| + 3 {
        assert line[j] == PathSeparator[j - |FileHeaderPrefix| - |x|];
      } else {
        assert line[j] == y[j - |FileHeaderPrefix| - |x| - 3];
      }
    }
    assert s[|line|] == t;
    LineEndAt(s, 0, |line|);
    assert LineAt(s, 0) == line;
    FileHeaderRoundTrip(x, y);
  }

  // ---------------------------------------------------------------------
  // `@@ -(\d+)(?:,(\d+))? \+(\d+)(?:,(\d+))? @@`

  /** The numbers of a hunk header; a count is `None` when its group is absent. */
  datatype HunkHeader = HunkHeader(oldStart: nat, oldCount: Option<nat>, newStart: nat, newCount: Option<nat>)

  /** `(\d+)`: the value of the maximal leading digit run, and what follows it. */
  function ReadNumber(s: string): (r: Option<(nat, string)>)
    ensures r.Some? ==> |r.value.1| < |s| && r.value.1 == s[|s| - |r.value.1|..]
    ensures r.Some? ==> AllDigits(s[..|s| - |r.value.1|])
    ensures r.Some? ==> r.value.1 == [] || !IsDigit(r.value.1[0])
    ensures r.None? <==> s == [] || !IsDigit(s[0])
  {
    var n := DigitRunLength(s);
    if n == 0 then None else Some((DigitsValue(s[..n]), s[n..]))
  }

  /** `(?:,(\d+))?`: the group's value when it matches, and what follows. */
  function ReadOptCount(s: string): (r: (Option<nat>, string))
    ensures |r.1| <= |s| && r.1 == s[|s| - |r.1|..]
    ensures r.0.None? ==> r.1 == s
  {
    if |s| > 0 && s[0] == ',' && ReadNumber(s[1..]).Some? then
      (Some(ReadNumber(s[1..]).value.0), ReadNumber(s[1..]).value.1)
    else (None, s)
  }

  /** ` \+(\d+)(?:,(\d+))? @@` at the start of `s`, after the old-file numbers `o` and `oc`. */
  function HunkHeaderNewPart(s: string, o: nat, oc: Option<nat>): Option<HunkHeader> {
    if !StartsWith(s, " +") then None
    else match ReadNumber(s[2..])
      case None => None
      case Some((n, rest)) =>
        var (nc, rest2) := ReadOptCount(rest);
        if !StartsWith(rest2, " @@") then None
        else Some(HunkHeader(o, oc, n, nc))
  }

  /** The hunk header at the start of `line`, if there is one. */
  function ParseHunkHeader(line: string): Option<HunkHeader> {
    if !StartsWith(line, "@@ -") then None
    else match ReadNumber(line[4..])
      case None => None
      case Some((o, rest)) =>
        var (oc, rest2) := ReadOptCount(rest);
        HunkHeaderNewPart(rest2, o, oc)
  }

  predicate IsHunkHeaderLine(line: string) {
    ParseHunkHeader(line).Some?
  }

  function CountText(c: Option<nat>): string {
    match c
    case None => ""
    case Some(v) => "," + NatToString(v)
  }

  /** A hunk header line as git writes it, followed by `tail` (where git
      puts the first line of the enclosing function). */
  function HunkHeaderLine(h: HunkHeader, tail: string): string {
    "@@ -" + (NatToString(h.oldStart) + (CountText(h.oldCount) +
      (" +" + (NatToString(h.newStart) + (CountText(h.newCount) + (" @@" + tail))))))
  }

  lemma PrefixOf(a: string, b: string)
    ensures StartsWith(a + b, a) && (a + b)[|a|..] == b
  {
    assert (a + b)[..|a|] == a;
  }

  lemma ReadNumberOf(n: nat, post: string)
    requires post == [] || !IsDigit(post[0])
    ensures ReadNumber(NatToString(n) + post) == Some((n, post))
  {
    var d := NatToString(n);
    DigitRunOfDigits(d, post);
    assert (d + post)[..|d|] == d;
    PrefixOf(d, post);
    DigitsValueOfNatToString(n);
  }

  lemma ReadOptCountOf(c: Option<nat>, post: string)
    requires post != [] && post[0] == ' '
    ensures ReadOptCount(CountText(c) + post) == (c, post)
  {
    match c
    case None =>
      assert CountText(c) + post == post;
    case Some(v) =>
      var d := NatToString(v);
      AppendAssoc(",", d, post);
      PrefixOf(",", d + post);
      ReadNumberOf(v, post);
  }

  /** A count group, present or not, never starts with a digit. */
  lemma CountTextStart(c: Option<nat>, post: string)
    requires post != [] && post[0] == ' '
    ensures !IsDigit((CountText(c) + post)[0])
  {
    if c.Some? {
      assert (CountText(c) + post)[0] == ',';
    }
  }

  lemma NewPartOf(o: nat, oc: Option<nat>, n: nat, nc: Option<nat>, tail: string)
    ensures HunkHeaderNewPart(" +" + (NatToString(n) + (CountText(nc) + (" @@" + tail))), o, oc)
      == Some(HunkHeader(o, oc, n, nc))
  {
    var s5 := " @@" + tail;
    var s4 := CountText(nc) + s5;
    PrefixOf(" +", NatToString(n) + s4);
    CountTextStart(nc, s5);
    ReadNumberOf(n, s4);
    ReadOptCountOf(nc, s5);
    PrefixOf(" @@", tail);
  }

  /** A header written by git reads back as the same numbers, whatever follows it on the line. */
  lemma ParseHunkHeaderLine(h: HunkHeader, tail: string)
    ensures ParseHunkHeader(HunkHeaderLine(h, tail)) == Some(h)
  {
    var s2 := " +" + (NatToString(h.newStart) + (CountText(h.newCount) + (" @@" + tail)));
    var s1 := CountText(h.oldCount) + s2;
    PrefixOf("@@ -", NatToString(h.oldStart) + s1);
    CountTextStart(h.oldCount, s2);
    ReadNumberOf(h.oldStart, s1);
    ReadOptCountOf(h.oldCount, s2);
    NewPartOf(h.oldStart, h.oldCount, h.newStart, h.newCount, tail);
  }

  /** An omitted count stands for one line. */
  lemma OmittedCountIsOne(oldStart: nat, newStart: nat, tail: string)
    ensures var h := ParseHunkHeader(HunkHeaderLine(HunkHeader(oldStart, None, newStart, None), tail));
      h.Some? && h.value.oldCount.GetOr(1) == 1 && h.value.newCount.GetOr(1) == 1
  {
    ParseHunkHeaderLine(HunkHeader(oldStart, None, newStart, None), tail);
  }

  // ---------------------------------------------------------------------
  // Hunk bodies

  /** `l.startsWith(c)` for a one-character prefix. */
  predicate FirstIs(l: string, c: char) {
    |l| > 0 && l[0] == c
  }

  /** A body line that is kept: it starts with '+', '-' or ' ', or is empty. */
  predicate IsBodyLine(l: string) {
    FirstIs(l, '+') || FirstIs(l, '-') || FirstIs(l, ' ') || l == ""
  }

  /** Text of a body line after its marker character (`line.slice(1) || ''`). */
  function BodyContent(l: string): string {
    if l == "" then "" else l[1..]
  }

  /** What one body line contributes: an added, removed or context line, or nothing. */
  function LineOf(l: string, oldNo: nat, newNo: nat): seq<DiffLine> {
    if FirstIs(l, '+') then [Add(l[1..], newNo)]
    else if FirstIs(l, '-') then [Remove(l[1..], oldNo)]
    else if IsBodyLine(l) then [Context(BodyContent(l), oldNo, newNo)]
    else []
  }

  /** The old-file counter after a line: removed and context lines advance it. */
  function NextOld(l: string, oldNo: nat): nat {
    if FirstIs(l, '+') || !IsBodyLine(l) then oldNo else oldNo + 1
  }

  /** The new-file counter after a line: added and context lines advance it. */
  function NextNew(l: string, newNo: nat): nat {
    if FirstIs(l, '-') || !IsBodyLine(l) then newNo else newNo + 1
  }

  /** The typed lines of a hunk body, numbered from `oldNo` and `newNo`. */
  function HunkLines(raw: seq<string>, oldNo: nat, newNo: nat): seq<DiffLine> {
    if raw == [] then []
    else LineOf(raw[0], oldNo, newNo) + HunkLines(raw[1..], NextOld(raw[0], oldNo), NextNew(raw[0], newNo))
  }

  /** Lines that advance the new-file counter: added and context lines. */
  function NewAdvance(ls: seq<DiffLine>): nat {
    if ls == [] then 0 else (if ls[0].Remove? then 0 else 1) + NewAdvance(ls[1..])
  }

  /** Lines that advance the old-file counter: removed and context lines. */
  function OldAdvance(ls: seq<DiffLine>): nat {
    if ls == [] then 0 else (if ls[0].Add? then 0 else 1) + OldAdvance(ls[1..])
  }

  predicate NumberedFrom(ls: seq<DiffLine>, oldNo: nat, newNo: nat) {
    forall j :: 0 <= j < |ls| ==>
      (!ls[j].Remove? ==> ls[j].newLine == newNo + NewAdvance(ls[..j])) &&
      (!ls[j].Add? ==> ls[j].oldLine == oldNo + OldAdvance(ls[..j]))
  }

  lemma LineOfFacts(l: string, oldNo: nat, newNo: nat)
    ensures !IsBodyLine(l) ==> LineOf(l, oldNo, newNo) == [] && NextOld(l, oldNo) == oldNo && NextNew(l, newNo) == newNo
    ensures IsBodyLine(l) ==>
      var x := LineOf(l, oldNo, newNo);
      |x| == 1 && x[0].content == BodyContent(l) &&
      (x[0].Add? <==> FirstIs(l, '+')) && (x[0].Remove? <==> FirstIs(l, '-')) &&
      (!x[0].Remove? ==> x[0].newLine == newNo) && (!x[0].Add? ==> x[0].oldLine == oldNo) &&
      NextNew(l, newNo) == newNo + (if x[0].Remove? then 0 else 1) &&
      NextOld(l, oldNo) == oldNo + (if x[0].Add? then 0 else 1)
  {
  }

  /** The two counters: every line's new-file number counts the added and
      context lines before it, and its old-file number the removed and
      context lines before it; dropped lines advance neither. */
  lemma {:induction false} HunkLinesNumbering(raw: seq<string>, oldNo: nat, newNo: nat)
    ensures NumberedFrom(HunkLines(raw, oldNo, newNo), oldNo, newNo)
  {
    if raw != [] {
      var l := raw[0];
      var ls := HunkLines(raw, oldNo, newNo);
      var o' := NextOld(l, oldNo);
      var n' := NextNew(l, newNo);
      var rest := HunkLines(raw[1..], o', n');
      assert ls == LineOf(l, oldNo, newNo) + rest;
      HunkLinesNumbering(raw[1..], o', n');
      LineOfFacts(l, oldNo, newNo);
      if IsBodyLine(l) {
        var x := ls[0];
        assert ls == [x] + rest;
        forall j | 0 <= j < |ls|
          ensures (!ls[j].Remove? ==> ls[j].newLine == newNo + NewAdvance(ls[..j]))
          ensures (!ls[j].Add? ==> ls[j].oldLine == oldNo + OldAdvance(ls[..j]))
        {
          if j == 0 {
            assert ls[..0] == [];
          } else {
            assert ls[j] == rest[j - 1];
            assert ls[..j] == [x] + rest[..j - 1];
            assert ls[..j][1..] == rest[..j - 1];
            assert NewAdvance(ls[..j]) == (if x.Remove? then 0 else 1) + NewAdvance(rest[..j - 1]);
            assert OldAdvance(ls[..j]) == (if x.Add? then 0 else 1) + OldAdvance(rest[..j - 1]);
          }
        }
      } else {
        assert ls == rest;
      }
    }
  }

  /** Which lines are kept, as what, and with which content: the output has
      one line per body line, in order, typed by its first character. */
  lemma {:induction false} HunkLinesShape(raw: seq<string>, oldNo: nat, newNo: nat)
    ensures var ls := HunkLines(raw, oldNo, newNo); var kept := Filter(raw, IsBodyLine);
      |ls| == |kept| &&
      forall j :: 0 <= j < |ls| ==>
        ls[j].content == BodyContent(kept[j]) &&
        (ls[j].Add? <==> FirstIs(kept[j], '+')) &&
        (ls[j].Remove? <==> FirstIs(kept[j], '-'))
  {
    if raw != [] {
      var l := raw[0];
      var o' := NextOld(l, oldNo);
      var n' := NextNew(l, newNo);
      HunkLinesShape(raw[1..], o', n');
      LineOfFacts(l, oldNo, newNo);
      var ls := HunkLines(raw, oldNo, newNo);
      var rest := HunkLines(raw[1..], o', n');
      assert ls == LineOf(l, oldNo, newNo) + rest;
      var keptRest := Filter(raw[1..], IsBodyLine);
      var kept := Filter(raw, IsBodyLine);
      if IsBodyLine(l) {
        assert kept == [l] + keptRest;
        forall j | 0 <= j < |ls|
          ensures ls[j].content == BodyContent(kept[j])
          ensures (ls[j].Add? <==> FirstIs(kept[j], '+'))
          ensures (ls[j].Remove? <==> FirstIs(kept[j], '-'))
        {
          if j > 0 {
            assert ls[j] == rest[j - 1];
            assert kept[j] == keptRest[j - 1];
          }
        }
      } else {
        assert kept == keptRest;
        assert ls == rest;
      }
    }
  }

  /** One turn of the `parseHunkLines` loop keeps both of its invariants. */
  lemma BodyStep(all: seq<string>, i: nat, oldStart: nat, newStart: nat, changed: set<nat>,
                 before: seq<DiffLine>, prevChanged: set<nat>, oldNo: nat, newNo: nat)
    requires i < |all|
    requires HunkLines(all, oldStart, newStart) == before + HunkLines(all[i..], oldNo, newNo)
    requires prevChanged == changed + AddNumbers(before)
    ensures HunkLines(all, oldStart, newStart) ==
      (before + LineOf(all[i], oldNo, newNo)) + HunkLines(all[i + 1..], NextOld(all[i], oldNo), NextNew(all[i], newNo))
    ensures prevChanged + (if FirstIs(all[i], '+') then {newNo} else {}) ==
      changed + AddNumbers(before + LineOf(all[i], oldNo, newNo))
  {
    var x := LineOf(all[i], oldNo, newNo);
    var rest := HunkLines(all[i + 1..], NextOld(all[i], oldNo), NextNew(all[i], newNo));
    assert all[i..][1..] == all[i + 1..];
    assert HunkLines(all[i..], oldNo, newNo) == x + rest;
    AppendAssoc(before, x, rest);
    AddNumbersStep(before, all[i], oldNo, newNo);
  }

  lemma AppendAssoc<T>(a: seq<T>, b: seq<T>, c: seq<T>)
    ensures a + (b + c) == (a + b) + c
  {
  }

  lemma AddNumbersStep(before: seq<DiffLine>, l: string, oldNo: nat, newNo: nat)
    ensures AddNumbers(before + LineOf(l, oldNo, newNo)) == AddNumbers(before) + (if FirstIs(l, '+') then {newNo} else {})
  {
    AddNumbersAppend(before, LineOf(l, oldNo, newNo));
  }

  /** `parseHunkLines`: types and numbers the lines after the header line and
      adds the new-file number of every added line to `changed`. */
  method ParseHunkLines(hunkContent: string, oldStart: nat, newStart: nat, changed: set<nat>)
    returns (lines: seq<DiffLine>, changed': set<nat>)
    ensures lines == HunkLines(Split(hunkContent, '\n')[1..], oldStart, newStart)
    ensures changed' == changed + AddNumbers(lines)
  {
    var contentLines := Split(hunkContent, '\n')[1..];
    lines, changed' := TypeBodyLines(contentLines, oldStart, newStart, changed);
  }

  /** The loop of `parseHunkLines` over the lines after the header line. */
  method TypeBodyLines(contentLines: seq<string>, oldStart: nat, newStart: nat, changed: set<nat>)
    returns (lines: seq<DiffLine>, changed': set<nat>)
    ensures lines == HunkLines(contentLines, oldStart, newStart)
    ensures changed' == changed + AddNumbers(lines)
  {
    lines := [];
    changed' := changed;
    var newLineNum := newStart;
    var oldLineNum := oldStart;
    var i := 0;
    while i < |contentLines|
      invariant 0 <= i <= |contentLines|
      invariant HunkLines(contentLines, oldStart, newStart) == lines + HunkLines(contentLines[i..], oldLineNum, newLineNum)
      invariant changed' == changed + AddNumbers(lines)
    {
      var line := contentLines[i];
      BodyStep(contentLines, i, oldStart, newStart, changed, lines, changed', oldLineNum, newLineNum);
      ghost var step := LineOf(line, oldLineNum, newLineNum);
      ghost var before := lines;
      ghost var o, n, c := oldLineNum, newLineNum, changed';
      if FirstIs(line, '+') {
        lines := lines + [Add(line[1..], newLineNum)];
        changed' := changed' + {newLineNum};
        newLineNum := newLineNum + 1;
      } else if FirstIs(line, '-') {
        lines := lines + [Remove(line[1..], oldLineNum)];
        oldLineNum := oldLineNum + 1;
      } else if FirstIs(line, ' ') || line == "" {
        lines := lines + [Context(BodyContent(line), oldLineNum, newLineNum)];
        oldLineNum := oldLineNum + 1;
        newLineNum := newLineNum + 1;
      }
      assert lines == before + step && oldLineNum == NextOld(line, o) && newLineNum == NextNew(line, n);
      assert changed' == c + (if FirstIs(line, '+') then {n} else {});
      i := i + 1;
    }
    assert contentLines[i..] == [];
  }

  // ---------------------------------------------------------------------
  // File sections

  /** Where the hunk that starts at `starts[i]` ends: the next hunk header, or the end of the section. */
  function NextStart(s: string, starts: seq<nat>, i: nat): (e: nat)
    requires i < |starts|
    requires forall k :: 0 <= k < |starts| ==> starts[k] <= |s|
    requires forall k :: 0 <= k < |starts| - 1 ==> starts[k] < starts[k + 1]
    ensures starts[i] <= e <= |s|
  {
    if i + 1 < |starts| then starts[i + 1] else |s|
  }

  /** The hunk whose header is at `starts[i]`; an omitted count is 1. */
  function HunkAt(section: string, starts: seq<nat>, i: nat): DiffHunk
    requires starts == LineMatches(section, 0, IsHunkHeaderLine)
    requires i < |starts|
  {
    var h := ParseHunkHeader(LineAt(section, starts[i])).value;
    var content := section[starts[i]..NextStart(section, starts, i)];
    DiffHunk(h.oldStart, h.oldCount.GetOr(1), h.newStart, h.newCount.GetOr(1),
             HunkLines(Split(content, '\n')[1..], h.oldStart, h.newStart))
  }

  function HunkStarts(section: string): seq<nat> {
    LineMatches(section, 0, IsHunkHeaderLine)
  }

  /** The hunks of a section, one per hunk header line, in order. */
  function SectionHunks(section: string): (r: seq<DiffHunk>)
    ensures |r| == |HunkStarts(section)|
  {
    var starts := HunkStarts(section);
    seq(|starts|, i requires 0 <= i < |starts| => HunkAt(section, starts, i))
  }

  /** What `parseFileSection` returns for a section and its two paths. */
  function SectionFile(section: string, oldPath: string, newPath: string): DiffFile {
    var hunks := SectionHunks(section);
    DiffFile(oldPath, newPath,
             Contains(section, "new file mode"),
             Contains(section, "deleted file mode"),
             Contains(section, "Binary files"),
             hunks, HunksAddNumbers(hunks))
  }

  /** `parseFileSection`: one hunk per hunk header line, in order, sharing one set of changed lines. */
  method ParseFileSection(section: string, oldPath: string, newPath: string) returns (file: DiffFile)
    ensures file == SectionFile(section, oldPath, newPath)
  {
    var isNew := Contains(section, "new file mode");
    var isDeleted := Contains(section, "deleted file mode");
    var isBinary := Contains(section, "Binary files");
    var hunks: seq<DiffHunk> := [];
    var changedLines: set<nat> := {};
    var hunkMatches := LineMatches(section, 0, IsHunkHeaderLine);
    ghost var all := SectionHunks(section);
    var i := 0;
    while i < |hunkMatches|
      invariant 0 <= i <= |hunkMatches|
      invariant hunks == all[..i]
      invariant changedLines == HunksAddNumbers(hunks)
    {
      var hunkStart := hunkMatches[i];
      var hunkEnd := NextStart(section, hunkMatches, i);
      var hunkContent := section[hunkStart..hunkEnd];
      var h := ParseHunkHeader(LineAt(section, hunkStart)).value;
      var lines;
      lines, changedLines := ParseHunkLines(hunkContent, h.oldStart, h.newStart, changedLines);
      var hunk := DiffHunk(h.oldStart, h.oldCount.GetOr(1), h.newStart, h.newCount.GetOr(1), lines);
      assert hunk == all[i];
      HunksAddNumbersSnoc(hunks, hunk);
      PrefixSnoc(all, i);
      hunks := hunks + [hunk];
      i := i + 1;
    }
    assert hunks == all by {
      assert i == |all|;
      assert all[..|all|] == all;
    }
    file := DiffFile(oldPath, newPath, isNew, isDeleted, isBinary, hunks, changedLines);
  }

  lemma HunksAddNumbersSnoc(hunks: seq<DiffHunk>, hunk: DiffHunk)
    ensures HunksAddNumbers(hunks + [hunk]) == HunksAddNumbers(hunks) + AddNumbers(hunk.lines)
  {
    HunksAppend(hunks, [hunk]);
    assert HunksAddNumbers([hunk]) == AddNumbers(hunk.lines);
  }

  /** A section with no hunk header line still yields a file, with no hunks. */
  lemma SectionWithoutHunks(section: string, oldPath: string, newPath: string)
    requires forall k :: 0 <= k <= |section| && IsLineStart(section, k) ==> !IsHunkHeaderLine(LineAt(section, k))
    ensures SectionFile(section, oldPath, newPath).hunks == []
  {
    var starts := HunkStarts(section);
    if |starts| > 0 {
      LineMatchesExact(section, 0, IsHunkHeaderLine, starts[0]);
    }
  }

  /** `changed_lines` is exactly the set of new-file numbers of the file's added lines. */
  lemma ChangedLinesExact(section: string, oldPath: string, newPath: string, n: nat)
    ensures var f := SectionFile(section, oldPath, newPath);
      n in f.changedLines <==>
      exists j :: 0 <= j < |FileLines(f)| && FileLines(f)[j].Add? && FileLines(f)[j].newLine == n
  {
    var f := SectionFile(section, oldPath, newPath);
    HunksCountsFlatten(f.hunks);
    AddNumbersMembers(FileLines(f), n);
  }

  // ---------------------------------------------------------------------
  // Whole diffs

  function FileStarts(diff: string): seq<nat> {
    LineMatches(diff, 0, IsFileHeaderLine)
  }

  /** The file whose header is at `starts[i]`; its section runs to the next header. */
  function FileAt(diff: string, starts: seq<nat>, i: nat): DiffFile
    requires starts == FileStarts(diff)
    requires i < |starts|
  {
    var paths := FileHeader(LineAt(diff, starts[i])).value;
    SectionFile(FileSection(diff, i), paths.0, paths.1)
  }

  /** The files of a diff, one per file header line, in order. */
  function DiffFiles(diff: string): (r: seq<DiffFile>)
    ensures |r| == |FileStarts(diff)|
  {
    var starts := FileStarts(diff);
    seq(|starts|, i requires 0 <= i < |starts| => FileAt(diff, starts, i))
  }

  /** What `parseUnifiedDiff` returns. */
  function ParsedDiffOf(diff: string): ParsedDiff {
    var files := DiffFiles(diff);
    ParsedDiff(files, FilesAdds(files), FilesRemoves(files))
  }

  /** `parseUnifiedDiff`: one file per header line, in header order, and the
      added and removed lines totalled over all of their hunks. */
  method ParseUnifiedDiff(diffContent: string) returns (d: ParsedDiff)
    ensures d == ParsedDiffOf(diffContent)
    ensures |d.files| == |FileStarts(diffContent)|
    ensures d.linesAdded == FilesAdds(d.files) && d.linesRemoved == FilesRemoves(d.files)
  {
    var files: seq<DiffFile> := [];
    var totalAdded := 0;
    var totalRemoved := 0;
    var matches := LineMatches(diffContent, 0, IsFileHeaderLine);
    ghost var all := DiffFiles(diffContent);
    var i := 0;
    while i < |matches|
      invariant 0 <= i <= |matches|
      invariant files == all[..i]
      invariant totalAdded == FilesAdds(files) && totalRemoved == FilesRemoves(files)
    {
      var paths := FileHeader(LineAt(diffContent, matches[i])).value;
      var startIdx := matches[i];
      var endIdx := NextStart(diffContent, matches, i);
      var fileSection := diffContent[startIdx..endIdx];
      assert fileSection == FileSection(diffContent, i);
      var file := ParseFileSection(fileSection, paths.0, paths.1);
      assert all[i] == FileAt(diffContent, matches, i);
      FilesSnoc(files, file);
      PrefixSnoc(all, i);
      files := files + [file];
      totalAdded := totalAdded + HunksAdds(file.hunks);
      totalRemoved := totalRemoved + HunksRemoves(file.hunks);
      i := i + 1;
    }
    assert files == all by {
      assert i == |all|;
      assert all[..|all|] == all;
    }
    d := ParsedDiff(files, totalAdded, totalRemoved);
  }

  lemma FilesSnoc(files: seq<DiffFile>, file: DiffFile)
    ensures FilesAdds(files + [file]) == FilesAdds(files) + HunksAdds(file.hunks)
    ensures FilesRemoves(files + [file]) == FilesRemoves(files) + HunksRemoves(file.hunks)
  {
    FilesAppend(files, [file]);
    assert FilesAdds([file]) == HunksAdds(file.hunks);
    assert FilesRemoves([file]) == HunksRemoves(file.hunks);
  }

  /** The text of the `i`-th file's section: from its header line to the next one. */
  function FileSection(diff: string, i: nat): string
    requires i < |FileStarts(diff)|
  {
    var starts := FileStarts(diff);
    diff[starts[i]..NextStart(diff, starts, i)]
  }

  /** Each file's paths are the two groups of its own header line, which
      starts a line, and its flags say whether its section mentions the
      corresponding marker. */
  lemma ParsedFileFromHeader(diff: string, i: nat)
    requires i < |FileStarts(diff)|
    ensures var k := FileStarts(diff)[i];
      var f := ParsedDiffOf(diff).files[i];
      k <= |diff| && IsLineStart(diff, k) &&
      FileHeader(LineAt(diff, k)) == Some((f.oldPath, f.newPath)) &&
      (f.isNew <==> Contains(FileSection(diff, i), "new file mode")) &&
      (f.isDeleted <==> Contains(FileSection(diff, i), "deleted file mode")) &&
      (f.isBinary <==> Contains(FileSection(diff, i), "Binary files"))
  {
    var starts := FileStarts(diff);
    assert ParsedDiffOf(diff).files[i] == FileAt(diff, starts, i);
    LineMatchesExact(diff, 0, IsFileHeaderLine, starts[i]);
  }

  /** Every header line of the diff starts a parsed file. */
  lemma EveryHeaderParsed(diff: string, k: nat)
    requires k <= |diff| && IsLineStart(diff, k) && IsFileHeaderLine(LineAt(diff, k))
    ensures k in FileStarts(diff)
  {
    LineMatchesExact(diff, 0, IsFileHeaderLine, k);
  }
}
