/** De-duplication of retrieval results (src/internal/retrieval/dedupe.ts):
    results are grouped by path, each group is ordered by score, and a result
    is dropped when its line range overlaps an earlier kept one of the same
    path by at least the threshold, or, when either range is missing, when
    its whitespace-normalised content equals that of an earlier kept one. */
module Dedupe {
  import opened Wrappers
  import opened Text
  import opened Seqs
  import opened Numbers

  /** A search hit as the retrieval layer passes it around. The path is
      always present; `lines` is a free-form range text such as "10-20". */
  datatype SearchResult = SearchResult(
    path: string,
    content: string,
    lines: Option<string>,
    relevanceScore: Option<real>,
    queryVariant: string,
    variantIndex: int,
    variantWeight: real,
    combinedScore: Option<real>)

  datatype LineRange = LineRange(start: int, end: int)

  /** The threshold used when the caller gives none. */
  const DEFAULT_OVERLAP_THRESHOLD: real := 0.6

  // ---------------------------------------------------------------------
  // parseLineRange

  /** The match of `(\d+)\s*-\s*(\d+)` starting exactly at `p`, as the two
      numbers it captures. The runs are maximal, as the greedy regex makes
      them: a shorter first run would leave a digit where `\s*-` must match. */
  function RangeAt(s: string, p: nat): (r: Option<(nat, nat)>)
    requires p <= |s|
  {
    var d1 := DigitRunLength(s[p..]);
    if d1 == 0 then None
    else
      var q := SpacesEnd(s, p + d1);
      if q == |s| || s[q] != '-' then None
      else
        var r := SpacesEnd(s, q + 1);
        var d2 := DigitRunLength(s[r..]);
        if d2 == 0 then None
        else Some((DigitsValue(s[p..][..d1]), DigitsValue(s[r..][..d2])))
  }

  /** The leftmost match at or after `p` (`String.prototype.match` without `g`). */
  function FirstRange(s: string, p: nat): (r: Option<(nat, nat)>)
    requires p <= |s|
    decreases |s| - p
  {
    if p == |s| then None
    else if RangeAt(s, p).Some? then RangeAt(s, p)
    else FirstRange(s, p + 1)
  }

  /** `parseLineRange`: no text or an empty one, no match, or a first match
      whose end is below its start all give no range. */
  function ParseLineRange(lines: Option<string>): Option<LineRange> {
    if lines.None? || lines.value == [] then None
    else match FirstRange(lines.value, 0)
      case None => None
      case Some((a, b)) => if b < a then None else Some(LineRange(a, b))
  }

  /** No match of the range pattern starts in [lo, hi). */
  predicate NoMatchIn(s: string, lo: nat, hi: nat)
    requires hi <= |s|
  {
    forall q :: lo <= q < hi ==> RangeAt(s, q).None?
  }

  /** The match found is the leftmost one. */
  lemma {:induction false} FirstRangeIsFirst(s: string, p: nat)
    requires p <= |s|
    decreases |s| - p
    ensures FirstRange(s, p).None? ==> NoMatchIn(s, p, |s|)
    ensures FirstRange(s, p).Some? ==>
      exists q :: p <= q < |s| && RangeAt(s, q) == FirstRange(s, p) && NoMatchIn(s, p, q)
  {
    if p < |s| {
      if RangeAt(s, p).Some? {
        assert FirstRange(s, p) == RangeAt(s, p);
        assert NoMatchIn(s, p, p);
      } else {
        assert FirstRange(s, p) == FirstRange(s, p + 1);
        FirstRangeIsFirst(s, p + 1);
        if FirstRange(s, p + 1).Some? {
          var q :| p + 1 <= q < |s| && RangeAt(s, q) == FirstRange(s, p + 1) && NoMatchIn(s, p + 1, q);
          assert NoMatchIn(s, p, q);
        } else {
          assert NoMatchIn(s, p, |s|);
        }
      }
    }
  }

  /** `q` is where the leftmost match of the range pattern starts. */
  predicate IsFirstMatch(s: string, q: int) {
    0 <= q < |s| && RangeAt(s, q).Some? && NoMatchIn(s, 0, q)
  }

  lemma FirstMatchUnique(s: string, q1: int, q2: int)
    requires IsFirstMatch(s, q1) && IsFirstMatch(s, q2)
    ensures q1 == q2
  {
  }

  /** The result is decided by the leftmost match of the range pattern: no
      match gives no range; otherwise the match's two numbers, when the
      first is at most the second, and no range when it is not. */
  lemma ParseLineRangeMeaning(s: string)
    ensures NoMatchIn(s, 0, |s|) ==> ParseLineRange(Some(s)).None?
    ensures forall q :: IsFirstMatch(s, q) ==>
      var m := RangeAt(s, q).value;
      ParseLineRange(Some(s)) == if m.0 <= m.1 then Some(LineRange(m.0, m.1)) else None
  {
    FirstRangeIsFirst(s, 0);
    if s != [] && FirstRange(s, 0).Some? {
      var q :| IsFirstMatch(s, q) && RangeAt(s, q) == FirstRange(s, 0);
      forall q2 | IsFirstMatch(s, q2) ensures q2 == q {
        FirstMatchUnique(s, q, q2);
      }
    }
  }

  /** Two digit runs joined by a dash match at position 0. */
  lemma RangeAtJoined(A: string, B: string)
    requires AllDigits(A) && AllDigits(B) && A != [] && B != []
    ensures RangeAt(A + "-" + B, 0) == Some((DigitsValue(A), DigitsValue(B)))
  {
    var s := A + "-" + B;
    assert s[0..] == A + ("-" + B);
    DigitRunOfDigits(A, "-" + B);
    assert s[0..][..|A|] == A;
    assert s[|A|] == '-';
    assert SpacesEnd(s, |A|) == |A|;
    assert s[|A| + 1..] == B + [];
    assert SpacesEnd(s, |A| + 1) == |A| + 1;
    DigitRunOfDigits(B, []);
    assert s[|A| + 1..][..|B|] == B;
  }

  /** The text "a-b" reads back as the range a..b when a <= b, and as no
      range when b < a. */
  lemma LineRangeRoundTrip(a: nat, b: nat)
    ensures ParseLineRange(Some(NatToString(a) + "-" + NatToString(b))) ==
      if a <= b then Some(LineRange(a, b)) else None
  {
    var s := NatToString(a) + "-" + NatToString(b);
    RangeAtJoined(NatToString(a), NatToString(b));
    DigitsValueOfNatToString(a);
    DigitsValueOfNatToString(b);
    assert FirstRange(s, 0) == Some((a, b));
  }

  // ---------------------------------------------------------------------
  // overlapRatio

  /** Number of lines a range spans; zero or negative for a reversed range. */
  function Span(r: LineRange): int { r.end - r.start + 1 }

  /** `overlapRatio`: the shared lines over the length of the shorter range,
      and 0 when the shorter length is not positive. */
  function OverlapRatio(a: LineRange, b: LineRange): real {
    var intersection := Max(0, Min(a.end, b.end) - Max(a.start, b.start) + 1);
    var minLen := Min(Span(a), Span(b));
    if minLen <= 0 then 0.0 else intersection as real / minLen as real
  }

  predicate ValidRange(r: LineRange) { r.start <= r.end }

  /** Both ranges contain line `n`. */
  predicate Shared(a: LineRange, b: LineRange, n: int) {
    a.start <= n <= a.end && b.start <= n <= b.end
  }

  /** The ratio does not depend on the order of its arguments; for valid
      ranges it lies in [0, 1], is positive exactly when the ranges share a
      line, and is 1 exactly when one range lies within the other. */
  lemma OverlapRatioProperties(a: LineRange, b: LineRange)
    ensures OverlapRatio(a, b) == OverlapRatio(b, a)
    ensures ValidRange(a) && ValidRange(b) ==> 0.0 <= OverlapRatio(a, b) <= 1.0
    ensures ValidRange(a) && ValidRange(b) ==>
      (OverlapRatio(a, b) > 0.0 <==> exists n :: Shared(a, b, n))
    ensures ValidRange(a) && ValidRange(b) ==>
      (OverlapRatio(a, b) == 1.0 <==>
        (b.start <= a.start && a.end <= b.end) || (a.start <= b.start && b.end <= a.end))
  {
    if ValidRange(a) && ValidRange(b) {
      var i := Max(0, Min(a.end, b.end) - Max(a.start, b.start) + 1);
      var m := Min(Span(a), Span(b));
      assert 0 <= i <= m;
      RatioFacts(i, m);
      if i > 0 {
        assert Shared(a, b, Max(a.start, b.start));
      }
      if exists n :: Shared(a, b, n) {
        var n :| Shared(a, b, n);
        assert i > 0;
      }
    }
  }

  lemma RatioFacts(i: int, m: int)
    requires 0 <= i <= m && m > 0
    ensures 0.0 <= i as real / m as real <= 1.0
    ensures i as real / m as real > 0.0 <==> i > 0
    ensures i as real / m as real == 1.0 <==> i == m
  {
    var r := i as real / m as real;
    assert r * m as real == i as real;
  }

  // ---------------------------------------------------------------------
  // normalizeContent

  /** `s.replace(/\s+/g, ' ')`: every run of white space becomes one space. */
  function Collapse(s: string): (r: string)
    decreases |s|
  {
    if s == [] then []
    else if IsJsSpace(s[0]) then " " + Collapse(s[SpacesEnd(s, 0)..])
    else [s[0]] + Collapse(s[1..])
  }

  /** `normalizeContent`. */
  function NormalizeContent(content: string): string {
    Trim(Collapse(content))
  }

  /** White space only as single plain spaces. */
  predicate Collapsed(s: string) {
    (forall i :: 0 <= i < |s| && IsJsSpace(s[i]) ==> s[i] == ' ') &&
    (forall i :: 0 <= i < |s| - 1 && IsJsSpace(s[i]) ==> !IsJsSpace(s[i + 1]))
  }

  predicate NotSpace(c: char) { !IsJsSpace(c) }

  /** The non-space characters of `s`, in order. */
  function Visible(s: string): string {
    Filter(s, NotSpace)
  }

  lemma {:induction false} CollapseShape(s: string)
    ensures Collapsed(Collapse(s))
    ensures Collapse(s) == [] <==> s == []
    ensures s != [] ==> (IsJsSpace(Collapse(s)[0]) <==> IsJsSpace(s[0]))
    decreases |s|
  {
    if s != [] {
      if IsJsSpace(s[0]) {
        CollapseShape(s[SpacesEnd(s, 0)..]);
      } else {
        CollapseShape(s[1..]);
      }
    }
  }

  lemma {:induction false} CollapseVisible(s: string)
    ensures Visible(Collapse(s)) == Visible(s)
    decreases |s|
  {
    if s != [] {
      if IsJsSpace(s[0]) {
        var k := SpacesEnd(s, 0);
        var rest := Collapse(s[k..]);
        CollapseVisible(s[k..]);
        assert s == s[..k] + s[k..];
        SpacesHaveNoText(s[..k]);
        FilterAppend(s[..k], s[k..], NotSpace);
        FilterCons(' ', rest, NotSpace);
        assert Collapse(s) == [' '] + rest;
      } else {
        CollapseVisible(s[1..]);
        assert s == [s[0]] + s[1..];
        FilterCons(s[0], s[1..], NotSpace);
        FilterCons(s[0], Collapse(s[1..]), NotSpace);
      }
    }
  }

  lemma {:induction false} SpacesHaveNoText(s: string)
    requires forall i :: 0 <= i < |s| ==> IsJsSpace(s[i])
    ensures Visible(s) == []
  {
    if s != [] {
      SpacesHaveNoText(s[1..]);
    }
  }

  lemma {:induction false} CollapseFixed(s: string)
    requires Collapsed(s)
    ensures Collapse(s) == s
    decreases |s|
  {
    if s != [] {
      if IsJsSpace(s[0]) {
        assert SpacesEnd(s, 0) == 1 by {
          if |s| > 1 { assert !IsJsSpace(s[1]); }
        }
        CollapseFixed(s[1..]);
      } else {
        CollapseFixed(s[1..]);
      }
    }
  }

  /** Trimming keeps the non-space characters. */
  lemma TrimKeepsVisible(c: string)
    ensures Visible(Trim(c)) == Visible(c)
  {
    var n := Trim(c);
    var k := SpacesEnd(c, 0);
    assert c == c[..k] + n + c[k + |n|..];
    SpacesHaveNoText(c[..k]);
    SpacesHaveNoText(c[k + |n|..]);
    FilterAppend(c[..k] + n, c[k + |n|..], NotSpace);
    FilterAppend(c[..k], n, NotSpace);
  }

  /** A piece of collapsed text is collapsed. */
  lemma SliceCollapsed(c: string, lo: nat, hi: nat)
    requires lo <= hi <= |c| && Collapsed(c)
    ensures Collapsed(c[lo..hi])
  {
    var n := c[lo..hi];
    forall i | 0 <= i < |n| - 1 && IsJsSpace(n[i]) ensures !IsJsSpace(n[i + 1]) {
      assert n[i] == c[lo + i] && n[i + 1] == c[lo + i + 1];
    }
  }

  /** Normalised content has no space at either end, only single plain
      spaces inside, the same non-space characters as the input, and is
      unchanged by normalising again. */
  lemma NormalizeContentProperties(s: string)
    ensures var n := NormalizeContent(s);
      (n == [] || (!IsJsSpace(n[0]) && !IsJsSpace(n[|n| - 1]))) &&
      Collapsed(n) && Visible(n) == Visible(s) &&
      NormalizeContent(n) == n
  {
    var c := Collapse(s);
    var n := Trim(c);
    CollapseShape(s);
    CollapseVisible(s);
    TrimKeepsVisible(c);
    TrimCollapsed(c);
    CollapseFixed(n);
    TrimUnpadded(n);
  }

  lemma TrimCollapsed(c: string)
    requires Collapsed(c)
    ensures Collapsed(Trim(c))
  {
    var k := SpacesEnd(c, 0);
    SliceCollapsed(c, k, k + |Trim(c)|);
  }

  // ---------------------------------------------------------------------
  // ordering a group

  /** `combinedScore ?? relevanceScore ?? 0`. */
  function Score(r: SearchResult): real {
    r.combinedScore.GetOr(r.relevanceScore.GetOr(0.0))
  }

  /** Non-increasing by score. */
  predicate ByScoreDesc(xs: seq<SearchResult>) {
    forall i, j :: 0 <= i < j < |xs| ==> Score(xs[i]) >= Score(xs[j])
  }

  /** Puts `x` before the first element whose score is not above its own. */
  function InsertByScore(x: SearchResult, ys: seq<SearchResult>): seq<SearchResult> {
    if ys == [] || Score(x) >= Score(ys[0]) then [x] + ys
    else [ys[0]] + InsertByScore(x, ys[1..])
  }

  /** `[...group].sort((a, b) => scoreB - scoreA)`: a stable sort, highest
      score first. */
  function SortByScore(xs: seq<SearchResult>): seq<SearchResult> {
    if xs == [] then [] else InsertByScore(xs[0], SortByScore(xs[1..]))
  }

  /** The elements of `xs` with score `v`, in order. */
  function WithScore(xs: seq<SearchResult>, v: real): seq<SearchResult> {
    if xs == [] then [] else (if Score(xs[0]) == v then [xs[0]] else []) + WithScore(xs[1..], v)
  }

  lemma {:induction false} InsertByScoreMembers(x: SearchResult, ys: seq<SearchResult>)
    ensures |InsertByScore(x, ys)| == |ys| + 1
    ensures forall z :: z in InsertByScore(x, ys) <==> z == x || z in ys
  {
    if ys != [] && Score(x) < Score(ys[0]) {
      InsertByScoreMembers(x, ys[1..]);
      assert forall z :: z in ys <==> z == ys[0] || z in ys[1..];
    }
  }

  lemma {:induction false} InsertByScoreUpperBound(x: SearchResult, ys: seq<SearchResult>, hi: real)
    requires Score(x) <= hi
    requires forall i :: 0 <= i < |ys| ==> Score(ys[i]) <= hi
    ensures forall i :: 0 <= i < |InsertByScore(x, ys)| ==> Score(InsertByScore(x, ys)[i]) <= hi
  {
    if ys != [] && Score(x) < Score(ys[0]) {
      InsertByScoreUpperBound(x, ys[1..], hi);
    }
  }

  lemma {:induction false} InsertByScoreSorted(x: SearchResult, ys: seq<SearchResult>)
    requires ByScoreDesc(ys)
    ensures ByScoreDesc(InsertByScore(x, ys))
  {
    if ys != [] && Score(x) < Score(ys[0]) {
      InsertByScoreSorted(x, ys[1..]);
      InsertByScoreUpperBound(x, ys[1..], Score(ys[0]));
    }
  }

  lemma {:induction false} InsertByScoreMultiset(x: SearchResult, ys: seq<SearchResult>)
    ensures multiset(InsertByScore(x, ys)) == multiset([x] + ys)
  {
    if ys != [] && Score(x) < Score(ys[0]) {
      InsertByScoreMultiset(x, ys[1..]);
      assert ys == [ys[0]] + ys[1..];
    }
  }

  lemma WithScoreCons(y: SearchResult, zs: seq<SearchResult>, v: real)
    ensures WithScore([y] + zs, v) == (if Score(y) == v then [y] else []) + WithScore(zs, v)
  {
    assert ([y] + zs)[1..] == zs;
  }

  lemma {:induction false} InsertByScoreWithScore(x: SearchResult, ys: seq<SearchResult>, v: real)
    ensures WithScore(InsertByScore(x, ys), v) == (if Score(x) == v then [x] else []) + WithScore(ys, v)
  {
    if ys == [] || Score(x) >= Score(ys[0]) {
      WithScoreCons(x, ys, v);
    } else {
      var rest := InsertByScore(x, ys[1..]);
      var hx := if Score(x) == v then [x] else [];
      var hy := if Score(ys[0]) == v then [ys[0]] else [];
      InsertByScoreWithScore(x, ys[1..], v);
      WithScoreCons(ys[0], rest, v);
      WithScoreCons(ys[0], ys[1..], v);
      assert [ys[0]] + ys[1..] == ys;
      assert hx == [] || hy == [];
      assert hy + (hx + WithScore(ys[1..], v)) == hx + (hy + WithScore(ys[1..], v));
    }
  }

  /** The ordered group is highest score first, a permutation of the group,
      and stable: results of equal score keep their input order. */
  lemma {:induction false} SortByScoreCorrect(xs: seq<SearchResult>)
    ensures ByScoreDesc(SortByScore(xs))
    ensures |SortByScore(xs)| == |xs|
    ensures multiset(SortByScore(xs)) == multiset(xs)
    ensures forall v :: WithScore(SortByScore(xs), v) == WithScore(xs, v)
  {
    if xs != [] {
      SortByScoreCorrect(xs[1..]);
      InsertByScoreSorted(xs[0], SortByScore(xs[1..]));
      InsertByScoreMembers(xs[0], SortByScore(xs[1..]));
      InsertByScoreMultiset(xs[0], SortByScore(xs[1..]));
      assert xs == [xs[0]] + xs[1..];
      forall v ensures WithScore(SortByScore(xs), v) == WithScore(xs, v) {
        InsertByScoreWithScore(xs[0], SortByScore(xs[1..]), v);
      }
    }
  }

  lemma SortByScoreMembers(xs: seq<SearchResult>)
    ensures forall x :: x in SortByScore(xs) <==> x in xs
  {
    SortByScoreCorrect(xs);
    forall x ensures x in SortByScore(xs) <==> x in xs {
      assert x in SortByScore(xs) <==> x in multiset(SortByScore(xs));
      assert x in xs <==> x in multiset(xs);
    }
  }

  // ---------------------------------------------------------------------
  // keeping the distinct results of a group

  /** The `isDuplicate` test of a candidate against one kept result: never
      across paths; by line overlap when both ranges parse; otherwise by
      equal normalised content. */
  predicate IsDuplicate(candidate: SearchResult, existing: SearchResult, threshold: real) {
    if candidate.path != existing.path then false
    else
      var cr := ParseLineRange(candidate.lines);
      var er := ParseLineRange(existing.lines);
      if cr.Some? && er.Some? then OverlapRatio(cr.value, er.value) >= threshold
      else NormalizeContent(candidate.content) == NormalizeContent(existing.content)
  }

  /** Being a duplicate does not depend on which result came first. */
  lemma IsDuplicateSymmetric(a: SearchResult, b: SearchResult, threshold: real)
    ensures IsDuplicate(a, b, threshold) == IsDuplicate(b, a, threshold)
  {
    var ar := ParseLineRange(a.lines);
    var br := ParseLineRange(b.lines);
    if ar.Some? && br.Some? {
      OverlapRatioProperties(ar.value, br.value);
    }
  }

  /** `kept.some(existing => isDuplicate)`. */
  predicate DuplicateOfKept(candidate: SearchResult, kept: seq<SearchResult>, threshold: real) {
    exists i :: 0 <= i < |kept| && IsDuplicate(candidate, kept[i], threshold)
  }

  /** What the `kept` array holds after the loop over `ordered`. */
  function Kept(ordered: seq<SearchResult>, threshold: real): seq<SearchResult> {
    if ordered == [] then []
    else
      var kept := Kept(ordered[..|ordered| - 1], threshold);
      var candidate := ordered[|ordered| - 1];
      if DuplicateOfKept(candidate, kept, threshold) then kept else kept + [candidate]
  }

  /** `kept.some(...)`, stopping at the first duplicate. */
  method AnyDuplicate(candidate: SearchResult, kept: seq<SearchResult>, threshold: real) returns (found: bool)
    ensures found == DuplicateOfKept(candidate, kept, threshold)
  {
    var j := 0;
    while j < |kept|
      invariant 0 <= j <= |kept|
      invariant forall i :: 0 <= i < j ==> !IsDuplicate(candidate, kept[i], threshold)
    {
      if IsDuplicate(candidate, kept[j], threshold) {
        return true;
      }
      j := j + 1;
    }
    return false;
  }

  /** The loop over one ordered group (src/internal/retrieval/dedupe.ts:62-85). */
  method KeepDistinct(ordered: seq<SearchResult>, threshold: real) returns (kept: seq<SearchResult>)
    ensures kept == Kept(ordered, threshold)
  {
    kept := [];
    for i := 0 to |ordered|
      invariant kept == Kept(ordered[..i], threshold)
    {
      var candidate := ordered[i];
      var isDuplicate := AnyDuplicate(candidate, kept, threshold);
      assert ordered[..i + 1][..i] == ordered[..i];
      if !isDuplicate {
        kept := kept + [candidate];
      }
    }
    assert ordered[..|ordered|] == ordered;
  }

  /** The kept results are a subsequence of the ordered group. */
  lemma {:induction false} KeptSubseq(xs: seq<SearchResult>, threshold: real)
    ensures IsSubseq(Kept(xs, threshold), xs)
  {
    if xs == [] {
    } else {
      var init := xs[..|xs| - 1];
      KeptSubseq(init, threshold);
      SubseqSnoc(Kept(init, threshold), init, xs[|xs| - 1]);
      assert init + [xs[|xs| - 1]] == xs;
    }
  }

  lemma KeptMembers(xs: seq<SearchResult>, threshold: real)
    ensures forall x :: x in Kept(xs, threshold) ==> x in xs
  {
    KeptSubseq(xs, threshold);
    SubseqMembers(Kept(xs, threshold), xs);
  }

  /** The first result of the ordered group is always kept, first. */
  lemma {:induction false} KeptHead(xs: seq<SearchResult>, threshold: real)
    requires xs != []
    ensures Kept(xs, threshold) != [] && Kept(xs, threshold)[0] == xs[0]
  {
    var init := xs[..|xs| - 1];
    if init != [] {
      KeptHead(init, threshold);
    }
  }

  /** No result is a duplicate of one before it. */
  predicate NoDuplicates(k: seq<SearchResult>, threshold: real) {
    forall i, j :: 0 <= i < j < |k| ==> !IsDuplicate(k[j], k[i], threshold)
  }

  /** No kept result is a duplicate of one kept before it. */
  lemma {:induction false} KeptDistinct(xs: seq<SearchResult>, threshold: real)
    ensures NoDuplicates(Kept(xs, threshold), threshold)
  {
    if xs != [] {
      var init := xs[..|xs| - 1];
      var c := xs[|xs| - 1];
      var k0 := Kept(init, threshold);
      KeptDistinct(init, threshold);
      assert xs[..|xs| - 1] == init;
      if !DuplicateOfKept(c, k0, threshold) {
        var k := k0 + [c];
        assert Kept(xs, threshold) == k;
        forall i, j | 0 <= i < j < |k| ensures !IsDuplicate(k[j], k[i], threshold) {
          if j == |k0| {
            assert k[i] == k0[i] && k[j] == c;
            assert !IsDuplicate(c, k0[i], threshold);
          } else {
            assert k[i] == k0[i] && k[j] == k0[j];
          }
        }
      } else {
        assert Kept(xs, threshold) == k0;
      }
    }
  }

  lemma DuplicateOfKeptGrow(x: SearchResult, kept: seq<SearchResult>, c: SearchResult, threshold: real)
    requires DuplicateOfKept(x, kept, threshold)
    ensures DuplicateOfKept(x, kept + [c], threshold)
  {
    var i :| 0 <= i < |kept| && IsDuplicate(x, kept[i], threshold);
    assert (kept + [c])[i] == kept[i];
  }

  /** Every dropped result is a duplicate of a kept one. */
  lemma {:induction false} KeptCovers(xs: seq<SearchResult>, threshold: real)
    ensures forall x :: x in xs ==> x in Kept(xs, threshold) || DuplicateOfKept(x, Kept(xs, threshold), threshold)
  {
    if xs != [] {
      var init := xs[..|xs| - 1];
      var c := xs[|xs| - 1];
      var k := Kept(init, threshold);
      KeptCovers(init, threshold);
      assert xs == init + [c];
      if !DuplicateOfKept(c, k, threshold) {
        forall x | x in init && x !in k ensures DuplicateOfKept(x, k + [c], threshold) {
          DuplicateOfKeptGrow(x, k, c, threshold);
        }
      }
    }
  }

  /** Keeping a subsequence of an ordered group keeps it ordered. */
  lemma {:induction false} KeptSorted(xs: seq<SearchResult>, threshold: real)
    requires ByScoreDesc(xs)
    ensures ByScoreDesc(Kept(xs, threshold))
  {
    if xs != [] {
      var init := xs[..|xs| - 1];
      var c := xs[|xs| - 1];
      var k0 := Kept(init, threshold);
      KeptSorted(init, threshold);
      KeptMembers(init, threshold);
      if !DuplicateOfKept(c, k0, threshold) {
        var k := k0 + [c];
        forall i, j | 0 <= i < j < |k| ensures Score(k[i]) >= Score(k[j]) {
          assert k[i] == k0[i];
          if j == |k0| {
            assert k0[i] in k0;
            var m :| 0 <= m < |init| && init[m] == k0[i];
            assert xs[m] == init[m];
          } else {
            assert k[j] == k0[j];
          }
        }
      }
    }
  }

  // ---------------------------------------------------------------------
  // grouping by path

  /** The keys of the `grouped` Map in insertion order: every path once, at
      its first appearance. */
  function PathsOf(xs: seq<SearchResult>): seq<string> {
    if xs == [] then []
    else
      var keys := PathsOf(xs[..|xs| - 1]);
      if xs[|xs| - 1].path in keys then keys else keys + [xs[|xs| - 1].path]
  }

  /** The array the `grouped` Map holds for path `k`: the results with that
      path, in input order. */
  function Group(xs: seq<SearchResult>, k: string): seq<SearchResult> {
    if xs == [] then []
    else Group(xs[..|xs| - 1], k) + (if xs[|xs| - 1].path == k then [xs[|xs| - 1]] else [])
  }

  predicate Distinct(keys: seq<string>) {
    forall i, j :: 0 <= i < j < |keys| ==> keys[i] != keys[j]
  }

  /** Some result with path `p` comes before every result with path `q`. */
  predicate FirstAppearsBefore(xs: seq<SearchResult>, p: string, q: string) {
    exists i :: 0 <= i < |xs| && xs[i].path == p && forall j :: 0 <= j <= i ==> xs[j].path != q
  }

  /** Fills the `grouped` Map (src/internal/retrieval/dedupe.ts:43-51); the
      Map is its key order `keys` together with its contents `grouped`. */
  method GroupByPath(results: seq<SearchResult>) returns (keys: seq<string>, grouped: map<string, seq<SearchResult>>)
    ensures keys == PathsOf(results)
    ensures forall k :: k in grouped <==> k in keys
    ensures forall k :: k in grouped ==> grouped[k] == Group(results, k)
  {
    keys := [];
    grouped := map[];
    for i := 0 to |results|
      invariant keys == PathsOf(results[..i])
      invariant forall k :: k in grouped <==> k in keys
      invariant forall k :: k in grouped ==> grouped[k] == Group(results[..i], k)
    {
      var result := results[i];
      var key := result.path;
      assert results[..i + 1][..i] == results[..i];
      assert results[..i + 1][i] == result;
      if key !in grouped {
        GroupOutsidePaths(results[..i], key);
        grouped := grouped[key := []];
        keys := keys + [key];
      }
      grouped := grouped[key := grouped[key] + [result]];
    }
    assert results[..|results|] == results;
  }

  lemma {:induction false} PathsOfMembers(xs: seq<SearchResult>)
    ensures forall k :: k in PathsOf(xs) <==> exists j :: 0 <= j < |xs| && xs[j].path == k
  {
    if xs != [] {
      var init := xs[..|xs| - 1];
      PathsOfMembers(init);
      forall k ensures k in PathsOf(xs) <==> exists j :: 0 <= j < |xs| && xs[j].path == k {
        if exists j :: 0 <= j < |xs| && xs[j].path == k {
          var j :| 0 <= j < |xs| && xs[j].path == k;
          if j < |init| {
            assert init[j] == xs[j];
          }
        }
        if k in PathsOf(init) {
          var j :| 0 <= j < |init| && init[j].path == k;
          assert xs[j] == init[j];
        }
      }
    }
  }

  lemma {:induction false} PathsOfDistinct(xs: seq<SearchResult>)
    ensures Distinct(PathsOf(xs))
  {
    if xs != [] {
      PathsOfDistinct(xs[..|xs| - 1]);
    }
  }

  /** The paths come in order of first appearance. */
  lemma {:induction false} PathsOfOrder(xs: seq<SearchResult>)
    ensures forall a, b :: 0 <= a < b < |PathsOf(xs)| ==> FirstAppearsBefore(xs, PathsOf(xs)[a], PathsOf(xs)[b])
  {
    if xs != [] {
      var init := xs[..|xs| - 1];
      var last := xs[|xs| - 1];
      var p0 := PathsOf(init);
      var ps := PathsOf(xs);
      PathsOfOrder(init);
      PathsOfMembers(init);
      forall a, b | 0 <= a < b < |ps| ensures FirstAppearsBefore(xs, ps[a], ps[b]) {
        assert ps[a] == p0[a];
        if b < |p0| {
          assert ps[b] == p0[b];
          var i :| 0 <= i < |init| && init[i].path == p0[a] && forall j :: 0 <= j <= i ==> init[j].path != p0[b];
          assert xs[i] == init[i];
          assert forall j :: 0 <= j <= i ==> xs[j] == init[j];
        } else {
          assert ps[b] == last.path && last.path !in p0;
          assert p0[a] in p0;
          var i :| 0 <= i < |init| && init[i].path == p0[a];
          assert xs[i] == init[i];
          forall j | 0 <= j <= i ensures xs[j].path != last.path {
            assert xs[j] == init[j];
          }
        }
      }
    }
  }

  lemma {:induction false} GroupMembers(xs: seq<SearchResult>, k: string)
    ensures forall x :: x in Group(xs, k) <==> x in xs && x.path == k
  {
    if xs != [] {
      var init := xs[..|xs| - 1];
      GroupMembers(init, k);
      assert xs == init + [xs[|xs| - 1]];
    }
  }

  /** A path that does not occur has an empty group. */
  lemma {:induction false} GroupOutsidePaths(xs: seq<SearchResult>, k: string)
    requires k !in PathsOf(xs)
    ensures Group(xs, k) == []
  {
    if xs != [] {
      var init := xs[..|xs| - 1];
      assert forall p :: p in PathsOf(init) ==> p in PathsOf(xs);
      GroupOutsidePaths(init, k);
    }
  }

  lemma {:induction false} GroupAppend(a: seq<SearchResult>, b: seq<SearchResult>, k: string)
    ensures Group(a + b, k) == Group(a, k) + Group(b, k)
    decreases |b|
  {
    if b != [] {
      var bi := b[..|b| - 1];
      assert (a + b)[..|a + b| - 1] == a + bi;
      assert (a + b)[|a + b| - 1] == b[|b| - 1];
      GroupAppend(a, bi, k);
    } else {
      assert a + b == a;
    }
  }

  lemma {:induction false} GroupOfOnePath(xs: seq<SearchResult>, p: string, k: string)
    requires forall x :: x in xs ==> x.path == p
    ensures Group(xs, k) == if k == p then xs else []
  {
    if xs != [] {
      var init := xs[..|xs| - 1];
      var last := xs[|xs| - 1];
      assert xs == init + [last];
      assert forall x :: x in init ==> x in xs;
      GroupOfOnePath(init, p, k);
      assert last in xs;
      assert Group(xs, k) == Group(init, k) + (if last.path == k then [last] else []);
      if k == p {
        assert Group(xs, k) == init + [last];
      } else {
        assert Group(xs, k) == [] + [];
      }
    }
  }

  /** The group of a path is a subsequence of the input. */
  lemma {:induction false} GroupSubseq(xs: seq<SearchResult>, k: string)
    ensures IsSubseq(Group(xs, k), xs)
  {
    if xs == [] {
    } else {
      var init := xs[..|xs| - 1];
      GroupSubseq(init, k);
      SubseqSnoc(Group(init, k), init, xs[|xs| - 1]);
      assert init + [xs[|xs| - 1]] == xs;
      assert Group(init, k) + [] == Group(init, k);
    }
  }

  // ---------------------------------------------------------------------
  // dedupeResults

  /** The kept results of one path, in kept order. */
  function Block(results: seq<SearchResult>, k: string, threshold: real): seq<SearchResult> {
    Kept(SortByScore(Group(results, k)), threshold)
  }

  /** The blocks of `keys`, one after the other. */
  function Blocks(results: seq<SearchResult>, keys: seq<string>, threshold: real): seq<SearchResult> {
    if keys == [] then []
    else Blocks(results, keys[..|keys| - 1], threshold) + Block(results, keys[|keys| - 1], threshold)
  }

  /** What `dedupeResults` returns for the threshold in force. */
  function Deduped(results: seq<SearchResult>, threshold: real): seq<SearchResult> {
    Blocks(results, PathsOf(results), threshold)
  }

  lemma BlocksSnoc(results: seq<SearchResult>, keys: seq<string>, i: nat, threshold: real)
    requires i < |keys|
    ensures Blocks(results, keys[..i + 1], threshold) == Blocks(results, keys[..i], threshold) + Block(results, keys[i], threshold)
  {
    assert keys[..i + 1][..i] == keys[..i];
  }

  /** `dedupeResults(results, { overlapThreshold })`. */
  method DedupeResults(results: seq<SearchResult>, overlapThreshold: Option<real>) returns (deduped: seq<SearchResult>)
    ensures deduped == Deduped(results, overlapThreshold.GetOr(DEFAULT_OVERLAP_THRESHOLD))
  {
    var threshold := overlapThreshold.GetOr(DEFAULT_OVERLAP_THRESHOLD);
    var keys, grouped := GroupByPath(results);
    deduped := [];
    for i := 0 to |keys|
      invariant deduped == Blocks(results, keys[..i], threshold)
    {
      var kept := KeepDistinct(SortByScore(grouped[keys[i]]), threshold);
      BlocksSnoc(results, keys, i, threshold);
      deduped := deduped + kept;
    }
    assert keys[..|keys|] == keys;
  }

  // ---------------------------------------------------------------------
  // what the output promises

  /** A block holds input results of its own path, highest score first,
      with no duplicate of an earlier one. */
  lemma BlockFacts(results: seq<SearchResult>, k: string, threshold: real)
    ensures forall x :: x in Block(results, k, threshold) ==> x in results && x.path == k
    ensures ByScoreDesc(Block(results, k, threshold))
    ensures NoDuplicates(Block(results, k, threshold), threshold)
  {
    var g := Group(results, k);
    GroupMembers(results, k);
    SortByScoreMembers(g);
    SortByScoreCorrect(g);
    KeptMembers(SortByScore(g), threshold);
    KeptSorted(SortByScore(g), threshold);
    KeptDistinct(SortByScore(g), threshold);
  }

  lemma {:induction false} BlocksMembers(results: seq<SearchResult>, keys: seq<string>, threshold: real)
    ensures forall x :: x in Blocks(results, keys, threshold) ==> x in results && x.path in keys
  {
    if keys != [] {
      var init := keys[..|keys| - 1];
      BlocksMembers(results, init, threshold);
      BlockFacts(results, keys[|keys| - 1], threshold);
      assert forall p :: p in init ==> p in keys;
    }
  }

  lemma {:induction false} BlockIn(results: seq<SearchResult>, keys: seq<string>, m: nat, threshold: real)
    requires m < |keys|
    ensures forall y :: y in Block(results, keys[m], threshold) ==> y in Blocks(results, keys, threshold)
  {
    var init := keys[..|keys| - 1];
    var d0 := Blocks(results, init, threshold);
    var b := Block(results, keys[|keys| - 1], threshold);
    assert Blocks(results, keys, threshold) == d0 + b;
    if m < |init| {
      assert init[m] == keys[m];
      BlockIn(results, init, m, threshold);
    }
  }

  /** Path `p` comes before path `q` in `keys`. */
  predicate KeyBefore(keys: seq<string>, p: string, q: string) {
    exists a, b :: 0 <= a < b < |keys| && keys[a] == p && keys[b] == q
  }

  /** Results of different paths are in the order of their paths in `keys`. */
  predicate BlockOrdered(d: seq<SearchResult>, keys: seq<string>) {
    forall i, j :: 0 <= i < j < |d| && d[i].path != d[j].path ==> KeyBefore(keys, d[i].path, d[j].path)
  }

  lemma {:induction false} BlocksOrder(results: seq<SearchResult>, keys: seq<string>, threshold: real)
    ensures BlockOrdered(Blocks(results, keys, threshold), keys)
  {
    if keys != [] {
      var init := keys[..|keys| - 1];
      var last := keys[|keys| - 1];
      var d0 := Blocks(results, init, threshold);
      var b := Block(results, last, threshold);
      var d := d0 + b;
      BlocksOrder(results, init, threshold);
      BlocksMembers(results, init, threshold);
      BlockFacts(results, last, threshold);
      forall i, j | 0 <= i < j < |d| ensures d[i].path != d[j].path ==> KeyBefore(keys, d[i].path, d[j].path) {
        if j < |d0| {
          assert d[i] == d0[i] && d[j] == d0[j];
          if d[i].path != d[j].path {
            var a, c :| 0 <= a < c < |init| && init[a] == d0[i].path && init[c] == d0[j].path;
            assert keys[a] == init[a] && keys[c] == init[c];
          }
        } else {
          assert d[j] == b[j - |d0|];
          assert b[j - |d0|] in b;
          if i < |d0| {
            assert d[i] == d0[i];
            assert d0[i] in d0;
            var a :| 0 <= a < |init| && init[a] == d0[i].path;
            assert keys[a] == init[a];
          } else {
            assert d[i] == b[i - |d0|];
            assert b[i - |d0|] in b;
          }
        }
      }
    }
  }

  /** Within one path: highest score first, and no duplicate of an earlier result. */
  predicate WellGrouped(d: seq<SearchResult>, threshold: real) {
    forall i, j :: 0 <= i < j < |d| && d[i].path == d[j].path ==>
      Score(d[i]) >= Score(d[j]) && !IsDuplicate(d[j], d[i], threshold)
  }

  lemma {:induction false} BlocksWellGrouped(results: seq<SearchResult>, keys: seq<string>, threshold: real)
    requires Distinct(keys)
    ensures WellGrouped(Blocks(results, keys, threshold), threshold)
  {
    if keys != [] {
      var init := keys[..|keys| - 1];
      var last := keys[|keys| - 1];
      var d0 := Blocks(results, init, threshold);
      var b := Block(results, last, threshold);
      var d := d0 + b;
      BlocksWellGrouped(results, init, threshold);
      BlocksMembers(results, init, threshold);
      BlockFacts(results, last, threshold);
      forall i, j | 0 <= i < j < |d|
        ensures d[i].path == d[j].path ==> Score(d[i]) >= Score(d[j]) && !IsDuplicate(d[j], d[i], threshold)
      {
        if j < |d0| {
          assert d[i] == d0[i] && d[j] == d0[j];
        } else if i >= |d0| {
          assert d[i] == b[i - |d0|] && d[j] == b[j - |d0|];
        } else {
          assert d[i] == d0[i] && d0[i] in d0;
          assert d[j] == b[j - |d0|] && b[j - |d0|] in b;
          assert last !in init;
          assert d[i].path != d[j].path;
        }
      }
    }
  }

  lemma {:induction false} BlocksGroup(results: seq<SearchResult>, keys: seq<string>, threshold: real, k: string)
    requires Distinct(keys)
    ensures Group(Blocks(results, keys, threshold), k) == if k in keys then Block(results, k, threshold) else []
  {
    if keys != [] {
      var init := keys[..|keys| - 1];
      var last := keys[|keys| - 1];
      var d0 := Blocks(results, init, threshold);
      var b := Block(results, last, threshold);
      assert Blocks(results, keys, threshold) == d0 + b;
      BlocksGroup(results, init, threshold, k);
      GroupAppend(d0, b, k);
      BlockFacts(results, last, threshold);
      GroupOfOnePath(b, last, k);
      assert k in keys <==> k in init || k == last;
      if k == last {
        assert last !in init;
        assert Group(d0, k) == [];
        assert Group(b, k) == b;
        assert [] + b == b;
      } else {
        assert Group(b, k) == [];
        assert Group(d0, k) + [] == Group(d0, k);
      }
    }
  }

  /** The results of path `k` in the output are exactly those kept from its
      group ordered by score: a subsequence of that ordered group. */
  lemma DedupedByPath(results: seq<SearchResult>, threshold: real, k: string)
    ensures Group(Deduped(results, threshold), k) == Kept(SortByScore(Group(results, k)), threshold)
    ensures IsSubseq(Group(Deduped(results, threshold), k), SortByScore(Group(results, k)))
  {
    PathsOfDistinct(results);
    BlocksGroup(results, PathsOf(results), threshold, k);
    if k !in PathsOf(results) {
      GroupOutsidePaths(results, k);
    }
    KeptSubseq(SortByScore(Group(results, k)), threshold);
  }

  /** Every output result is an input result. */
  lemma DedupedMembers(results: seq<SearchResult>, threshold: real)
    ensures forall x :: x in Deduped(results, threshold) ==> x in results
  {
    BlocksMembers(results, PathsOf(results), threshold);
  }

  /** Results of different paths come in the order in which the paths first
      appear in the input; so each path's results are contiguous. */
  lemma DedupedOrder(results: seq<SearchResult>, threshold: real)
    ensures var d := Deduped(results, threshold);
      forall i, j :: 0 <= i < j < |d| && d[i].path != d[j].path ==>
        FirstAppearsBefore(results, d[i].path, d[j].path)
  {
    var ps := PathsOf(results);
    var d := Deduped(results, threshold);
    BlocksOrder(results, ps, threshold);
    PathsOfOrder(results);
    forall i, j | 0 <= i < j < |d| && d[i].path != d[j].path
      ensures FirstAppearsBefore(results, d[i].path, d[j].path)
    {
      assert KeyBefore(ps, d[i].path, d[j].path);
    }
  }

  /** Within one path the output is highest score first, and no result is
      a duplicate of another, in either direction. */
  lemma DedupedWithinPath(results: seq<SearchResult>, threshold: real)
    ensures var d := Deduped(results, threshold);
      forall i, j :: 0 <= i < j < |d| && d[i].path == d[j].path ==>
        Score(d[i]) >= Score(d[j]) && !IsDuplicate(d[j], d[i], threshold) && !IsDuplicate(d[i], d[j], threshold)
  {
    var d := Deduped(results, threshold);
    PathsOfDistinct(results);
    BlocksWellGrouped(results, PathsOf(results), threshold);
    forall i, j | 0 <= i < j < |d| && d[i].path == d[j].path
      ensures !IsDuplicate(d[i], d[j], threshold)
    {
      IsDuplicateSymmetric(d[i], d[j], threshold);
    }
  }

  /** No other result of its path scores above `y`. */
  predicate TopOfPath(results: seq<SearchResult>, y: SearchResult) {
    forall z :: z in results && z.path == y.path ==> Score(z) <= Score(y)
  }

  /** The first result of an ordered group scores at least as high as every
      result of the group. */
  lemma SortedHeadIsTop(g: seq<SearchResult>)
    requires g != []
    ensures SortByScore(g) != [] && SortByScore(g)[0] in g
    ensures forall z :: z in g ==> Score(z) <= Score(SortByScore(g)[0])
  {
    var sorted := SortByScore(g);
    SortByScoreMembers(g);
    SortByScoreCorrect(g);
    assert sorted[0] in sorted;
    forall z | z in g ensures Score(z) <= Score(sorted[0]) {
      var t :| 0 <= t < |sorted| && sorted[t] == z;
      if t > 0 { assert Score(sorted[0]) >= Score(sorted[t]); }
    }
  }

  lemma KeepsTopOf(results: seq<SearchResult>, threshold: real, x: SearchResult)
    requires x in results
    ensures exists y :: y in Deduped(results, threshold) && y.path == x.path && TopOfPath(results, y)
  {
    var ps := PathsOf(results);
    var k := x.path;
    PathsOfMembers(results);
    var j :| 0 <= j < |results| && results[j] == x;
    assert k in ps;
    var m :| 0 <= m < |ps| && ps[m] == k;
    var g := Group(results, k);
    GroupMembers(results, k);
    assert x in g;
    SortedHeadIsTop(g);
    KeptHead(SortByScore(g), threshold);
    var y := SortByScore(g)[0];
    BlockIn(results, ps, m, threshold);
    assert y in Block(results, ps[m], threshold);
    assert TopOfPath(results, y);
  }

  /** The highest-scored result of every path is kept. */
  lemma DedupedKeepsTop(results: seq<SearchResult>, threshold: real)
    ensures forall x :: x in results ==>
      exists y :: y in Deduped(results, threshold) && y.path == x.path && TopOfPath(results, y)
  {
    forall x | x in results
      ensures exists y :: y in Deduped(results, threshold) && y.path == x.path && TopOfPath(results, y)
    {
      KeepsTopOf(results, threshold, x);
    }
  }

  /** Every dropped result is a duplicate of a kept one of its path. */
  lemma DedupedCovers(results: seq<SearchResult>, threshold: real)
    ensures forall x :: x in results ==>
      x in Deduped(results, threshold) || exists y :: y in Deduped(results, threshold) && IsDuplicate(x, y, threshold)
  {
    var ps := PathsOf(results);
    PathsOfMembers(results);
    forall x | x in results
      ensures x in Deduped(results, threshold) || exists y :: y in Deduped(results, threshold) && IsDuplicate(x, y, threshold)
    {
      var k := x.path;
      var j :| 0 <= j < |results| && results[j] == x;
      assert k in ps;
      var m :| 0 <= m < |ps| && ps[m] == k;
      var g := Group(results, k);
      var sorted := SortByScore(g);
      GroupMembers(results, k);
      SortByScoreMembers(g);
      KeptCovers(sorted, threshold);
      BlockIn(results, ps, m, threshold);
      if x !in Block(results, k, threshold) {
        var kept := Block(results, k, threshold);
        var i :| 0 <= i < |kept| && IsDuplicate(x, kept[i], threshold);
        assert kept[i] in kept;
      }
    }
  }
}
