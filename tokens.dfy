/** Maximal runs of the characters of one class, the shape of a global
    `match(/[class]+/g)` and of a `split(/[^class]+/)` with the empty pieces
    dropped. The query expander and the tool-inventory parser both tokenize
    this way, each with its own class. */
module Tokens {
  import opened Seqs
  import opened Text

  function Flush(cur: string): seq<string> {
    if cur == [] then [] else [cur]
  }

  /** The maximal runs of characters satisfying `p` in `s`, left to right,
      after the run `cur` already begun. */
  function Runs(s: string, cur: string, p: char -> bool): seq<string>
    decreases |s|
  {
    if s == [] then Flush(cur)
    else if p(s[0]) then Runs(s[1..], cur + [s[0]], p)
    else Flush(cur) + Runs(s[1..], [], p)
  }

  /** A non-empty string of characters satisfying `p`. */
  predicate IsRun(t: string, p: char -> bool) {
    t != [] && forall k :: 0 <= k < |t| ==> p(t[k])
  }

  function Concat(ts: seq<string>): string {
    if ts == [] then [] else ts[0] + Concat(ts[1..])
  }

  lemma {:induction false} ConcatAppend(a: seq<string>, b: seq<string>)
    ensures Concat(a + b) == Concat(a) + Concat(b)
  {
    if a != [] {
      assert (a + b)[1..] == a[1..] + b;
      ConcatAppend(a[1..], b);
    } else {
      assert a + b == b;
    }
  }

  lemma {:induction false} RunsShape(s: string, cur: string, p: char -> bool)
    requires forall k :: 0 <= k < |cur| ==> p(cur[k])
    ensures forall t :: t in Runs(s, cur, p) ==> IsRun(t, p)
    decreases |s|
  {
    if s != [] {
      if p(s[0]) {
        RunsShape(s[1..], cur + [s[0]], p);
      } else {
        RunsShape(s[1..], [], p);
      }
    }
  }

  lemma {:induction false} RunsConcat(s: string, cur: string, p: char -> bool)
    ensures Concat(Runs(s, cur, p)) == cur + Filter(s, p)
    decreases |s|
  {
    if s == [] {
      assert Concat(Flush(cur)) == cur by {
        if cur != [] { assert Flush(cur)[1..] == []; }
      }
    } else if p(s[0]) {
      RunsConcat(s[1..], cur + [s[0]], p);
    } else {
      RunsConcat(s[1..], [], p);
      ConcatAppend(Flush(cur), Runs(s[1..], [], p));
      assert Concat(Flush(cur)) == cur by {
        if cur != [] { assert Flush(cur)[1..] == []; }
      }
    }
  }

  /** Every run is non-empty and of the class, and together the runs hold
      exactly the characters of the class, in order. */
  lemma RunsMeaning(s: string, p: char -> bool)
    ensures forall t :: t in Runs(s, [], p) ==> IsRun(t, p)
    ensures Concat(Runs(s, [], p)) == Filter(s, p)
  {
    RunsShape(s, [], p);
    RunsConcat(s, [], p);
  }

  lemma {:induction false} RunsWord(t: string, rest: string, cur: string, p: char -> bool)
    requires forall k :: 0 <= k < |t| ==> p(t[k])
    ensures Runs(t + rest, cur, p) == Runs(rest, cur + t, p)
    decreases |t|
  {
    if t != [] {
      assert (t + rest)[0] == t[0] && (t + rest)[1..] == t[1..] + rest;
      assert forall k :: 0 <= k < |t[1..]| ==> p(t[1..][k]);
      RunsWord(t[1..], rest, cur + [t[0]], p);
      assert cur + [t[0]] + t[1..] == cur + t;
    } else {
      assert t + rest == rest && cur + t == cur;
    }
  }

  /** A separator of characters outside the class ends the current run. */
  lemma {:induction false} RunsSep(sep: string, rest: string, cur: string, p: char -> bool)
    requires sep != []
    requires forall k :: 0 <= k < |sep| ==> !p(sep[k])
    ensures Runs(sep + rest, cur, p) == Flush(cur) + Runs(rest, [], p)
    decreases |sep|
  {
    assert (sep + rest)[0] == sep[0] && (sep + rest)[1..] == sep[1..] + rest;
    if |sep| == 1 {
      assert sep[1..] + rest == rest;
    } else {
      RunsSep(sep[1..], rest, [], p);
    }
  }

  /** Runs joined by a separator of characters outside the class split back
      into themselves. */
  lemma {:induction false} RunsJoin(ts: seq<string>, sep: string, p: char -> bool)
    requires sep != []
    requires forall k :: 0 <= k < |sep| ==> !p(sep[k])
    requires forall t :: t in ts ==> IsRun(t, p)
    ensures Runs(Join(ts, sep), [], p) == ts
    decreases |ts|
  {
    if |ts| >= 1 {
      assert ts[0] in ts;
    }
    if |ts| == 1 {
      RunsWord(ts[0], [], [], p);
      assert ts[0] + [] == ts[0] && [] + ts[0] == ts[0];
      assert Join(ts, sep) == ts[0];
      assert Runs([], ts[0], p) == [ts[0]];
      assert ts == [ts[0]];
    } else if |ts| > 1 {
      var rest := Join(ts[1..], sep);
      RunsWord(ts[0], sep + rest, [], p);
      assert Join(ts, sep) == ts[0] + (sep + rest);
      assert [] + ts[0] == ts[0];
      RunsSep(sep, rest, ts[0], p);
      assert forall t :: t in ts[1..] ==> t in ts;
      RunsJoin(ts[1..], sep, p);
      assert ts == [ts[0]] + ts[1..];
    }
  }
}
