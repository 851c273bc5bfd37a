/** Keeping the first element of every key, in order: the shape shared by
    finding de-duplication and SARIF rule collection. */
module Uniq {
  import opened Wrappers
  import opened Seqs

  /** The elements of `xs` whose key is not in `seen` and has not occurred
      before them, in order. */
  function KeepFirst<T, K>(xs: seq<T>, key: T -> K, seen: set<K>): (r: seq<T>)
    ensures |r| <= |xs|
    ensures forall i :: 0 <= i < |r| ==> key(r[i]) !in seen
  {
    if xs == [] then []
    else if key(xs[0]) in seen then KeepFirst(xs[1..], key, seen)
    else [xs[0]] + KeepFirst(xs[1..], key, seen + {key(xs[0])})
  }

  lemma KeepFirstCons<T, K>(x: T, ys: seq<T>, key: T -> K, seen: set<K>)
    ensures KeepFirst([x] + ys, key, seen) ==
      if key(x) in seen then KeepFirst(ys, key, seen) else [x] + KeepFirst(ys, key, seen + {key(x)})
  {
    assert ([x] + ys)[1..] == ys;
  }

  predicate DistinctKeys<T, K(==)>(xs: seq<T>, key: T -> K) {
    forall i, j :: 0 <= i < j < |xs| ==> key(xs[i]) != key(xs[j])
  }

  /** The first element of `xs` with key `k`. */
  function FirstWithKey<T, K(==)>(xs: seq<T>, key: T -> K, k: K): (r: Option<T>)
    ensures r.Some? ==> r.value in xs && key(r.value) == k
    ensures r.None? <==> forall i :: 0 <= i < |xs| ==> key(xs[i]) != k
  {
    if xs == [] then None
    else if key(xs[0]) == k then Some(xs[0])
    else FirstWithKey(xs[1..], key, k)
  }

  /** The first element with key `k` in `a + b` is the one in `a` when `a` has one. */
  lemma {:induction false} FirstWithKeyAppend<T, K>(a: seq<T>, b: seq<T>, key: T -> K, k: K)
    ensures FirstWithKey(a + b, key, k) ==
      if FirstWithKey(a, key, k).Some? then FirstWithKey(a, key, k) else FirstWithKey(b, key, k)
  {
    if a == [] {
      assert a + b == b;
    } else {
      assert (a + b)[1..] == a[1..] + b;
      FirstWithKeyAppend(a[1..], b, key, k);
    }
  }

  /** No two kept elements share a key. */
  lemma {:induction false} KeepFirstDistinct<T, K>(xs: seq<T>, key: T -> K, seen: set<K>)
    ensures DistinctKeys(KeepFirst(xs, key, seen), key)
  {
    if xs != [] && key(xs[0]) !in seen {
      var rest := KeepFirst(xs[1..], key, seen + {key(xs[0])});
      KeepFirstDistinct(xs[1..], key, seen + {key(xs[0])});
      var r := [xs[0]] + rest;
      forall i, j | 0 <= i < j < |r| ensures key(r[i]) != key(r[j]) {
        assert r[j] == rest[j - 1];
        if i > 0 {
          assert r[i] == rest[i - 1];
        }
      }
    } else if xs != [] {
      KeepFirstDistinct(xs[1..], key, seen);
    }
  }

  /** The kept elements are a subsequence of the input. */
  lemma {:induction false} KeepFirstSubseq<T, K>(xs: seq<T>, key: T -> K, seen: set<K>)
    ensures IsSubseq(KeepFirst(xs, key, seen), xs)
  {
    if xs != [] {
      if key(xs[0]) in seen {
        KeepFirstSubseq(xs[1..], key, seen);
      } else {
        var r := KeepFirst(xs, key, seen);
        KeepFirstSubseq(xs[1..], key, seen + {key(xs[0])});
        assert r[0] == xs[0] && r[1..] == KeepFirst(xs[1..], key, seen + {key(xs[0])});
      }
    }
  }

  /** Every key of the input that is not in `seen` is the key of a kept element. */
  lemma {:induction false} KeepFirstCovers<T, K>(xs: seq<T>, key: T -> K, seen: set<K>, i: nat)
    requires i < |xs| && key(xs[i]) !in seen
    ensures exists j :: 0 <= j < |KeepFirst(xs, key, seen)| && key(KeepFirst(xs, key, seen)[j]) == key(xs[i])
  {
    var r := KeepFirst(xs, key, seen);
    if key(xs[0]) in seen {
      KeepFirstCovers(xs[1..], key, seen, i - 1);
    } else if i == 0 || key(xs[i]) == key(xs[0]) {
      assert key(r[0]) == key(xs[i]);
    } else {
      KeepFirstCovers(xs[1..], key, seen + {key(xs[0])}, i - 1);
      var j :| 0 <= j < |KeepFirst(xs[1..], key, seen + {key(xs[0])})| &&
        key(KeepFirst(xs[1..], key, seen + {key(xs[0])})[j]) == key(xs[i]);
      assert r[j + 1] == KeepFirst(xs[1..], key, seen + {key(xs[0])})[j];
    }
  }

  /** Each kept element is the first input element with its key. */
  lemma {:induction false} KeepFirstIsFirst<T, K>(xs: seq<T>, key: T -> K, seen: set<K>, j: nat)
    requires j < |KeepFirst(xs, key, seen)|
    ensures FirstWithKey(xs, key, key(KeepFirst(xs, key, seen)[j])) == Some(KeepFirst(xs, key, seen)[j])
  {
    var r := KeepFirst(xs, key, seen);
    var y := r[j];
    if key(xs[0]) in seen {
      KeepFirstIsFirst(xs[1..], key, seen, j);
    } else if j > 0 {
      var rest := KeepFirst(xs[1..], key, seen + {key(xs[0])});
      assert y == rest[j - 1];
      KeepFirstIsFirst(xs[1..], key, seen + {key(xs[0])}, j - 1);
    }
  }

  /** Keeping the first of each key is the identity on a sequence whose keys
      are distinct and new. */
  lemma {:induction false} KeepFirstOfDistinct<T, K>(xs: seq<T>, key: T -> K, seen: set<K>)
    requires DistinctKeys(xs, key)
    requires forall i :: 0 <= i < |xs| ==> key(xs[i]) !in seen
    ensures KeepFirst(xs, key, seen) == xs
  {
    if xs != [] {
      assert DistinctKeys(xs[1..], key) by {
        forall i, j | 0 <= i < j < |xs[1..]| ensures key(xs[1..][i]) != key(xs[1..][j]) {
          assert xs[1..][i] == xs[i + 1] && xs[1..][j] == xs[j + 1];
        }
      }
      forall i | 0 <= i < |xs[1..]| ensures key(xs[1..][i]) !in seen + {key(xs[0])} {
        assert xs[1..][i] == xs[i + 1];
      }
      KeepFirstOfDistinct(xs[1..], key, seen + {key(xs[0])});
    }
  }

  /** Keeping the first of each key twice is keeping it once. */
  lemma KeepFirstIdempotent<T, K>(xs: seq<T>, key: T -> K)
    ensures KeepFirst(KeepFirst(xs, key, {}), key, {}) == KeepFirst(xs, key, {})
  {
    KeepFirstDistinct(xs, key, {});
    KeepFirstOfDistinct(KeepFirst(xs, key, {}), key, {});
  }

  /** With three distinct keys, `[a, b, a, c, b]` keeps `[a, b, c]`. */
  lemma KeepFirstExample<T, K>(a: T, b: T, c: T, key: T -> K)
    requires key(a) != key(b) && key(a) != key(c) && key(b) != key(c)
    ensures KeepFirst([a, b, a, c, b], key, {}) == [a, b, c]
  {
    var sa, sab := {key(a)}, {key(a), key(b)};
    assert KeepFirst([c, b], key, sab) == [c] by {
      assert KeepFirst([b], key, sab + {key(c)}) == [] by {
        KeepFirstCons(b, [], key, sab + {key(c)});
      }
      KeepFirstCons(c, [b], key, sab);
      assert [c] + [b] == [c, b];
    }
    assert KeepFirst([a, c, b], key, sab) == [c] by {
      KeepFirstCons(a, [c, b], key, sab);
      assert [a] + [c, b] == [a, c, b];
    }
    assert KeepFirst([b, a, c, b], key, sa) == [b, c] by {
      KeepFirstCons(b, [a, c, b], key, sa);
      assert sa + {key(b)} == sab;
      assert [b] + [a, c, b] == [b, a, c, b];
    }
    KeepFirstCons(a, [b, a, c, b], key, {});
    assert [a] + [b, a, c, b] == [a, b, a, c, b];
    assert {} + {key(a)} == sa;
  }
}
