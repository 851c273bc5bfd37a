/** Generic sequence helpers: filtering, subsequences and the stable sort
    that `Array.prototype.sort` performs with a numeric comparator. */
module Seqs {
  import opened Wrappers

  /** `xs.filter(p)`. */
  function Filter<T>(xs: seq<T>, p: T -> bool): (r: seq<T>)
    ensures |r| <= |xs|
  {
    if xs == [] then [] else (if p(xs[0]) then [xs[0]] else []) + Filter(xs[1..], p)
  }

  lemma {:induction false} FilterMembers<T>(xs: seq<T>, p: T -> bool)
    ensures forall x :: x in Filter(xs, p) <==> x in xs && p(x)
  {
    if xs != [] {
      FilterMembers(xs[1..], p);
      assert xs == [xs[0]] + xs[1..];
    }
  }

  /** Every kept element is an element of the input that satisfies `p`. */
  lemma {:induction false} FilterElem<T>(xs: seq<T>, p: T -> bool, j: nat)
    requires j < |Filter(xs, p)|
    ensures Filter(xs, p)[j] in xs && p(Filter(xs, p)[j])
  {
    if p(xs[0]) && j == 0 {
    } else {
      var k := if p(xs[0]) then j - 1 else j;
      FilterElem(xs[1..], p, k);
      assert Filter(xs, p)[j] == Filter(xs[1..], p)[k];
    }
  }

  lemma FilterCons<T>(x: T, ys: seq<T>, p: T -> bool)
    ensures Filter([x] + ys, p) == (if p(x) then [x] else []) + Filter(ys, p)
  {
    assert ([x] + ys)[1..] == ys;
  }

  lemma {:induction false} FilterAppend<T>(a: seq<T>, b: seq<T>, p: T -> bool)
    ensures Filter(a + b, p) == Filter(a, p) + Filter(b, p)
  {
    if a != [] {
      assert (a + b)[1..] == a[1..] + b;
      FilterAppend(a[1..], b, p);
    } else {
      assert a + b == b;
    }
  }

  /** Filtering keeps every element exactly when every element satisfies `p` (`xs.filter(p).length === xs.length` is `xs.every(p)`). */
  lemma {:induction false} FilterLengthAll<T>(xs: seq<T>, p: T -> bool)
    ensures |Filter(xs, p)| == |xs| <==> forall i :: 0 <= i < |xs| ==> p(xs[i])
  {
    if xs != [] {
      FilterLengthAll(xs[1..], p);
      if forall i :: 0 <= i < |xs[1..]| ==> p(xs[1..][i]) {
        assert forall i :: 1 <= i < |xs| ==> p(xs[i]) by {
          forall i | 1 <= i < |xs| ensures p(xs[i]) {
            assert xs[i] == xs[1..][i - 1];
          }
        }
      } else {
        var i :| 0 <= i < |xs[1..]| && !p(xs[1..][i]);
        assert !p(xs[i + 1]);
      }
    }
  }

  /** Filtering keeps something exactly when some element satisfies `p` (`xs.filter(p).length > 0` is `xs.some(p)`). */
  lemma {:induction false} FilterNonEmptyAny<T>(xs: seq<T>, p: T -> bool)
    ensures |Filter(xs, p)| > 0 <==> exists i :: 0 <= i < |xs| && p(xs[i])
  {
    if xs != [] {
      FilterNonEmptyAny(xs[1..], p);
      if exists i :: 0 <= i < |xs[1..]| && p(xs[1..][i]) {
        var i :| 0 <= i < |xs[1..]| && p(xs[1..][i]);
        assert p(xs[i + 1]);
      }
      if exists i :: 0 <= i < |xs| && p(xs[i]) {
        var i :| 0 <= i < |xs| && p(xs[i]);
        if i > 0 {
          assert xs[1..][i - 1] == xs[i];
        }
      }
    }
  }

  lemma FilterAll<T>(xs: seq<T>, p: T -> bool)
    requires forall x :: x in xs ==> p(x)
    ensures Filter(xs, p) == xs
  {
    if xs != [] {
      FilterAll(xs[1..], p);
    }
  }

  /** Predicates that agree on every element filter alike. */
  lemma {:induction false} FilterExt<T>(xs: seq<T>, p: T -> bool, q: T -> bool)
    requires forall x :: x in xs ==> p(x) == q(x)
    ensures Filter(xs, p) == Filter(xs, q)
  {
    if xs != [] {
      FilterExt(xs[1..], p, q);
    }
  }

  /** Filtering by `p` and then by `q` is filtering once by their conjunction `pq`. */
  lemma {:induction false} FilterFilter<T>(xs: seq<T>, p: T -> bool, q: T -> bool, pq: T -> bool)
    requires forall x :: x in xs ==> pq(x) == (p(x) && q(x))
    ensures Filter(Filter(xs, p), q) == Filter(xs, pq)
  {
    if xs != [] {
      FilterFilter(xs[1..], p, q, pq);
      var head := if p(xs[0]) then [xs[0]] else [];
      FilterAppend(head, Filter(xs[1..], p), q);
      if p(xs[0]) {
        FilterCons(xs[0], [], q);
        assert [xs[0]] + [] == [xs[0]];
      }
    }
  }

  /** `a` is obtained from `b` by deleting elements (order kept). */
  predicate IsSubseq<T(==)>(a: seq<T>, b: seq<T>)
    decreases |b|
  {
    if b == [] then a == []
    else (a != [] && a[0] == b[0] && IsSubseq(a[1..], b[1..])) || IsSubseq(a, b[1..])
  }

  lemma {:induction false} SubseqRefl<T>(a: seq<T>)
    ensures IsSubseq(a, a)
  {
    if a != [] {
      SubseqRefl(a[1..]);
    }
  }

  lemma {:induction false} SubseqEmpty<T>(b: seq<T>)
    ensures IsSubseq([], b)
  {
    if b != [] {
      SubseqEmpty(b[1..]);
    }
  }

  lemma {:induction false} SubseqLength<T>(a: seq<T>, b: seq<T>)
    requires IsSubseq(a, b)
    ensures |a| <= |b|
    decreases |b|
  {
    if b != [] {
      if a != [] && a[0] == b[0] && IsSubseq(a[1..], b[1..]) {
        SubseqLength(a[1..], b[1..]);
      } else {
        SubseqLength(a, b[1..]);
      }
    }
  }

  lemma {:induction false} SubseqMembers<T>(a: seq<T>, b: seq<T>)
    requires IsSubseq(a, b)
    ensures forall x :: x in a ==> x in b
    decreases |b|
  {
    if b != [] {
      if a != [] && a[0] == b[0] && IsSubseq(a[1..], b[1..]) {
        SubseqMembers(a[1..], b[1..]);
        assert forall x :: x in a ==> x == a[0] || x in a[1..];
      } else {
        SubseqMembers(a, b[1..]);
      }
    }
  }

  lemma {:induction false} SubseqTrans<T>(a: seq<T>, b: seq<T>, c: seq<T>)
    requires IsSubseq(a, b) && IsSubseq(b, c)
    ensures IsSubseq(a, c)
    decreases |c|
  {
    if c == [] {
    } else if b != [] && b[0] == c[0] && IsSubseq(b[1..], c[1..]) {
      if a != [] && a[0] == b[0] && IsSubseq(a[1..], b[1..]) {
        SubseqTrans(a[1..], b[1..], c[1..]);
      } else if b != [] {
        SubseqTrans(a, b[1..], c[1..]);
      }
    } else {
      SubseqTrans(a, b, c[1..]);
    }
  }

  lemma {:induction false} FilterIsSubseq<T>(xs: seq<T>, p: T -> bool)
    ensures IsSubseq(Filter(xs, p), xs)
  {
    if xs == [] {
    } else {
      FilterIsSubseq(xs[1..], p);
      var r := Filter(xs, p);
      if p(xs[0]) {
        assert r == [xs[0]] + Filter(xs[1..], p);
        assert r[1..] == Filter(xs[1..], p);
      } else {
        assert r == Filter(xs[1..], p);
      }
    }
  }

  lemma {:induction false} PrefixIsSubseq<T>(xs: seq<T>, n: nat)
    requires n <= |xs|
    ensures IsSubseq(xs[..n], xs)
  {
    if xs != [] {
      if n > 0 {
        assert xs[..n][1..] == xs[1..][..n - 1];
        PrefixIsSubseq(xs[1..], n - 1);
      } else {
        SubseqEmpty(xs);
      }
    }
  }

  /** Appending the same element to both sides keeps a subsequence, and so
      does appending to the larger side only. */
  lemma {:induction false} SubseqSnoc<T>(a: seq<T>, b: seq<T>, x: T)
    requires IsSubseq(a, b)
    ensures IsSubseq(a, b + [x]) && IsSubseq(a + [x], b + [x])
    decreases |b|
  {
    if b == [] {
      assert [x][1..] == [];
    } else {
      assert (b + [x])[1..] == b[1..] + [x];
      if a != [] && a[0] == b[0] && IsSubseq(a[1..], b[1..]) {
        SubseqSnoc(a[1..], b[1..], x);
        assert (a + [x])[1..] == a[1..] + [x];
      } else {
        SubseqSnoc(a, b[1..], x);
      }
    }
  }

  lemma PrefixSnoc<T>(xs: seq<T>, i: nat)
    requires i < |xs|
    ensures xs[..i] + [xs[i]] == xs[..i + 1]
  {
  }

  /** `xs.map(f)`. */
  function Map<T, U>(xs: seq<T>, f: T -> U): (r: seq<U>)
    ensures |r| == |xs|
    ensures forall i :: 0 <= i < |xs| ==> r[i] == f(xs[i])
  {
    seq(|xs|, i requires 0 <= i < |xs| => f(xs[i]))
  }

  /** Mapping one more element appends its image. */
  lemma MapSnoc<T, U>(xs: seq<T>, i: nat, f: T -> U)
    requires i < |xs|
    ensures Map(xs[..i + 1], f) == Map(xs[..i], f) + [f(xs[i])]
  {
  }

  /** Every earlier element is `less` than every later one. */
  predicate PairwiseOrdered<T>(xs: seq<T>, less: (T, T) -> bool) {
    forall i, j :: 0 <= i < j < |xs| ==> less(xs[i], xs[j])
  }

  /** Filtering keeps a pairwise order. */
  lemma {:induction false} FilterOrdered<T>(xs: seq<T>, p: T -> bool, less: (T, T) -> bool)
    requires PairwiseOrdered(xs, less)
    ensures PairwiseOrdered(Filter(xs, p), less)
  {
    if xs != [] {
      var rest := Filter(xs[1..], p);
      assert PairwiseOrdered(xs[1..], less) by {
        forall i, j | 0 <= i < j < |xs[1..]| ensures less(xs[1..][i], xs[1..][j]) {
          assert xs[1..][i] == xs[i + 1] && xs[1..][j] == xs[j + 1];
        }
      }
      FilterOrdered(xs[1..], p, less);
      if p(xs[0]) {
        var r := [xs[0]] + rest;
        forall j | 0 <= j < |rest| ensures less(xs[0], rest[j]) {
          FilterElem(xs[1..], p, j);
          var k :| 0 <= k < |xs[1..]| && xs[1..][k] == rest[j];
          assert xs[k + 1] == rest[j];
        }
        forall i, j | 0 <= i < j < |r| ensures less(r[i], r[j]) {
          assert r[j] == rest[j - 1];
          if i > 0 {
            assert r[i] == rest[i - 1];
          }
        }
      }
    }
  }

  /** Elements of `xs` whose key is `v`, in order. */
  function WithKey<T>(xs: seq<T>, key: T -> int, v: int): (r: seq<T>)
    ensures forall i :: 0 <= i < |r| ==> key(r[i]) == v
  {
    if xs == [] then [] else (if key(xs[0]) == v then [xs[0]] else []) + WithKey(xs[1..], key, v)
  }

  /** Non-decreasing by `key`. */
  predicate SortedBy<T>(xs: seq<T>, key: T -> int) {
    forall i, j :: 0 <= i < j < |xs| ==> key(xs[i]) <= key(xs[j])
  }

  function InsertBy<T>(x: T, ys: seq<T>, key: T -> int): seq<T> {
    if ys == [] || key(x) <= key(ys[0]) then [x] + ys
    else [ys[0]] + InsertBy(x, ys[1..], key)
  }

  /** Stable sort by a numeric key, ascending: `xs.slice().sort((a, b) => key(a) - key(b))`. */
  function SortBy<T>(xs: seq<T>, key: T -> int): seq<T> {
    if xs == [] then [] else InsertBy(xs[0], SortBy(xs[1..], key), key)
  }

  lemma {:induction false} InsertByMembers<T>(x: T, ys: seq<T>, key: T -> int)
    ensures |InsertBy(x, ys, key)| == |ys| + 1
    ensures forall z :: z in InsertBy(x, ys, key) <==> z == x || z in ys
  {
    if ys != [] && key(x) > key(ys[0]) {
      InsertByMembers(x, ys[1..], key);
      assert forall z :: z in ys <==> z == ys[0] || z in ys[1..];
    }
  }

  lemma {:induction false} InsertByLowerBound<T>(x: T, ys: seq<T>, key: T -> int, lo: int)
    requires lo <= key(x)
    requires forall i :: 0 <= i < |ys| ==> lo <= key(ys[i])
    ensures forall i :: 0 <= i < |InsertBy(x, ys, key)| ==> lo <= key(InsertBy(x, ys, key)[i])
  {
    if ys != [] && key(x) > key(ys[0]) {
      InsertByLowerBound(x, ys[1..], key, lo);
    }
  }

  lemma {:induction false} InsertBySorted<T>(x: T, ys: seq<T>, key: T -> int)
    requires SortedBy(ys, key)
    ensures SortedBy(InsertBy(x, ys, key), key)
  {
    if ys != [] && key(x) > key(ys[0]) {
      InsertBySorted(x, ys[1..], key);
      InsertByLowerBound(x, ys[1..], key, key(ys[0]));
    }
  }

  lemma {:induction false} InsertByMultiset<T>(x: T, ys: seq<T>, key: T -> int)
    ensures multiset(InsertBy(x, ys, key)) == multiset([x] + ys)
  {
    if ys != [] && key(x) > key(ys[0]) {
      InsertByMultiset(x, ys[1..], key);
      assert ys == [ys[0]] + ys[1..];
    }
  }

  lemma WithKeyCons<T>(y: T, zs: seq<T>, key: T -> int, v: int)
    ensures WithKey([y] + zs, key, v) == (if key(y) == v then [y] else []) + WithKey(zs, key, v)
  {
    assert ([y] + zs)[1..] == zs;
  }

  lemma {:induction false} InsertByWithKey<T>(x: T, ys: seq<T>, key: T -> int, v: int)
    ensures WithKey(InsertBy(x, ys, key), key, v) == (if key(x) == v then [x] else []) + WithKey(ys, key, v)
  {
    if ys == [] || key(x) <= key(ys[0]) {
      WithKeyCons(x, ys, key, v);
    } else {
      var rest := InsertBy(x, ys[1..], key);
      var hx := if key(x) == v then [x] else [];
      var hy := if key(ys[0]) == v then [ys[0]] else [];
      InsertByWithKey(x, ys[1..], key, v);
      WithKeyCons(ys[0], rest, key, v);
      WithKeyCons(ys[0], ys[1..], key, v);
      assert [ys[0]] + ys[1..] == ys;
      assert hx == [] || hy == [];
      assert hy + (hx + WithKey(ys[1..], key, v)) == hx + (hy + WithKey(ys[1..], key, v));
    }
  }

  /** The sort is ordered by key, a permutation of its input, and stable:
      the elements of every key value keep their input order. */
  lemma {:induction false} SortByCorrect<T>(xs: seq<T>, key: T -> int)
    ensures SortedBy(SortBy(xs, key), key)
    ensures |SortBy(xs, key)| == |xs|
    ensures multiset(SortBy(xs, key)) == multiset(xs)
    ensures forall v :: WithKey(SortBy(xs, key), key, v) == WithKey(xs, key, v)
  {
    if xs != [] {
      SortByCorrect(xs[1..], key);
      InsertBySorted(xs[0], SortBy(xs[1..], key), key);
      InsertByMembers(xs[0], SortBy(xs[1..], key), key);
      InsertByMultiset(xs[0], SortBy(xs[1..], key), key);
      assert xs == [xs[0]] + xs[1..];
      forall v ensures WithKey(SortBy(xs, key), key, v) == WithKey(xs, key, v) {
        InsertByWithKey(xs[0], SortBy(xs[1..], key), key, v);
      }
    }
  }

  lemma SortByMembers<T>(xs: seq<T>, key: T -> int)
    ensures forall x :: x in SortBy(xs, key) <==> x in xs
  {
    SortByCorrect(xs, key);
    forall x ensures x in SortBy(xs, key) <==> x in xs {
      assert x in SortBy(xs, key) <==> x in multiset(SortBy(xs, key));
      assert x in xs <==> x in multiset(xs);
    }
  }

  /** `xs.findIndex(p)`: the index of the first element satisfying `p`, if any. */
  function FirstIndex<T>(xs: seq<T>, p: T -> bool): (r: Option<nat>)
    ensures r.Some? ==> r.value < |xs| && p(xs[r.value])
    ensures r.Some? ==> forall j :: 0 <= j < r.value ==> !p(xs[j])
    ensures r.None? ==> forall j :: 0 <= j < |xs| ==> !p(xs[j])
  {
    if xs == [] then None
    else if p(xs[0]) then Some(0)
    else match FirstIndex(xs[1..], p)
      case None => None
      case Some(i) => Some(i + 1)
  }
}
