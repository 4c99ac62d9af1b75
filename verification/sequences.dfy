/** Sequence operations shared by the pages: `Array.prototype.filter` and a
    stable sort by a real-valued key.

    `Array.prototype.sort` is stable (ECMAScript 2019 and later), and every
    comparator of the modelled sorts (the asteroid list and the habitable
    selection) is a difference of two finite numbers or the constant 0:
    `a.k - b.k` sorts by `k` ascending and `b.k - a.k` sorts by `-k` ascending. The sort is
    defined once, as an insertion sort, and proved ordered, a permutation of
    its input, and stable. */
module Sequences {
  import opened Wrappers

  /** `Math.min(a, b)` on two integers. */
  function MinInt(a: int, b: int): (r: int)
    ensures r <= a && r <= b
    ensures r == a || r == b
  {
    if a <= b then a else b
  }

  /** `Math.max(...xs)`, with `None` where JavaScript gives `-Infinity`. */
  function Max(xs: seq<real>): (m: Option<real>)
    ensures m.None? <==> |xs| == 0
    ensures m.Some? ==> (exists i :: 0 <= i < |xs| && xs[i] == m.value)
    ensures m.Some? ==> (forall i :: 0 <= i < |xs| ==> xs[i] <= m.value)
    decreases |xs|
  {
    if |xs| == 0 then None
    else match Max(xs[1..])
      case None => Some(xs[0])
      case Some(rest) =>
        assert forall i :: 1 <= i < |xs| ==> xs[i] == xs[1..][i - 1];
        Some(if xs[0] >= rest then xs[0] else rest)
  }

  /** `Math.min(...xs)`, with `None` where JavaScript gives `Infinity`. */
  function Min(xs: seq<real>): (m: Option<real>)
    ensures m.None? <==> |xs| == 0
    ensures m.Some? ==> (exists i :: 0 <= i < |xs| && xs[i] == m.value)
    ensures m.Some? ==> (forall i :: 0 <= i < |xs| ==> m.value <= xs[i])
    decreases |xs|
  {
    if |xs| == 0 then None
    else match Min(xs[1..])
      case None => Some(xs[0])
      case Some(rest) =>
        assert forall i :: 1 <= i < |xs| ==> xs[i] == xs[1..][i - 1];
        Some(if xs[0] <= rest then xs[0] else rest)
  }

  /** `s.filter(p)`: the elements satisfying `p`, in their order in `s`. */
  function Filter<T>(s: seq<T>, p: T -> bool): (r: seq<T>)
    ensures |r| <= |s|
    ensures forall i :: 0 <= i < |r| ==> p(r[i])
    decreases |s|
  {
    if |s| == 0 then []
    else (if p(s[0]) then [s[0]] else []) + Filter(s[1..], p)
  }

  /** The filter keeps exactly the elements of `s` that satisfy `p`. */
  lemma {:induction false} FilterMembers<T>(s: seq<T>, p: T -> bool)
    ensures forall i :: 0 <= i < |Filter(s, p)| ==> Filter(s, p)[i] in s
    ensures forall i :: 0 <= i < |s| && p(s[i]) ==> s[i] in Filter(s, p)
    decreases |s|
  {
    if |s| > 0 {
      FilterMembers(s[1..], p);
      assert s == [s[0]] + s[1..];
    }
  }

  lemma {:induction false} FilterAppend<T>(a: seq<T>, b: seq<T>, p: T -> bool)
    ensures Filter(a + b, p) == Filter(a, p) + Filter(b, p)
    decreases |a|
  {
    if |a| == 0 {
      assert a + b == b;
    } else {
      assert (a + b)[1..] == a[1..] + b;
      FilterAppend(a[1..], b, p);
    }
  }

  /** A filter whose predicate holds everywhere keeps the whole list. */
  lemma {:induction false} FilterAll<T>(s: seq<T>, p: T -> bool)
    requires forall x :: x in s ==> p(x)
    ensures Filter(s, p) == s
    decreases |s|
  {
    if |s| > 0 {
      FilterAll(s[1..], p);
      assert s == [s[0]] + s[1..];
    }
  }

  /** `a` is `b` with some elements deleted, the rest kept in order. */
  predicate IsSubsequence<T(==)>(a: seq<T>, b: seq<T>)
    decreases |b|
  {
    |a| == 0
    || (|b| > 0 && ((a[0] == b[0] && IsSubsequence(a[1..], b[1..])) || IsSubsequence(a, b[1..])))
  }

  /** Filtering by a stronger predicate keeps a subsequence of what filtering
      by a weaker one keeps. */
  lemma {:induction false} FilterStronger<T>(s: seq<T>, p: T -> bool, q: T -> bool)
    requires forall x :: p(x) ==> q(x)
    ensures IsSubsequence(Filter(s, p), Filter(s, q))
    decreases |s|
  {
    if |s| > 0 {
      FilterStronger(s[1..], p, q);
      var fp, fq := Filter(s[1..], p), Filter(s[1..], q);
      if p(s[0]) {
        assert Filter(s, p) == [s[0]] + fp;
        assert Filter(s, q) == [s[0]] + fq;
        assert ([s[0]] + fp)[1..] == fp && ([s[0]] + fq)[1..] == fq;
      } else if q(s[0]) {
        assert Filter(s, p) == fp;
        assert Filter(s, q) == [s[0]] + fq;
        assert ([s[0]] + fq)[1..] == fq;
      } else {
        assert Filter(s, p) == fp && Filter(s, q) == fq;
      }
    }
  }

  /** Every filter result is a subsequence of its input. */
  lemma FilterIsSubsequence<T>(s: seq<T>, p: T -> bool)
    ensures IsSubsequence(Filter(s, p), s)
  {
    FilterStronger(s, p, x => true);
    FilterAll(s, x => true);
  }

  /** A permutation of a list whose elements all satisfy `p` satisfies `p`
      everywhere too. */
  lemma PermutationKeepsAll<T>(a: seq<T>, b: seq<T>, p: T -> bool)
    requires multiset(a) == multiset(b)
    requires forall i :: 0 <= i < |b| ==> p(b[i])
    ensures forall i :: 0 <= i < |a| ==> p(a[i])
  {
    forall i | 0 <= i < |a| ensures p(a[i]) {
      assert a[i] in multiset(b);
      var j :| 0 <= j < |b| && b[j] == a[i];
    }
  }

  /** Keys never decrease along `s`. */
  predicate Ascending<T>(s: seq<T>, key: T -> real) {
    forall i, j :: 0 <= i < j < |s| ==> key(s[i]) <= key(s[j])
  }

  /** `p` picks out exactly the elements whose key is `k`. */
  ghost predicate KeyClass<T(!new)>(p: T -> bool, key: T -> real, k: real) {
    forall y :: p(y) <==> key(y) == k
  }

  /** Places `x` in front of the first element whose key is not smaller. */
  function Insert<T>(x: T, s: seq<T>, key: T -> real): (r: seq<T>)
    ensures |r| == |s| + 1
    ensures multiset(r) == multiset(s) + multiset{x}
    ensures r[0] == x || (|s| > 0 && r[0] == s[0])
    decreases |s|
  {
    if |s| == 0 || key(x) <= key(s[0]) then [x] + s
    else
      assert s == [s[0]] + s[1..];
      [s[0]] + Insert(x, s[1..], key)
  }

  /** Inserting into an ordered list keeps it ordered. */
  lemma {:induction false} InsertAscending<T>(x: T, s: seq<T>, key: T -> real)
    requires Ascending(s, key)
    ensures Ascending(Insert(x, s, key), key)
    decreases |s|
  {
    if |s| > 0 && key(x) > key(s[0]) {
      var rest := Insert(x, s[1..], key);
      InsertAscending(x, s[1..], key);
      assert key(s[0]) <= key(rest[0]);
      var r := [s[0]] + rest;
      forall i, j | 0 <= i < j < |r| ensures key(r[i]) <= key(r[j]) {
        if i == 0 {
          assert r[j] == rest[j - 1];
        } else {
          assert r[i] == rest[i - 1] && r[j] == rest[j - 1];
        }
      }
    }
  }

  /** Filtering `[a] + u` decides `a` first, then filters `u`. */
  lemma FilterCons<T>(a: T, u: seq<T>, p: T -> bool)
    ensures Filter([a] + u, p) == (if p(a) then [a] else []) + Filter(u, p)
  {
    assert ([a] + u)[0] == a;
    assert ([a] + u)[1..] == u;
  }

  /** Two neighbours that do not both pass the filter can trade places unseen. */
  lemma SwapUnseen<T>(a: T, b: T, t: seq<T>, p: T -> bool)
    requires !p(a) || !p(b)
    ensures Filter([a] + ([b] + t), p) == Filter([b] + ([a] + t), p)
  {
    FilterCons(a, [b] + t, p);
    FilterCons(b, t, p);
    FilterCons(b, [a] + t, p);
    FilterCons(a, t, p);
  }

  /** Inserting `x` into an ordered list moves it past smaller keys only, so
      every key class sees `x` exactly where it is in `[x] + s`. */
  lemma {:induction false} InsertStable<T(!new)>(x: T, s: seq<T>, key: T -> real, k: real, p: T -> bool)
    requires Ascending(s, key)
    requires KeyClass(p, key, k)
    ensures Filter(Insert(x, s, key), p) == Filter([x] + s, p)
    decreases |s|
  {
    if |s| > 0 && key(x) > key(s[0]) {
      var rest := Insert(x, s[1..], key);
      assert Insert(x, s, key) == [s[0]] + rest;
      assert Ascending(s[1..], key);
      InsertStable(x, s[1..], key, k, p);
      calc {
        Filter(Insert(x, s, key), p);
        Filter([s[0]] + rest, p);
        { FilterCons(s[0], rest, p); FilterCons(s[0], [x] + s[1..], p); }
        Filter([s[0]] + ([x] + s[1..]), p);
        { assert !p(s[0]) || !p(x); SwapUnseen(s[0], x, s[1..], p); }
        Filter([x] + ([s[0]] + s[1..]), p);
        { assert [s[0]] + s[1..] == s; }
        Filter([x] + s, p);
      }
    }
  }

  /** Sorts `s` by `key` ascending; equal keys keep their input order. */
  function SortBy<T>(s: seq<T>, key: T -> real): (r: seq<T>)
    ensures |r| == |s|
    ensures multiset(r) == multiset(s)
    ensures Ascending(r, key)
    decreases |s|
  {
    if |s| == 0 then []
    else
      assert s == [s[0]] + s[1..];
      InsertAscending(s[0], SortBy(s[1..], key), key);
      Insert(s[0], SortBy(s[1..], key), key)
  }

  /** Stability: within every key class the sorted list keeps the input order. */
  lemma {:induction false} SortByStable<T(!new)>(s: seq<T>, key: T -> real, k: real, p: T -> bool)
    requires KeyClass(p, key, k)
    ensures Filter(SortBy(s, key), p) == Filter(s, p)
    decreases |s|
  {
    if |s| > 0 {
      var tail := SortBy(s[1..], key);
      assert SortBy(s, key) == Insert(s[0], tail, key);
      SortByStable(s[1..], key, k, p);
      InsertStable(s[0], tail, key, k, p);
      FilterCons(s[0], tail, p);
      FilterCons(s[0], s[1..], p);
      assert s == [s[0]] + s[1..];
    }
  }

  /** A comparator that always answers 0 leaves the list as it was. */
  lemma SortByConstantKey<T(!new)>(s: seq<T>, key: T -> real, c: real)
    requires forall x :: key(x) == c
    ensures SortBy(s, key) == s
  {
    var p := (x: T) => true;
    SortByStable(s, key, c, p);
    FilterAll(s, p);
    FilterAll(SortBy(s, key), p);
  }
}
