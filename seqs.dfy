/** The array operations the views rely on: `filter`, a stable sort by an integer key,
    de-duplication in first-occurrence order (what `[...new Set(xs)]` computes) and
    filtering. `findIndex` by key lives in KeyedMap. */
module Seqs {

  // ---------------------------------------------------------------- filter

  /** `s.filter(p)`: the elements satisfying `p`, in their original order. */
  function Filter<T(!new)>(s: seq<T>, p: T -> bool): (r: seq<T>)
    ensures |r| <= |s|
    ensures forall i :: 0 <= i < |r| ==> p(r[i])
    ensures forall x :: multiset(r)[x] == if p(x) then multiset(s)[x] else 0
  {
    if s == [] then []
    else
      assert s == [s[0]] + s[1..];
      if p(s[0]) then [s[0]] + Filter(s[1..], p)
      else Filter(s[1..], p)
  }

  /** Filtering distributes over concatenation, so the kept elements stay in input order. */
  lemma {:induction false} FilterConcat<T(!new)>(a: seq<T>, b: seq<T>, p: T -> bool)
    ensures Filter(a + b, p) == Filter(a, p) + Filter(b, p)
  {
    if a == [] {
      assert a + b == b;
    } else {
      assert (a + b)[0] == a[0];
      assert (a + b)[1..] == a[1..] + b;
      FilterConcat(a[1..], b, p);
    }
  }

  /** A filter that keeps everything is the identity. */
  lemma {:induction false} FilterAll<T(!new)>(s: seq<T>, p: T -> bool)
    requires forall i :: 0 <= i < |s| ==> p(s[i])
    ensures Filter(s, p) == s
  {
    if s != [] {
      FilterAll(s[1..], p);
    }
  }

  /** Filtering by two disjoint predicates keeps, between them, what filtering by their union keeps. */
  lemma FilterSplit<T(!new)>(s: seq<T>, p: T -> bool, q: T -> bool, u: T -> bool)
    requires forall x :: u(x) <==> p(x) || q(x)
    requires forall x :: !(p(x) && q(x))
    ensures multiset(Filter(s, p)) + multiset(Filter(s, q)) == multiset(Filter(s, u))
  {
    forall x ensures (multiset(Filter(s, p)) + multiset(Filter(s, q)))[x] == multiset(Filter(s, u))[x] {
    }
  }

  // ---------------------------------------------------------------- sorting

  /** Non-decreasing order of `key`. */
  ghost predicate SortedBy<T>(s: seq<T>, key: T -> int) {
    forall i, j :: 0 <= i < j < |s| ==> key(s[i]) <= key(s[j])
  }

  /** Prepending a key no larger than every key of a sorted sequence keeps it sorted. */
  lemma SortedCons<T>(a: T, t: seq<T>, key: T -> int)
    requires SortedBy(t, key)
    requires forall j :: 0 <= j < |t| ==> key(a) <= key(t[j])
    ensures SortedBy([a] + t, key)
  {
    forall i, j | 0 <= i < j < |[a] + t| ensures key(([a] + t)[i]) <= key(([a] + t)[j]) {
      if i > 0 {
        assert ([a] + t)[i] == t[i - 1];
      }
      assert ([a] + t)[j] == t[j - 1];
    }
  }

  /** Every element of `t` equals `x` or occurs in `s` when `t` holds `s` plus `x`. */
  lemma FromInsertion<T>(t: seq<T>, s: seq<T>, x: T, j: int)
    requires multiset(t) == multiset(s) + multiset{x}
    requires 0 <= j < |t|
    ensures t[j] == x || exists k :: 0 <= k < |s| && s[k] == t[j]
  {
    assert t[j] in multiset(t);
    if t[j] != x {
      assert t[j] in multiset(s);
      assert t[j] in s;
    }
  }

  /** Inserts `x` before the first element whose key is not smaller, so equal keys keep their order. */
  function InsertBy<T>(x: T, s: seq<T>, key: T -> int): (r: seq<T>)
    requires SortedBy(s, key)
    ensures SortedBy(r, key)
    ensures multiset(r) == multiset(s) + multiset{x}
    ensures |r| == |s| + 1
  {
    if s == [] then [x]
    else if key(x) <= key(s[0]) then
      SortedCons(x, s, key);
      [x] + s
    else
      var tail := s[1..];
      var t := InsertBy(x, tail, key);
      assert s == [s[0]] + tail;
      assert forall j :: 0 <= j < |t| ==> key(s[0]) <= key(t[j]) by {
        forall j | 0 <= j < |t| ensures key(s[0]) <= key(t[j]) {
          FromInsertion(t, tail, x, j);
        }
      }
      SortedCons(s[0], t, key);
      [s[0]] + t
  }

  /** A stable sort of `s` by ascending `key` (what `Array.prototype.sort` with a key comparator gives). */
  function SortBy<T>(s: seq<T>, key: T -> int): (r: seq<T>)
    ensures SortedBy(r, key)
    ensures multiset(r) == multiset(s)
    ensures |r| == |s|
  {
    if s == [] then []
    else
      assert s == [s[0]] + s[1..];
      InsertBy(s[0], SortBy(s[1..], key), key)
  }

  /** A property of every element survives a permutation. */
  lemma PermutedAll<T>(a: seq<T>, b: seq<T>, p: T -> bool)
    requires multiset(a) == multiset(b)
    requires forall i :: 0 <= i < |b| ==> p(b[i])
    ensures forall i :: 0 <= i < |a| ==> p(a[i])
  {
    forall i | 0 <= i < |a| ensures p(a[i]) {
      assert a[i] in multiset(b);
      var j :| 0 <= j < |b| && b[j] == a[i];
    }
  }

  // ---------------------------------------------------------------- search

  /** `xs.indexOf(x)`: the first position of `x`, or -1. */
  function IndexOf<T(==)>(xs: seq<T>, x: T): (r: int)
    ensures -1 <= r < |xs|
    ensures r == -1 <==> x !in xs
    ensures r >= 0 ==> xs[r] == x && x !in xs[..r]
  {
    if xs == [] then -1
    else if xs[0] == x then 0
    else
      var i := IndexOf(xs[1..], x);
      assert xs == [xs[0]] + xs[1..];
      if i == -1 then -1
      else
        assert xs[..i + 1] == [xs[0]] + xs[1..][..i];
        i + 1
  }

  /** In a sequence without repeats, `indexOf` finds each entry where it sits. */
  lemma IndexOfDistinct<T>(xs: seq<T>, i: int)
    requires Distinct(xs)
    requires 0 <= i < |xs|
    ensures IndexOf(xs, xs[i]) == i
  {
  }

  // ---------------------------------------------------------------- de-duplication

  ghost predicate Distinct<K>(s: seq<K>) {
    forall i, j :: 0 <= i < j < |s| ==> s[i] != s[j]
  }

  /** `[...new Set(s)]`: every value once, at the position of its first occurrence. */
  function Dedup<K(==,!new)>(s: seq<K>): (r: seq<K>)
    ensures forall x :: x in r <==> x in s
    ensures Distinct(r)
    ensures |r| <= |s|
    ensures forall i, j :: 0 <= i < j < |r| ==> IndexOf(s, r[i]) < IndexOf(s, r[j])
  {
    if s == [] then []
    else
      var init := s[..|s| - 1];
      var d := Dedup(init);
      var last := s[|s| - 1];
      assert s == init + [last];
      IndexOfSnoc(init, last);
      if last in d then d else d + [last]
  }

  /** Appending a value moves no first occurrence, and a new value is found at the end. */
  lemma IndexOfSnoc<T>(xs: seq<T>, y: T)
    ensures forall x :: x in xs ==> IndexOf(xs + [y], x) == IndexOf(xs, x)
    ensures y !in xs ==> IndexOf(xs + [y], y) == |xs|
  {
    forall x | x in xs
      ensures IndexOf(xs + [y], x) == IndexOf(xs, x)
    {
      var r := IndexOf(xs, x);
      assert (xs + [y])[..r] == xs[..r];
      IndexOfUnique(xs + [y], x, r);
    }
    if y !in xs {
      assert (xs + [y])[..|xs|] == xs;
      IndexOfUnique(xs + [y], y, |xs|);
    }
  }

  /** The first occurrence is the only position holding the value with none before it. */
  lemma IndexOfUnique<T>(xs: seq<T>, x: T, r: int)
    requires 0 <= r < |xs| && xs[r] == x && x !in xs[..r]
    ensures IndexOf(xs, x) == r
  {
  }

  /** What de-duplicating `a + b` yields starts with what de-duplicating `a` yields:
      the values first met in `a` come first, in `a`'s order. */
  lemma {:induction false} DedupPrefix<K(!new)>(a: seq<K>, b: seq<K>)
    ensures Dedup(a) <= Dedup(a + b)
  {
    if b != [] {
      var b' := b[..|b| - 1];
      assert (a + b)[..|a + b| - 1] == a + b';
      DedupPrefix(a, b');
    } else {
      assert a + b == a;
    }
  }

  /** Extending by one value appends it exactly when it is new. */
  lemma DedupSnoc<K(!new)>(s: seq<K>, x: K)
    ensures Dedup(s + [x]) == if x in Dedup(s) then Dedup(s) else Dedup(s) + [x]
  {
    assert (s + [x])[..|s + [x]| - 1] == s;
  }

  /** A sequence without repeats is its own de-duplication. */
  lemma {:induction false} DedupDistinct<K(!new)>(s: seq<K>)
    requires Distinct(s)
    ensures Dedup(s) == s
  {
    if s != [] {
      var init := s[..|s| - 1];
      var last := s[|s| - 1];
      DistinctInit(s);
      DedupDistinct(init);
      DedupSnoc(init, last);
      assert last !in Dedup(init);
      assert Dedup(init + [last]) == init + [last];
      assert s == init + [last];
    }
  }

  /** Without repeats, the last value does not occur before it and the rest has no repeats. */
  lemma DistinctInit<K>(s: seq<K>)
    requires Distinct(s) && s != []
    ensures Distinct(s[..|s| - 1]) && s[|s| - 1] !in s[..|s| - 1]
  {
  }
}
