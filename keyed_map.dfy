/** A JavaScript `Map` whose values carry their own key (`map.set(o.id, o)`), kept as the
    sequence of its values in insertion order, so that `Array.from(map.values())` is the
    sequence itself. Setting a key that is already present replaces the value in place;
    a new key is appended. */
module KeyedMap {
  import opened Wrappers
  import opened Seqs

  /** The keys of the entries, in insertion order. */
  function Keys<T, K>(m: seq<T>, key: T -> K): (r: seq<K>)
    ensures |r| == |m|
    ensures forall i :: 0 <= i < |m| ==> r[i] == key(m[i])
  {
    seq(|m|, i requires 0 <= i < |m| => key(m[i]))
  }

  /** `s.findIndex(y => key(y) === k)`: the first position holding key `k`, or -1. */
  function IndexOfKey<T, K(==)>(m: seq<T>, k: K, key: T -> K): (r: int)
    ensures -1 <= r < |m|
    ensures r == -1 <==> k !in Keys(m, key)
    ensures r >= 0 ==> key(m[r]) == k && forall i :: 0 <= i < r ==> key(m[i]) != k
  {
    if m == [] then -1
    else if key(m[0]) == k then 0
    else
      var i := IndexOfKey(m[1..], k, key);
      assert k in Keys(m, key) ==> k in Keys(m[1..], key) by {
        if k in Keys(m, key) {
          var t :| 0 <= t < |m| && Keys(m, key)[t] == k;
          assert t > 0 && Keys(m[1..], key)[t - 1] == k;
        }
      }
      if i == -1 then -1 else i + 1
  }

  /** Appending never moves a key that is already present. */
  lemma IndexOfKeyAppend<T, K>(m: seq<T>, x: T, k: K, key: T -> K)
    requires k in Keys(m, key)
    ensures IndexOfKey(m + [x], k, key) == IndexOfKey(m, k, key)
  {
    var i := IndexOfKey(m, k, key);
    var j := IndexOfKey(m + [x], k, key);
    assert (m + [x])[i] == m[i];
    assert forall t :: 0 <= t < i ==> (m + [x])[t] == m[t];
    assert j <= i;
    assert m[j] == (m + [x])[j];
  }

  /** Where a key first sits depends only on the keys. */
  lemma IndexOfKeySameKeys<T, K>(a: seq<T>, b: seq<T>, k: K, key: T -> K)
    requires Keys(a, key) == Keys(b, key)
    ensures IndexOfKey(a, k, key) == IndexOfKey(b, k, key)
  {
    var i, j := IndexOfKey(a, k, key), IndexOfKey(b, k, key);
    if i >= 0 && j >= 0 {
      assert Keys(a, key)[i] == k && Keys(b, key)[j] == k;
    }
  }

  /** `map.get(k)`. */
  function Get<T, K(==)>(m: seq<T>, k: K, key: T -> K): (r: Option<T>)
    ensures r.Some? <==> k in Keys(m, key)
    ensures r.Some? ==> r.value in m && key(r.value) == k
  {
    var i := IndexOfKey(m, k, key);
    if i == -1 then None else Some(m[i])
  }

  /** `map.set(key(x), x)`. */
  function Put<T, K(==)>(m: seq<T>, x: T, key: T -> K): (r: seq<T>)
    ensures |r| == if key(x) in Keys(m, key) then |m| else |m| + 1
  {
    var i := IndexOfKey(m, key(x), key);
    if i == -1 then m + [x] else m[i := x]
  }

  /** Setting a key appends it exactly when it is new; otherwise the key order is unchanged. */
  lemma KeysPut<T, K>(m: seq<T>, x: T, key: T -> K)
    ensures Keys(Put(m, x, key), key) ==
      if key(x) in Keys(m, key) then Keys(m, key) else Keys(m, key) + [key(x)]
  {
    var i := IndexOfKey(m, key(x), key);
    if i != -1 {
      assert Keys(m, key)[i] == key(x);
    }
  }

  /** After setting `x`, its key reads back `x` and every other key reads what it read before. */
  lemma GetPut<T, K>(m: seq<T>, x: T, k: K, key: T -> K)
    ensures Get(Put(m, x, key), k, key) == if k == key(x) then Some(x) else Get(m, k, key)
  {
    var i := IndexOfKey(m, key(x), key);
    var m' := Put(m, x, key);
    var j := IndexOfKey(m, k, key);
    var j' := IndexOfKey(m', k, key);
    if i == -1 {
      assert m' == m + [x];
      if j == -1 {
        if k == key(x) {
          assert Keys(m', key)[|m|] == k;
          assert forall t :: 0 <= t < |m| ==> m'[t] == m[t];
          assert j' == |m|;
        }
      } else {
        assert Keys(m, key)[j] == k;
        IndexOfKeyAppend(m, x, k, key);
      }
    } else {
      assert m' == m[i := x];
      if k == key(x) {
        assert Keys(m', key)[i] == k;
        assert j' == i;
      } else if j != -1 {
        assert Keys(m, key)[j] == k;
        assert Keys(m', key)[j] == k;
        assert j' == j;
      }
    }
  }

  /** `s.forEach(x => map.set(key(x), x))` starting from `m`. */
  function PutAll<T, K(==)>(m: seq<T>, s: seq<T>, key: T -> K): seq<T>
  {
    if s == [] then m else Put(PutAll(m, s[..|s| - 1], key), s[|s| - 1], key)
  }

  /** Inserting one more value is one more `map.set`. */
  lemma PutAllSnoc<T, K>(m: seq<T>, s: seq<T>, x: T, key: T -> K)
    ensures PutAll(m, s + [x], key) == Put(PutAll(m, s, key), x, key)
  {
    assert (s + [x])[..|s + [x]| - 1] == s;
  }

  /** Inserting a sequence of values gives the keys of `m` followed by the new keys of `s`,
      each once, in first-occurrence order. */
  lemma {:induction false} KeysPutAll<T, K(!new)>(m: seq<T>, s: seq<T>, key: T -> K, a: seq<K>)
    requires Keys(m, key) == Dedup(a)
    ensures Keys(PutAll(m, s, key), key) == Dedup(a + Keys(s, key))
  {
    if s == [] {
      assert a + Keys(s, key) == a;
    } else {
      var s' := s[..|s| - 1];
      var x := s[|s| - 1];
      KeysPutAll(m, s', key, a);
      KeysSnoc(s, key);
      var b := a + Keys(s', key);
      assert a + Keys(s, key) == b + [key(x)];
      KeysPutStep(PutAll(m, s', key), x, key, b);
    }
  }

  /** One more `map.set` extends the de-duplicated keys by the new key. */
  lemma KeysPutStep<T, K(!new)>(m: seq<T>, x: T, key: T -> K, b: seq<K>)
    requires Keys(m, key) == Dedup(b)
    ensures Keys(Put(m, x, key), key) == Dedup(b + [key(x)])
  {
    KeysPut(m, x, key);
    DedupSnoc(b, key(x));
  }

  /** The keys of a non-empty sequence are those of all but its last value, then the last key. */
  lemma KeysSnoc<T, K>(s: seq<T>, key: T -> K)
    requires s != []
    ensures Keys(s, key) == Keys(s[..|s| - 1], key) + [key(s[|s| - 1])]
  {
  }

  /** A key that `s` never sets reads what it read in `m`. */
  lemma {:induction false} GetPutAllOther<T, K>(m: seq<T>, s: seq<T>, k: K, key: T -> K)
    requires k !in Keys(s, key)
    ensures Get(PutAll(m, s, key), k, key) == Get(m, k, key)
  {
    if s != [] {
      var s' := s[..|s| - 1];
      assert Keys(s', key) <= Keys(s, key);
      assert k != key(s[|s| - 1]) by {
        assert Keys(s, key)[|s| - 1] == key(s[|s| - 1]);
      }
      GetPutAllOther(m, s', k, key);
      GetPut(PutAll(m, s', key), s[|s| - 1], k, key);
    }
  }

  /** When the keys of `s` are distinct, each key that `s` sets reads the value `s` holds for it. */
  lemma {:induction false} GetPutAllMember<T, K>(m: seq<T>, s: seq<T>, j: int, key: T -> K)
    requires Distinct(Keys(s, key))
    requires 0 <= j < |s|
    ensures Get(PutAll(m, s, key), key(s[j]), key) == Some(s[j])
  {
    var s' := s[..|s| - 1];
    var x := s[|s| - 1];
    GetPut(PutAll(m, s', key), x, key(s[j]), key);
    if j < |s| - 1 {
      assert Keys(s, key)[j] != Keys(s, key)[|s| - 1];
      assert Distinct(Keys(s', key)) by {
        forall a, b | 0 <= a < b < |s'| ensures Keys(s', key)[a] != Keys(s', key)[b] {
          assert Keys(s', key)[a] == Keys(s, key)[a] && Keys(s', key)[b] == Keys(s, key)[b];
        }
      }
      assert s'[j] == s[j];
      GetPutAllMember(m, s', j, key);
    }
  }

  // ---------------------------------------------------------------- conditional set

  /** What a conditional set leaves under `key(x)`: the current value when there is one and
      `keep(current, x)` holds, otherwise `x`. */
  function Kept<T>(current: Option<T>, x: T, keep: (T, T) -> bool): (r: Option<T>)
    ensures r.Some?
    ensures current.Some? && keep(current.value, x) ==> r == current
    ensures current.None? || !keep(current.value, x) ==> r == Some(x)
  {
    if current.Some? && keep(current.value, x) then current else Some(x)
  }

  /** `if (!map.get(key(x)) || !keep(map.get(key(x)), x)) map.set(key(x), x)`. */
  function PutUnless<T, K(==)>(m: seq<T>, x: T, key: T -> K, keep: (T, T) -> bool): seq<T> {
    var current := Get(m, key(x), key);
    if current.Some? && keep(current.value, x) then m else Put(m, x, key)
  }

  /** The conditional set applied to each value of `s` in turn. */
  function PutAllUnless<T, K(==)>(m: seq<T>, s: seq<T>, key: T -> K, keep: (T, T) -> bool): seq<T> {
    if s == [] then m
    else PutUnless(PutAllUnless(m, s[..|s| - 1], key, keep), s[|s| - 1], key, keep)
  }

  lemma KeysPutUnless<T, K>(m: seq<T>, x: T, key: T -> K, keep: (T, T) -> bool)
    ensures Keys(PutUnless(m, x, key, keep), key) ==
      if key(x) in Keys(m, key) then Keys(m, key) else Keys(m, key) + [key(x)]
  {
    KeysPut(m, x, key);
  }

  lemma GetPutUnless<T, K>(m: seq<T>, x: T, k: K, key: T -> K, keep: (T, T) -> bool)
    ensures Get(PutUnless(m, x, key, keep), k, key) ==
      if k == key(x) then Kept(Get(m, k, key), x, keep) else Get(m, k, key)
  {
    GetPut(m, x, k, key);
  }

  /** The keys of a conditional fold are those of the plain fold: a value skipped by `keep`
      has its key present already. */
  lemma {:induction false} KeysPutAllUnless<T, K(!new)>(m: seq<T>, s: seq<T>, key: T -> K, keep: (T, T) -> bool, a: seq<K>)
    requires Keys(m, key) == Dedup(a)
    ensures Keys(PutAllUnless(m, s, key, keep), key) == Dedup(a + Keys(s, key))
  {
    if s == [] {
      assert a + Keys(s, key) == a;
    } else {
      var s' := s[..|s| - 1];
      var x := s[|s| - 1];
      KeysPutAllUnless(m, s', key, keep, a);
      KeysSnoc(s, key);
      var b := a + Keys(s', key);
      assert a + Keys(s, key) == b + [key(x)];
      KeysPutUnlessStep(PutAllUnless(m, s', key, keep), x, key, keep, b);
    }
  }

  /** One more conditional set extends the de-duplicated keys by the new key. */
  lemma KeysPutUnlessStep<T, K(!new)>(m: seq<T>, x: T, key: T -> K, keep: (T, T) -> bool, b: seq<K>)
    requires Keys(m, key) == Dedup(b)
    ensures Keys(PutUnless(m, x, key, keep), key) == Dedup(b + [key(x)])
  {
    KeysPutUnless(m, x, key, keep);
    DedupSnoc(b, key(x));
  }

  /** A key that `s` never sets reads what it read in `m`. */
  lemma {:induction false} GetPutAllUnlessOther<T, K>(m: seq<T>, s: seq<T>, k: K, key: T -> K, keep: (T, T) -> bool)
    requires k !in Keys(s, key)
    ensures Get(PutAllUnless(m, s, key, keep), k, key) == Get(m, k, key)
  {
    if s != [] {
      var s' := s[..|s| - 1];
      assert Keys(s', key) <= Keys(s, key);
      assert k != key(s[|s| - 1]) by {
        assert Keys(s, key)[|s| - 1] == key(s[|s| - 1]);
      }
      GetPutAllUnlessOther(m, s', k, key, keep);
      GetPutUnless(PutAllUnless(m, s', key, keep), s[|s| - 1], k, key, keep);
    }
  }

  /** With distinct keys in `s`, each value of `s` is weighed once against what `m` held. */
  lemma {:induction false} GetPutAllUnlessMember<T, K>(m: seq<T>, s: seq<T>, j: int, key: T -> K, keep: (T, T) -> bool)
    requires Distinct(Keys(s, key))
    requires 0 <= j < |s|
    ensures Get(PutAllUnless(m, s, key, keep), key(s[j]), key) == Kept(Get(m, key(s[j]), key), s[j], keep)
  {
    var s' := s[..|s| - 1];
    var x := s[|s| - 1];
    var k := key(s[j]);
    GetPutUnless(PutAllUnless(m, s', key, keep), x, k, key, keep);
    if j < |s| - 1 {
      assert Keys(s, key)[j] != Keys(s, key)[|s| - 1];
      assert Distinct(Keys(s', key)) by {
        forall a, b | 0 <= a < b < |s'| ensures Keys(s', key)[a] != Keys(s', key)[b] {
          assert Keys(s', key)[a] == Keys(s, key)[a] && Keys(s', key)[b] == Keys(s, key)[b];
        }
      }
      assert s'[j] == s[j];
      GetPutAllUnlessMember(m, s', j, key, keep);
    } else {
      assert k !in Keys(s', key) by {
        forall t | 0 <= t < |s'| ensures Keys(s', key)[t] != k {
          assert Keys(s', key)[t] == Keys(s, key)[t];
          assert Keys(s, key)[t] != Keys(s, key)[|s| - 1];
        }
      }
      GetPutAllUnlessOther(m, s', k, key, keep);
    }
  }

  /** What a fold of distinct keys gives each key, starting from an empty map. */
  lemma PutAllFromEmpty<T, K>(s: seq<T>, k: K, key: T -> K)
    requires Distinct(Keys(s, key))
    ensures k !in Keys(s, key) ==> Get(PutAll([], s, key), k, key) == None
    ensures forall i :: 0 <= i < |s| && key(s[i]) == k ==> Get(PutAll([], s, key), k, key) == Some(s[i])
  {
    if k !in Keys(s, key) {
      GetPutAllOther([], s, k, key);
    }
    forall i | 0 <= i < |s| && key(s[i]) == k
      ensures Get(PutAll([], s, key), k, key) == Some(s[i])
    {
      GetPutAllMember([], s, i, key);
    }
  }

  /** Every value a set leaves in the map was in the map or is the value set. */
  lemma PutFrom<T, K>(m: seq<T>, x: T, key: T -> K, p: T -> bool)
    requires forall i :: 0 <= i < |m| ==> p(m[i])
    requires p(x)
    ensures forall i :: 0 <= i < |Put(m, x, key)| ==> p(Put(m, x, key)[i])
  {
  }

  /** A property shared by the map and the inserted values holds of the result. */
  lemma {:induction false} PutAllFrom<T, K>(m: seq<T>, s: seq<T>, key: T -> K, p: T -> bool)
    requires forall i :: 0 <= i < |m| ==> p(m[i])
    requires forall i :: 0 <= i < |s| ==> p(s[i])
    ensures forall i :: 0 <= i < |PutAll(m, s, key)| ==> p(PutAll(m, s, key)[i])
  {
    if s != [] {
      var s' := s[..|s| - 1];
      PutAllFrom(m, s', key, p);
      PutFrom(PutAll(m, s', key), s[|s| - 1], key, p);
    }
  }
}
