/**
 * Python dictionaries as insertion-ordered association lists: a key keeps
 * the position of its first insertion, and storing an existing key
 * replaces its value in place.
 */
module Dicts {
  import opened Wrappers

  type Dict<K, V> = seq<(K, V)>

  function Keys<K, V>(d: Dict<K, V>): (ks: seq<K>)
    ensures |ks| == |d|
    ensures forall i :: 0 <= i < |d| ==> ks[i] == d[i].0
  {
    if |d| == 0 then [] else [d[0].0] + Keys(d[1..])
  }

  predicate HasKey<K(==), V>(d: Dict<K, V>, k: K) {
    k in Keys(d)
  }

  predicate UniqueKeys<K(==), V>(d: Dict<K, V>) {
    forall i, j :: 0 <= i < j < |d| ==> d[i].0 != d[j].0
  }

  /** d.get(k): the value bound to k, or None when k is absent. */
  function Get<K(==), V>(d: Dict<K, V>, k: K): (r: Option<V>)
    ensures r.None? <==> !HasKey(d, k)
    ensures r.Some? ==> (k, r.value) in d
  {
    if |d| == 0 then None
    else if d[0].0 == k then Some(d[0].1)
    else Get(d[1..], k)
  }

  /** d[k] = v: an existing key keeps its place and takes the new value; a new key goes last. */
  function Put<K(==), V>(d: Dict<K, V>, k: K, v: V): (r: Dict<K, V>)
  {
    if |d| == 0 then [(k, v)]
    else if d[0].0 == k then [(k, v)] + d[1..]
    else [d[0]] + Put(d[1..], k, v)
  }

  /** Storing a key keeps the key order, appending the key when it is new. */
  lemma {:induction false} PutKeys<K, V>(d: Dict<K, V>, k: K, v: V)
    ensures Keys(Put(d, k, v)) == if HasKey(d, k) then Keys(d) else Keys(d) + [k]
  {
    if |d| > 0 && d[0].0 != k {
      PutKeys(d[1..], k, v);
      assert Keys([d[0]] + Put(d[1..], k, v)) == [d[0].0] + Keys(Put(d[1..], k, v));
    } else if |d| > 0 {
      assert Keys([(k, v)] + d[1..]) == [k] + Keys(d[1..]);
    }
  }

  /** After d[k] = v, d[k] is v and every other key reads as before. */
  lemma {:induction false} PutGet<K(!new), V>(d: Dict<K, V>, k: K, v: V)
    ensures Get(Put(d, k, v), k) == Some(v)
    ensures forall k' :: k' != k ==> Get(Put(d, k, v), k') == Get(d, k')
  {
    if |d| > 0 && d[0].0 != k {
      PutGet(d[1..], k, v);
      assert Put(d, k, v)[1..] == Put(d[1..], k, v);
    } else if |d| > 0 {
      assert Put(d, k, v)[1..] == d[1..];
    }
  }

  /** Storing one key leaves the value of another as it was. */
  lemma PutGetOther<K(!new), V>(d: Dict<K, V>, k: K, v: V, other: K)
    requires other != k
    ensures Get(Put(d, k, v), other) == Get(d, other)
  {
    PutGet(d, k, v);
  }

  /** d[k] = v never introduces a duplicate key. */
  lemma PutUnique<K, V>(d: Dict<K, V>, k: K, v: V)
    requires UniqueKeys(d)
    ensures UniqueKeys(Put(d, k, v))
  {
    PutKeys(d, k, v);
    var r := Put(d, k, v);
    assert forall i :: 0 <= i < |r| ==> r[i].0 == Keys(r)[i];
  }

  /** Storing a key that is absent appends the pair at the end. */
  lemma {:induction false} PutNew<K, V>(d: Dict<K, V>, k: K, v: V)
    requires !HasKey(d, k)
    ensures Put(d, k, v) == d + [(k, v)]
  {
    if |d| > 0 {
      assert Keys(d) == [d[0].0] + Keys(d[1..]);
      PutNew(d[1..], k, v);
      assert d == [d[0]] + d[1..];
    }
  }

  /** Every pair after d[k] = v is the new pair or one that was already there. */
  lemma {:induction false} PutEntries<K, V>(d: Dict<K, V>, k: K, v: V)
    ensures forall e :: e in Put(d, k, v) ==> e == (k, v) || e in d
  {
    if |d| > 0 && d[0].0 != k {
      PutEntries(d[1..], k, v);
      assert forall e :: e in d[1..] ==> e in d;
    }
  }

  /** {k: f(v) for k, v in d.items()}: the same keys in the same order. */
  function MapValues<K, V, W>(d: Dict<K, V>, f: V -> W): (r: Dict<K, W>)
    ensures |r| == |d|
    ensures forall i :: 0 <= i < |d| ==> r[i] == (d[i].0, f(d[i].1))
  {
    seq(|d|, i requires 0 <= i < |d| => (d[i].0, f(d[i].1)))
  }

  /** Mapping the values keeps the keys. */
  lemma MapValuesKeys<K, V, W>(d: Dict<K, V>, f: V -> W)
    ensures Keys(MapValues(d, f)) == Keys(d)
  {
  }

  /** Reading a mapped dictionary is mapping what the original holds. */
  lemma {:induction false} MapValuesGet<K, V, W>(d: Dict<K, V>, f: V -> W, k: K)
    ensures Get(MapValues(d, f), k) == if HasKey(d, k) then Some(f(Get(d, k).value)) else None
  {
    if |d| > 0 {
      assert MapValues(d, f)[1..] == MapValues(d[1..], f);
      assert Keys(d) == [d[0].0] + Keys(d[1..]);
      MapValuesGet(d[1..], f, k);
    }
  }

  /** {k: f(k) for k in ks}, filled key by key. */
  function FromKeys<K(==), V>(ks: seq<K>, f: K -> V): Dict<K, V>
    decreases |ks|
  {
    if |ks| == 0 then [] else Put(FromKeys(ks[..|ks| - 1], f), ks[|ks| - 1], f(ks[|ks| - 1]))
  }

  /** Exactly the listed keys are present, each with its image. */
  lemma {:induction false} FromKeysGet<K(!new), V>(ks: seq<K>, f: K -> V, k: K)
    ensures Get(FromKeys(ks, f), k) == if k in ks then Some(f(k)) else None
  {
    if |ks| > 0 {
      var init := ks[..|ks| - 1];
      var last := ks[|ks| - 1];
      var d := FromKeys(init, f);
      assert FromKeys(ks, f) == Put(d, last, f(last));
      PutGet(d, last, f(last));
      if k != last {
        FromKeysGet(init, f, k);
        assert ks == init + [last];
        assert k in ks <==> k in init;
      }
    }
  }

  /** The keys are distinct and every pair is a key with its image. */
  lemma {:induction false} FromKeysShape<K, V>(ks: seq<K>, f: K -> V)
    ensures UniqueKeys(FromKeys(ks, f))
    ensures forall e :: e in FromKeys(ks, f) ==> e.0 in ks && e.1 == f(e.0)
  {
    if |ks| > 0 {
      var init := ks[..|ks| - 1];
      var last := ks[|ks| - 1];
      FromKeysShape(init, f);
      PutUnique(FromKeys(init, f), last, f(last));
      PutEntries(FromKeys(init, f), last, f(last));
      assert forall k :: k in init ==> k in ks;
    }
  }
}
