/** A Python `dict` with string keys, as the scheduler uses it: a list of
    key/value pairs with distinct keys, whose order is the insertion order.
    Assigning to a key that is already present replaces its value where it
    stands; assigning to a new key appends it. */
module Dicts {
  import opened Common

  type Dict<V> = seq<(string, V)>

  function Keys<V>(d: Dict<V>): (ks: seq<string>)
    ensures |ks| == |d|
    ensures forall i :: 0 <= i < |d| ==> ks[i] == d[i].0
  {
    if d == [] then [] else [d[0].0] + Keys(d[1..])
  }

  predicate DistinctKeys<V>(d: Dict<V>)
  {
    forall i, j :: 0 <= i < j < |d| ==> d[i].0 != d[j].0
  }

  /** `d.get(k)`: the value stored under `k`, if any. */
  function Get<V>(d: Dict<V>, k: string): (r: Option<V>)
    ensures r.None? <==> k !in Keys(d)
  {
    if d == [] then None
    else if d[0].0 == k then Some(d[0].1)
    else Get(d[1..], k)
  }

  /** `d[k] = v`. */
  function Put<V>(d: Dict<V>, k: string, v: V): (r: Dict<V>)
    ensures Get(r, k) == Some(v)
  {
    if d == [] then [(k, v)]
    else if d[0].0 == k then [(k, v)] + d[1..]
    else [d[0]] + Put(d[1..], k, v)
  }

  /** Assigning one key leaves every other key's value alone. */
  lemma {:induction false} PutOther<V>(d: Dict<V>, k: string, v: V, k': string)
    requires k' != k
    ensures Get(Put(d, k, v), k') == Get(d, k')
  {
    if d != [] && d[0].0 != k {
      PutOther(d[1..], k, v, k');
    }
  }

  /** An existing key keeps its position; a new key goes last. */
  lemma {:induction false} PutKeys<V>(d: Dict<V>, k: string, v: V)
    ensures k in Keys(d) ==> Keys(Put(d, k, v)) == Keys(d)
    ensures k !in Keys(d) ==> Keys(Put(d, k, v)) == Keys(d) + [k]
  {
    if d != [] && d[0].0 != k {
      PutKeys(d[1..], k, v);
      assert Keys(d) == [d[0].0] + Keys(d[1..]);
    }
  }

  lemma PutDistinct<V>(d: Dict<V>, k: string, v: V)
    requires DistinctKeys(d)
    ensures DistinctKeys(Put(d, k, v))
  {
    PutKeys(d, k, v);
    var r := Put(d, k, v);
    assert DistinctKeys(r) by {
      forall i, j | 0 <= i < j < |r| ensures r[i].0 != r[j].0 {
        assert Keys(r)[i] == r[i].0 && Keys(r)[j] == r[j].0;
        if k !in Keys(d) && j == |d| {
          assert Keys(d)[i] == r[i].0;
        } else {
          assert Keys(d)[i] == r[i].0 && Keys(d)[j] == r[j].0;
        }
      }
    }
  }

  /** Assigning a key keeps the old keys as a prefix and adds the new key
      unless it was present. */
  lemma PutPrefix<V>(d: Dict<V>, k: string, v: V)
    ensures |Put(d, k, v)| == |d| + (if k in Keys(d) then 0 else 1)
    ensures Keys(Put(d, k, v))[..|d|] == Keys(d)
    ensures forall k' :: k' in Keys(Put(d, k, v)) <==> k' == k || k' in Keys(d)
  {
    PutKeys(d, k, v);
    var ks := Keys(d);
    if k !in ks {
      assert (ks + [k])[..|d|] == ks;
    }
  }

  /** The keys after assigning two different keys in turn: the old keys,
      then the first new key unless present, then the second unless
      present. */
  lemma PutTwiceKeys<V>(d: Dict<V>, k1: string, v1: V, k2: string, v2: V)
    requires k1 != k2
    ensures Keys(Put(Put(d, k1, v1), k2, v2)) == Keys(d)
      + (if k1 in Keys(d) then [] else [k1])
      + (if k2 in Keys(d) then [] else [k2])
  {
    var ks1 := Keys(d) + (if k1 in Keys(d) then [] else [k1]);
    PutKeys(d, k1, v1);
    assert Keys(Put(d, k1, v1)) == ks1;
    assert k2 in ks1 <==> k2 in Keys(d);
    PutKeys(Put(d, k1, v1), k2, v2);
  }

  /** Assigning two different keys in turn: the result has distinct keys,
      the old keys first and in order, and each new key appended unless it
      was already present. */
  lemma PutTwice<V>(d: Dict<V>, k1: string, v1: V, k2: string, v2: V)
    requires DistinctKeys(d) && k1 != k2
    ensures var r := Put(Put(d, k1, v1), k2, v2);
      && DistinctKeys(r)
      && |r| == |d| + (if k1 in Keys(d) then 0 else 1) + (if k2 in Keys(d) then 0 else 1)
      && Keys(r)[..|d|] == Keys(d)
  {
    var d1 := Put(d, k1, v1);
    PutDistinct(d, k1, v1);
    PutDistinct(d1, k2, v2);
    PutPrefix(d, k1, v1);
    PutPrefix(d1, k2, v2);
    var kr := Keys(Put(d1, k2, v2));
    assert kr[..|d|] == kr[..|d1|][..|d|];
  }

  /** The dict comprehension `{ks[i]: vs[i] for i ...}`. */
  function Zip<V>(ks: seq<string>, vs: seq<V>): (d: Dict<V>)
    requires |ks| == |vs|
    ensures |d| == |ks| && Keys(d) == ks
    ensures forall i :: 0 <= i < |d| ==> d[i] == (ks[i], vs[i])
  {
    seq(|ks|, i requires 0 <= i < |ks| => (ks[i], vs[i]))
  }

  /** With distinct keys, looking up the i-th key finds the i-th value. */
  lemma {:induction false} GetDistinct<V>(d: Dict<V>, i: nat)
    requires DistinctKeys(d) && i < |d|
    ensures Get(d, d[i].0) == Some(d[i].1)
  {
    if i > 0 {
      assert d[1..][i - 1] == d[i];
      assert DistinctKeys(d[1..]);
      GetDistinct(d[1..], i - 1);
    }
  }
}
