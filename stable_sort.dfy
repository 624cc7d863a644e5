/** Python's `sorted(xs, key=key, reverse=True)` on a real-valued key: the
    result is a permutation of the input, ordered by non-increasing key, and
    elements with equal keys keep their input order (Python's sort is stable,
    and `reverse=True` preserves that stability). Modelled as an insertion
    sort that inserts each element in front of every element whose key is not
    larger. */
module StableSort {

  predicate NonIncreasing<T>(s: seq<T>, key: T -> real)
  {
    forall i, j :: 0 <= i < j < |s| ==> key(s[i]) >= key(s[j])
  }

  /** Along a non-increasing sequence, an element with a strictly larger
      key comes strictly earlier. */
  lemma StrictlyGreaterFirst<T>(s: seq<T>, key: T -> real)
    requires NonIncreasing(s, key)
    ensures forall a, b :: 0 <= a < |s| && 0 <= b < |s| && key(s[a]) > key(s[b]) ==> a < b
  {
    forall a, b | 0 <= a < |s| && 0 <= b < |s| ensures key(s[a]) > key(s[b]) ==> a < b {
      if b <= a {
        assert key(s[b]) >= key(s[a]);
      }
    }
  }

  /** The elements of `s` whose key is `k`, in their order in `s`. */
  function WithKey<T>(s: seq<T>, key: T -> real, k: real): seq<T>
  {
    if s == [] then []
    else if key(s[0]) == k then [s[0]] + WithKey(s[1..], key, k)
    else WithKey(s[1..], key, k)
  }

  function Insert<T(==)>(x: T, s: seq<T>, key: T -> real): (r: seq<T>)
    ensures |r| == |s| + 1 && multiset(r) == multiset(s) + multiset{x}
  {
    if s == [] || key(s[0]) <= key(x) then [x] + s
    else
      assert s == [s[0]] + s[1..];
      [s[0]] + Insert(x, s[1..], key)
  }

  /** Inserting an element no heavier than `m` among elements no heavier
      than `m` leaves every element no heavier than `m`. */
  lemma {:induction false} InsertBelow<T>(x: T, s: seq<T>, key: T -> real, m: real)
    requires key(x) <= m
    requires forall j :: 0 <= j < |s| ==> key(s[j]) <= m
    ensures forall j :: 0 <= j < |s| + 1 ==> key(Insert(x, s, key)[j]) <= m
  {
    if s != [] && key(s[0]) > key(x) {
      InsertBelow(x, s[1..], key, m);
    }
  }

  /** Inserting into a sorted sequence keeps it sorted. */
  lemma {:induction false} InsertSorted<T>(x: T, s: seq<T>, key: T -> real)
    requires NonIncreasing(s, key)
    ensures NonIncreasing(Insert(x, s, key), key)
  {
    if s != [] && key(s[0]) > key(x) {
      var rest := Insert(x, s[1..], key);
      InsertSorted(x, s[1..], key);
      InsertBelow(x, s[1..], key, key(s[0]));
      assert Insert(x, s, key) == [s[0]] + rest;
    }
  }

  function SortDesc<T(==)>(s: seq<T>, key: T -> real): (r: seq<T>)
    ensures |r| == |s| && multiset(r) == multiset(s)
    ensures NonIncreasing(r, key)
  {
    if s == [] then []
    else
      assert s == [s[0]] + s[1..];
      assert multiset(s) == multiset{s[0]} + multiset(s[1..]);
      var rest := SortDesc(s[1..], key);
      InsertSorted(s[0], rest, key);
      Insert(s[0], rest, key)
  }

  /** Inserting `x` in front of every element with a key no larger than its
      own does not disturb the relative order of any key class. */
  lemma {:induction false} InsertStable<T>(x: T, s: seq<T>, key: T -> real, k: real)
    requires NonIncreasing(s, key)
    ensures WithKey(Insert(x, s, key), key, k) == WithKey([x] + s, key, k)
  {
    if s != [] && key(s[0]) > key(x) {
      assert NonIncreasing(s[1..], key);
      InsertStable(x, s[1..], key, k);
      var r := Insert(x, s, key);
      assert r == [s[0]] + Insert(x, s[1..], key);
      assert ([s[0]] + Insert(x, s[1..], key))[1..] == Insert(x, s[1..], key);
      assert ([x] + s)[1..] == s;
      assert ([x] + s[1..])[1..] == s[1..];
      assert s == [s[0]] + s[1..];
      if key(x) == k {
        // every element passed over has a larger key, so none is in the class
        assert WithKey(s, key, k) == WithKey(s[1..], key, k);
      }
    }
  }

  /** Stability: sorting keeps, for every key value, the input order of the
      elements that have it. */
  lemma {:induction false} SortDescStable<T>(s: seq<T>, key: T -> real, k: real)
    ensures WithKey(SortDesc(s, key), key, k) == WithKey(s, key, k)
  {
    if s != [] {
      var sorted := SortDesc(s[1..], key);
      SortDescStable(s[1..], key, k);
      InsertStable(s[0], sorted, key, k);
      assert ([s[0]] + sorted)[1..] == sorted;
      assert s == [s[0]] + s[1..];
    }
  }
}
