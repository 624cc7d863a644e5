/** Small shared vocabulary: an optional value and the real-number folds
    (sum, maximum, minimum) that the ranking and the scheduler both use. */
module Common {

  datatype Option<T> = None | Some(value: T)

  /** Python's `sum` over a list of floats: a left fold starting at 0.0,
      so the last element is the one added last. */
  function Sum(xs: seq<real>): real
  {
    if xs == [] then 0.0 else Sum(xs[..|xs| - 1]) + xs[|xs| - 1]
  }

  /** A sum of non-negative terms is non-negative. */
  lemma {:induction false} SumNonNegative(xs: seq<real>)
    requires forall i :: 0 <= i < |xs| ==> xs[i] >= 0.0
    ensures Sum(xs) >= 0.0
  {
    if xs != [] {
      SumNonNegative(xs[..|xs| - 1]);
    }
  }

  lemma SumSnoc(xs: seq<real>, x: real)
    ensures Sum(xs + [x]) == Sum(xs) + x
  {
    assert (xs + [x])[..|xs|] == xs;
  }

  /** A sum of zeros is zero. */
  lemma {:induction false} ZeroSum(xs: seq<real>)
    requires forall i :: 0 <= i < |xs| ==> xs[i] == 0.0
    ensures Sum(xs) == 0.0
  {
    if xs != [] {
      ZeroSum(xs[..|xs| - 1]);
    }
  }

  /** A sum that is nowhere larger, and at the last position smaller, is
      smaller. */
  lemma {:induction false} SumBelow(xs: seq<real>, ys: seq<real>)
    requires |xs| == |ys| > 0
    requires forall k :: 0 <= k < |xs| ==> xs[k] <= ys[k]
    requires xs[|xs| - 1] < ys[|ys| - 1]
    ensures Sum(xs) < Sum(ys)
  {
    var n := |xs| - 1;
    SumAtMost(xs[..n], ys[..n]);
  }

  /** A sum that is nowhere larger is no larger. */
  lemma {:induction false} SumAtMost(xs: seq<real>, ys: seq<real>)
    requires |xs| == |ys|
    requires forall k :: 0 <= k < |xs| ==> xs[k] <= ys[k]
    ensures Sum(xs) <= Sum(ys)
  {
    if xs != [] {
      var n := |xs| - 1;
      SumAtMost(xs[..n], ys[..n]);
    }
  }

  lemma {:induction false} SumAppend(xs: seq<real>, ys: seq<real>)
    ensures Sum(xs + ys) == Sum(xs) + Sum(ys)
    decreases |ys|
  {
    if ys == [] {
      assert xs + ys == xs;
    } else {
      var init, last := ys[..|ys| - 1], ys[|ys| - 1];
      assert ys == init + [last];
      assert xs + ys == (xs + init) + [last];
      SumAppend(xs, init);
      SumSnoc(xs + init, last);
      SumSnoc(init, last);
    }
  }

  /** Adding from the front gives the same total as the left fold. */
  lemma SumCons(x: real, xs: seq<real>)
    ensures Sum([x] + xs) == x + Sum(xs)
  {
    SumAppend([x], xs);
    assert [x][..0] == [];
  }

  /** The smaller of two reals, as Python's two-argument `min`. */
  function Min2(a: real, b: real): (r: real)
    ensures r <= a && r <= b
    ensures r == a || r == b
  {
    if b < a then b else a
  }

  /** Python's `max` over a non-empty list. */
  function Max(xs: seq<real>): (r: real)
    requires |xs| > 0
    ensures r in xs
    ensures forall i :: 0 <= i < |xs| ==> xs[i] <= r
  {
    if |xs| == 1 then xs[0]
    else
      var rest := Max(xs[1..]);
      assert forall i :: 1 <= i < |xs| ==> xs[i] == xs[1..][i - 1];
      if xs[0] >= rest then xs[0] else rest
  }

  /** Python's `min` over a non-empty list. */
  function Min(xs: seq<real>): (r: real)
    requires |xs| > 0
    ensures r in xs
    ensures forall i :: 0 <= i < |xs| ==> r <= xs[i]
  {
    if |xs| == 1 then xs[0]
    else
      var rest := Min(xs[1..]);
      assert forall i :: 1 <= i < |xs| ==> xs[i] == xs[1..][i - 1];
      if xs[0] <= rest then xs[0] else rest
  }
}
