/** TOPSIS ranking of candidate states (`topsis_rank_states`).

    Each state is scored on the criteria named by `order`: the decision
    matrix is normalised column by column by its Euclidean norm, weighted by
    the normalised weights, and every state's closeness to the ideal point is
    `S- / (S+ + S-)`, where `S+` and `S-` are its distances to the best and
    worst values of each column (the best of a benefit criterion is its
    maximum, of a cost criterion its minimum). The states are then sorted by
    non-increasing closeness and numbered 1, 2, ... in that order.

    The square root is a parameter: the model holds for any function, and
    the properties that need it assume only `IsSqrt`. */
module Topsis {
  import opened Common
  import opened States
  import opened StableSort

  type Criterion = Field

  /** The `ValueError`s and `KeyError`s the ranking can raise. */
  datatype Error =
    | MissingWeight(criterion: Criterion)
    | MissingFlag(criterion: Criterion)
    | MissingCriterion(state: string, criterion: Criterion)
    | NonPositiveWeightSum
      /** `max()` or `min()` of an empty column, whichever the first
          criterion's polarity calls first: there are criteria but no states. */
    | NoStates
      /** A result entry reads `score`, `cost_per_habitant` and `population`
          whether or not they are criteria. */
    | MissingField(state: string, field: Field)

  datatype Check = Pass | Fail(error: Error)

  datatype Result<T> = Ok(value: T) | Err(error: Error)
  {
    predicate IsFailure() { Err? }
    function PropagateFailure<U>(): Result<U> requires Err? { Err(error) }
    function Extract(): T requires Ok? { value }
  }

  /** One line of the ranking: the state's name, its closeness, the three
      fields copied from the input, and its rank once it has one. */
  datatype Entry = Entry(name: string, closeness: real, score: real,
                         costPerHabitant: real, population: real, rank: Option<nat>)

  const DefaultWeights: map<Criterion, real> :=
    map[Score := 0.6, CostPerHabitant := 0.3, Population := 0.1]
  const DefaultFlags: map<Criterion, bool> :=
    map[Score := true, CostPerHabitant := false, Population := true]
  const DefaultOrder: seq<Criterion> := [Score, CostPerHabitant, Population]

  function OrDefault<T>(o: Option<T>, default: T): T
  {
    if o.Some? then o.value else default
  }

  /** What the ranking needs of the square root: non-negative on
      non-negative arguments, and zero exactly at zero. */
  ghost predicate IsSqrt(sqrt: real -> real)
  {
    forall x :: x >= 0.0 ==> sqrt(x) >= 0.0 && (sqrt(x) == 0.0 <==> x == 0.0)
  }

  // ---------------------------------------------------------------------
  // Validation

  predicate Configured(c: Criterion, weights: map<Criterion, real>, flags: map<Criterion, bool>)
  {
    c in weights && c in flags
  }

  /** The error for a criterion that is not configured: the weight is
      checked before the flag. */
  function ConfigError(c: Criterion, weights: map<Criterion, real>): Error
  {
    if c !in weights then MissingWeight(c) else MissingFlag(c)
  }

  /** `order[j]` is the first criterion from position `k` on that is not
      configured. */
  predicate FirstUnconfigured(order: seq<Criterion>, weights: map<Criterion, real>,
                              flags: map<Criterion, bool>, k: nat, j: nat)
    requires k <= j < |order|
  {
    (forall i :: k <= i < j ==> Configured(order[i], weights, flags))
    && !Configured(order[j], weights, flags)
  }

  /** The first validation loop, from position `k` of `order` on. */
  function CheckConfigFrom(order: seq<Criterion>, weights: map<Criterion, real>,
                           flags: map<Criterion, bool>, k: nat): (r: Check)
    requires k <= |order|
    ensures r.Pass? <==> forall j :: k <= j < |order| ==> Configured(order[j], weights, flags)
    ensures r.Fail? ==> exists j :: k <= j < |order| && FirstUnconfigured(order, weights, flags, k, j)
                                    && r.error == ConfigError(order[j], weights)
    decreases |order| - k
  {
    if k == |order| then Pass
    else if !Configured(order[k], weights, flags) then
      assert FirstUnconfigured(order, weights, flags, k, k);
      Fail(ConfigError(order[k], weights))
    else
      var r := CheckConfigFrom(order, weights, flags, k + 1);
      assert r.Fail? ==> exists j :: k <= j < |order| && FirstUnconfigured(order, weights, flags, k, j)
                                     && r.error == ConfigError(order[j], weights) by {
        if r.Fail? {
          var j :| k + 1 <= j < |order| && FirstUnconfigured(order, weights, flags, k + 1, j)
                   && r.error == ConfigError(order[j], weights);
          assert FirstUnconfigured(order, weights, flags, k, j);
        }
      }
      r
  }

  function CheckConfig(order: seq<Criterion>, weights: map<Criterion, real>,
                       flags: map<Criterion, bool>): Check
  {
    CheckConfigFrom(order, weights, flags, 0)
  }

  predicate HasCriteria(s: State, order: seq<Criterion>)
  {
    forall j :: 0 <= j < |order| ==> order[j] in s.fields
  }

  /** `order[j]` is the first criterion from position `k` on that `s` lacks. */
  predicate FirstMissing(s: State, order: seq<Criterion>, k: nat, j: nat)
    requires k <= j < |order|
  {
    (forall i :: k <= i < j ==> order[i] in s.fields) && order[j] !in s.fields
  }

  /** The inner loop of the second validation loop: one state's criteria
      from position `k` on. */
  function CheckStateFrom(s: State, order: seq<Criterion>, k: nat): (r: Check)
    requires k <= |order|
    ensures r.Pass? <==> forall j :: k <= j < |order| ==> order[j] in s.fields
    ensures r.Fail? ==> exists j :: k <= j < |order| && FirstMissing(s, order, k, j)
                                    && r.error == MissingCriterion(s.name, order[j])
    decreases |order| - k
  {
    if k == |order| then Pass
    else if order[k] !in s.fields then
      assert FirstMissing(s, order, k, k);
      Fail(MissingCriterion(s.name, order[k]))
    else
      var r := CheckStateFrom(s, order, k + 1);
      assert r.Fail? ==> exists j :: k <= j < |order| && FirstMissing(s, order, k, j)
                                     && r.error == MissingCriterion(s.name, order[j]) by {
        if r.Fail? {
          var j :| k + 1 <= j < |order| && FirstMissing(s, order, k + 1, j)
                   && r.error == MissingCriterion(s.name, order[j]);
          assert FirstMissing(s, order, k, j);
        }
      }
      r
  }

  /** The outer loop of the second validation loop, from state `a` on: the
      first state lacking a criterion is reported, with its first missing
      criterion. */
  function CheckStatesFrom(states: seq<State>, order: seq<Criterion>, a: nat): (r: Check)
    requires a <= |states|
    ensures r.Pass? <==> forall b :: a <= b < |states| ==> HasCriteria(states[b], order)
    ensures r.Fail? ==> exists b :: a <= b < |states|
                                    && (forall b' :: a <= b' < b ==> HasCriteria(states[b'], order))
                                    && r == CheckStateFrom(states[b], order, 0)
    decreases |states| - a
  {
    if a == |states| then Pass
    else
      var first := CheckStateFrom(states[a], order, 0);
      if first.Fail? then first
      else
        var r := CheckStatesFrom(states, order, a + 1);
        assert r.Fail? ==> exists b :: a <= b < |states|
                                       && (forall b' :: a <= b' < b ==> HasCriteria(states[b'], order))
                                       && r == CheckStateFrom(states[b], order, 0) by {
          if r.Fail? {
            var b :| a + 1 <= b < |states|
                     && (forall b' :: a + 1 <= b' < b ==> HasCriteria(states[b'], order))
                     && r == CheckStateFrom(states[b], order, 0);
            assert forall b' :: a <= b' < b ==> HasCriteria(states[b'], order);
          }
        }
        r
  }

  function CheckStates(states: seq<State>, order: seq<Criterion>): Check
  {
    CheckStatesFrom(states, order, 0)
  }

  // ---------------------------------------------------------------------
  // The numeric pipeline

  predicate IsMatrix(X: seq<seq<real>>, m: nat)
  {
    forall i :: 0 <= i < |X| ==> |X[i]| == m
  }

  /** One row of `X`: the state's values of the criteria, in order. */
  function Row(s: State, order: seq<Criterion>): (row: seq<real>)
    requires HasCriteria(s, order)
    ensures |row| == |order|
  {
    seq(|order|, j requires 0 <= j < |order| => s.fields[order[j]])
  }

  /** The decision matrix `X`: one row per state, one column per criterion. */
  function Matrix(states: seq<State>, order: seq<Criterion>): (X: seq<seq<real>>)
    requires forall i :: 0 <= i < |states| ==> HasCriteria(states[i], order)
    ensures |X| == |states| && IsMatrix(X, |order|)
  {
    seq(|states|, i requires 0 <= i < |states| => Row(states[i], order))
  }

  function Column(X: seq<seq<real>>, j: nat): (col: seq<real>)
    requires forall i :: 0 <= i < |X| ==> j < |X[i]|
    ensures |col| == |X|
  {
    seq(|X|, i requires 0 <= i < |X| => X[i][j])
  }

  /** A product of reals; `x ** 2` is `Product(x, x)`. Facts about squares
      are stated on this term rather than on `x * x` directly. */
  function Product(a: real, b: real): real
  {
    a * b
  }

  lemma ProductPositive(a: real, b: real)
    requires a > 0.0 && b > 0.0
    ensures Product(a, b) > 0.0
  {
  }

  /** A square is never negative, and is zero only for zero. */
  lemma Square(x: real)
    ensures Product(x, x) >= 0.0
    ensures x != 0.0 ==> Product(x, x) > 0.0
  {
    if x > 0.0 {
      ProductPositive(x, x);
    } else if x < 0.0 {
      ProductPositive(-x, -x);
      assert Product(-x, -x) == Product(x, x);
    }
  }

  function Squares(xs: seq<real>): (sq: seq<real>)
    ensures |sq| == |xs| && forall i :: 0 <= i < |xs| ==> sq[i] == Product(xs[i], xs[i])
  {
    seq(|xs|, i requires 0 <= i < |xs| => Product(xs[i], xs[i]))
  }

  /** `sum(x ** 2 for x in xs)`. */
  function SumSquares(xs: seq<real>): (r: real)
    ensures r >= 0.0
  {
    assert forall i :: 0 <= i < |xs| ==> Squares(xs)[i] >= 0.0 by {
      forall i | 0 <= i < |xs| ensures Squares(xs)[i] >= 0.0 {
        Square(xs[i]);
      }
    }
    SumNonNegative(Squares(xs));
    Sum(Squares(xs))
  }

  /** A sum of squares is never negative, and is zero exactly when every
      term is. */
  lemma {:induction false} SumSquaresZero(xs: seq<real>)
    ensures SumSquares(xs) >= 0.0
    ensures SumSquares(xs) == 0.0 <==> forall i :: 0 <= i < |xs| ==> xs[i] == 0.0
  {
    if xs != [] {
      var init, x := xs[..|xs| - 1], xs[|xs| - 1];
      assert Squares(xs)[..|xs| - 1] == Squares(init) by {
        forall i | 0 <= i < |init| ensures Squares(xs)[i] == Squares(init)[i] {
          assert init[i] == xs[i];
        }
      }
      SumSquaresZero(init);
      Square(x);
      assert SumSquares(xs) == SumSquares(init) + Product(x, x);
      if SumSquares(xs) == 0.0 {
        assert SumSquares(init) == 0.0 && x == 0.0;
        forall i | 0 <= i < |xs| ensures xs[i] == 0.0 {
          if i < |xs| - 1 {
            assert init[i] == xs[i];
          }
        }
      }
      if forall i :: 0 <= i < |xs| ==> xs[i] == 0.0 {
        assert forall i :: 0 <= i < |init| ==> init[i] == xs[i];
      }
    }
  }

  /** One entry of `col_norms`: the column's Euclidean norm, or 1.0 where
      that norm is zero, so that it can always be divided by. */
  function Divisor(col: seq<real>, sqrt: real -> real): (d: real)
    ensures d != 0.0
    ensures IsSqrt(sqrt) ==> d > 0.0
    ensures IsSqrt(sqrt) ==> (d == 1.0 <== forall i :: 0 <= i < |col| ==> col[i] == 0.0)
  {
    SumSquaresZero(col);
    var norm := sqrt(SumSquares(col));
    if norm != 0.0 then norm else 1.0
  }

  function Divisors(X: seq<seq<real>>, m: nat, sqrt: real -> real): (ds: seq<real>)
    requires IsMatrix(X, m)
    ensures |ds| == m && forall j :: 0 <= j < m ==> ds[j] != 0.0
  {
    seq(m, j requires 0 <= j < m => Divisor(Column(X, j), sqrt))
  }

  /** The normalised matrix `R`. */
  function Normalize(X: seq<seq<real>>, m: nat, divisors: seq<real>): (R: seq<seq<real>>)
    requires IsMatrix(X, m) && |divisors| == m
    requires forall j :: 0 <= j < m ==> divisors[j] != 0.0
    ensures |R| == |X| && IsMatrix(R, m)
  {
    seq(|X|, i requires 0 <= i < |X| =>
      seq(m, j requires 0 <= j < m => X[i][j] / divisors[j]))
  }

  /** The value of each criterion of `order` in a mapping, in order: the
      weight vector `weight_vec` for the weights, and the polarity of each
      column for the benefit flags. */
  function PerCriterion<V>(m: map<Criterion, V>, order: seq<Criterion>): (vs: seq<V>)
    requires forall j :: 0 <= j < |order| ==> order[j] in m
    ensures |vs| == |order| && forall j :: 0 <= j < |order| ==> vs[j] == m[order[j]]
  {
    seq(|order|, j requires 0 <= j < |order| => m[order[j]])
  }

  function NormalizeWeights(wv: seq<real>, total: real): (w: seq<real>)
    requires total != 0.0
    ensures |w| == |wv|
  {
    seq(|wv|, j requires 0 <= j < |wv| => wv[j] / total)
  }

  /** The weighted normalised matrix `V`. */
  function ApplyWeights(R: seq<seq<real>>, m: nat, w: seq<real>): (V: seq<seq<real>>)
    requires IsMatrix(R, m) && |w| == m
    ensures |V| == |R| && IsMatrix(V, m)
  {
    seq(|R|, i requires 0 <= i < |R| =>
      seq(m, j requires 0 <= j < m => R[i][j] * w[j]))
  }

  /** `A_plus`: per column, the best value, which is the largest for a
      benefit criterion and the smallest for a cost criterion. */
  function IdealBest(V: seq<seq<real>>, m: nat, benefit: seq<bool>): (best: seq<real>)
    requires |V| > 0 && IsMatrix(V, m) && |benefit| == m
    ensures |best| == m
  {
    seq(m, j requires 0 <= j < m =>
      if benefit[j] then Max(Column(V, j)) else Min(Column(V, j)))
  }

  /** `A_minus`: per column, the worst value. */
  function IdealWorst(V: seq<seq<real>>, m: nat, benefit: seq<bool>): (worst: seq<real>)
    requires |V| > 0 && IsMatrix(V, m) && |benefit| == m
    ensures |worst| == m
  {
    seq(m, j requires 0 <= j < m =>
      if benefit[j] then Min(Column(V, j)) else Max(Column(V, j)))
  }

  function Differences(v: seq<real>, ref: seq<real>): seq<real>
    requires |v| == |ref|
  {
    seq(|v|, j requires 0 <= j < |v| => v[j] - ref[j])
  }

  /** `euclidean_dist`. */
  function Distance(v: seq<real>, ref: seq<real>, sqrt: real -> real): (r: real)
    requires |v| == |ref|
    ensures IsSqrt(sqrt) ==> r >= 0.0 && (r == 0.0 <==> SumSquares(Differences(v, ref)) == 0.0)
  {
    sqrt(SumSquares(Differences(v, ref)))
  }

  /** The closeness coefficient `S- / (S+ + S-)`, or 0.0 where the
      denominator is zero. For distances, which are never negative, it lies
      between 0 and 1. */
  function Closeness(sPlus: real, sMinus: real): (c: real)
    ensures sPlus >= 0.0 && sMinus >= 0.0 ==> 0.0 <= c <= 1.0
  {
    var denom := sPlus + sMinus;
    if denom != 0.0 then
      assert sPlus >= 0.0 && sMinus >= 0.0 ==> sMinus / denom <= 1.0 by {
        if sPlus >= 0.0 && sMinus >= 0.0 {
          assert sMinus / denom * denom == sMinus;
        }
      }
      sMinus / denom
    else 0.0
  }

  /** The configuration and the states passed validation, the weights have
      a positive sum and there is at least one state: the conditions under
      which the source reaches the closeness loop. */
  predicate Ready(states: seq<State>, weights: map<Criterion, real>,
                  flags: map<Criterion, bool>, order: seq<Criterion>)
  {
    CheckConfig(order, weights, flags).Pass? && CheckStates(states, order).Pass?
    && Sum(PerCriterion(weights, order)) > 0.0 && |states| > 0
  }

  /** `V`, from the states and a validated configuration. */
  function WeightedMatrix(states: seq<State>, weights: map<Criterion, real>,
                          order: seq<Criterion>, sqrt: real -> real): (V: seq<seq<real>>)
    requires forall i :: 0 <= i < |states| ==> HasCriteria(states[i], order)
    requires forall j :: 0 <= j < |order| ==> order[j] in weights
    requires Sum(PerCriterion(weights, order)) != 0.0
    ensures |V| == |states| && IsMatrix(V, |order|)
  {
    var X := Matrix(states, order);
    var wv := PerCriterion(weights, order);
    ApplyWeights(Normalize(X, |order|, Divisors(X, |order|, sqrt)), |order|,
                 NormalizeWeights(wv, Sum(wv)))
  }

  /** The closeness of every row of `V`, in order. */
  function ClosenessOfRows(V: seq<seq<real>>, m: nat, benefit: seq<bool>,
                           sqrt: real -> real): (c: seq<real>)
    requires |V| > 0 && IsMatrix(V, m) && |benefit| == m
    ensures |c| == |V|
  {
    var best := IdealBest(V, m, benefit);
    var worst := IdealWorst(V, m, benefit);
    seq(|V|, i requires 0 <= i < |V| =>
      Closeness(Distance(V[i], best, sqrt), Distance(V[i], worst, sqrt)))
  }

  /** The closeness of every state, in input order. */
  function ClosenessVector(states: seq<State>, weights: map<Criterion, real>,
                           flags: map<Criterion, bool>, order: seq<Criterion>,
                           sqrt: real -> real): (c: seq<real>)
    requires Ready(states, weights, flags, order)
    ensures |c| == |states|
  {
    ClosenessOfRows(WeightedMatrix(states, weights, order, sqrt), |order|,
                    PerCriterion(flags, order), sqrt)
  }

  // ---------------------------------------------------------------------
  // Result entries and ranks

  predicate HasEntryFields(s: State)
  {
    Score in s.fields && CostPerHabitant in s.fields && Population in s.fields
  }

  /** The result dict built for one state; the fields are read in the order
      the dict literal lists them. */
  function EntryOf(s: State, closeness: real): (r: Result<Entry>)
    ensures r.Ok? <==> HasEntryFields(s)
    ensures r.Ok? ==> r.value == Entry(s.name, closeness, s.fields[Score],
                                       s.fields[CostPerHabitant], s.fields[Population], None)
  {
    if Score !in s.fields then Err(MissingField(s.name, Score))
    else if CostPerHabitant !in s.fields then Err(MissingField(s.name, CostPerHabitant))
    else if Population !in s.fields then Err(MissingField(s.name, Population))
    else Ok(Entry(s.name, closeness, s.fields[Score], s.fields[CostPerHabitant],
                  s.fields[Population], None))
  }

  /** The result list, built state by state; the first state missing one of
      the copied fields stops it. */
  function Entries(states: seq<State>, c: seq<real>): (r: Result<seq<Entry>>)
    requires |c| == |states|
    ensures r.Ok? <==> forall i :: 0 <= i < |states| ==> HasEntryFields(states[i])
    ensures r.Ok? ==> |r.value| == |states|
                      && forall i :: 0 <= i < |states| ==> Ok(r.value[i]) == EntryOf(states[i], c[i])
  {
    if |states| == 0 then Ok([])
    else
      var n := |states| - 1;
      var prefix := Entries(states[..n], c[..n]);
      assert forall i :: 0 <= i < n ==> states[..n][i] == states[i] && c[..n][i] == c[i];
      if prefix.Err? then Err(prefix.error)
      else
        var last := EntryOf(states[n], c[n]);
        if last.Err? then Err(last.error)
        else Ok(prefix.value + [last.value])
  }

  /** The error reported is that of the first state missing a copied
      field. */
  lemma {:induction false} EntriesError(states: seq<State>, c: seq<real>)
    requires |c| == |states| && Entries(states, c).Err?
    ensures exists i :: 0 <= i < |states|
                        && (forall k :: 0 <= k < i ==> HasEntryFields(states[k]))
                        && EntryOf(states[i], c[i]) == Err(Entries(states, c).error)
  {
    var n := |states| - 1;
    var prefix := Entries(states[..n], c[..n]);
    assert forall i :: 0 <= i < n ==> states[..n][i] == states[i] && c[..n][i] == c[i];
    if prefix.Err? {
      EntriesError(states[..n], c[..n]);
      var i :| 0 <= i < n && (forall k :: 0 <= k < i ==> HasEntryFields(states[..n][k]))
               && EntryOf(states[..n][i], c[..n][i]) == Err(prefix.error);
      assert EntryOf(states[i], c[i]) == Err(Entries(states, c).error);
    } else {
      assert EntryOf(states[n], c[n]) == Err(Entries(states, c).error);
    }
  }

  function EntryCloseness(e: Entry): real
  {
    e.closeness
  }

  /** `r['rank'] = idx` for `idx, r in enumerate(..., start=1)`. */
  function WithRanks(s: seq<Entry>): (r: seq<Entry>)
    ensures |r| == |s|
  {
    seq(|s|, k requires 0 <= k < |s| => s[k].(rank := Some(k + 1)))
  }

  /** The whole ranking, as a function of its inputs, with the errors in the
      order the source raises them, returning the ranked list the source
      builds (see `RankAsWritten` for what it actually returns). */
  function Rank(states: seq<State>, weights: map<Criterion, real>,
                flags: map<Criterion, bool>, order: seq<Criterion>,
                sqrt: real -> real): (r: Result<seq<Entry>>)
    ensures r.Ok? ==> |r.value| == |states| > 0
                      && forall k :: 0 <= k < |r.value| ==> r.value[k].rank == Some(k + 1)
  {
    var config := CheckConfig(order, weights, flags);
    if config.Fail? then Err(config.error)
    else
      var present := CheckStates(states, order);
      if present.Fail? then Err(present.error)
      else
        var c := Scores(states, weights, flags, order, sqrt);
        if c.Err? then Err(c.error)
        else
          var entries := Entries(states, c.value);
          if entries.Err? then Err(entries.error)
          else Ok(WithRanks(SortDesc(entries.value, EntryCloseness)))
  }

  /** Validation passed: the decision matrix can be built. */
  predicate Validated(states: seq<State>, weights: map<Criterion, real>,
                      flags: map<Criterion, bool>, order: seq<Criterion>)
  {
    CheckConfig(order, weights, flags).Pass? && CheckStates(states, order).Pass?
  }

  /** From the validated inputs to the closeness of every state: the weight
      sum must be positive, and when there are no states `max` or `min` of
      the first criterion's empty column, by its polarity, fails. */
  function Scores(states: seq<State>, weights: map<Criterion, real>,
                  flags: map<Criterion, bool>, order: seq<Criterion>,
                  sqrt: real -> real): (r: Result<seq<real>>)
    requires Validated(states, weights, flags, order)
    ensures r.Ok? ==> |r.value| == |states|
  {
    if Sum(PerCriterion(weights, order)) <= 0.0 then Err(NonPositiveWeightSum)
    else if |states| == 0 then Err(NoStates)
    else Ok(ClosenessVector(states, weights, flags, order, sqrt))
  }

  /** What the source's function actually hands back: the same errors,
      but, since it ends without a `return`, `None` where the ranking was
      computed. */
  function RankAsWritten(states: seq<State>, weights: map<Criterion, real>,
                         flags: map<Criterion, bool>, order: seq<Criterion>,
                         sqrt: real -> real): (r: Result<Option<seq<Entry>>>)
    ensures r.Ok? <==> Rank(states, weights, flags, order, sqrt).Ok?
    ensures r.Ok? ==> r.value == None
    ensures r.Err? ==> r.error == Rank(states, weights, flags, order, sqrt).error
  {
    var r := Rank(states, weights, flags, order, sqrt);
    if r.Err? then Err(r.error) else Ok(None)
  }

  // ---------------------------------------------------------------------
  // The loops of the source, proved against the functions above

  /** The loop filling `col_norms`. */
  method ColumnDivisors(X: seq<seq<real>>, m: nat, sqrt: real -> real) returns (norms: seq<real>)
    requires IsMatrix(X, m)
    ensures norms == Divisors(X, m, sqrt)
  {
    norms := [];
    for j := 0 to m
      invariant |norms| == j
      invariant forall k :: 0 <= k < j ==> norms[k] == Divisor(Column(X, k), sqrt)
    {
      var col := seq(|X|, i requires 0 <= i < |X| => X[i][j]);
      var norm := sqrt(SumSquares(col));
      norms := norms + [if norm != 0.0 then norm else 1.0];
    }
  }

  /** The loop filling `A_plus` and `A_minus`. */
  method IdealPoints(V: seq<seq<real>>, m: nat, benefit: seq<bool>)
    returns (best: seq<real>, worst: seq<real>)
    requires |V| > 0 && IsMatrix(V, m) && |benefit| == m
    ensures best == IdealBest(V, m, benefit) && worst == IdealWorst(V, m, benefit)
  {
    best, worst := [], [];
    for j := 0 to m
      invariant |best| == j && |worst| == j
      invariant forall k :: 0 <= k < j ==> best[k] == IdealBest(V, m, benefit)[k]
      invariant forall k :: 0 <= k < j ==> worst[k] == IdealWorst(V, m, benefit)[k]
    {
      var col := Column(V, j);
      if benefit[j] {
        best := best + [Max(col)];
        worst := worst + [Min(col)];
      } else {
        best := best + [Min(col)];
        worst := worst + [Max(col)];
      }
    }
  }

  /** The loop filling `closeness`. */
  method ClosenessCoefficients(sPlus: seq<real>, sMinus: seq<real>) returns (closeness: seq<real>)
    requires |sPlus| == |sMinus|
    ensures |closeness| == |sPlus|
    ensures forall i :: 0 <= i < |sPlus| ==> closeness[i] == Closeness(sPlus[i], sMinus[i])
  {
    closeness := [];
    for i := 0 to |sPlus|
      invariant |closeness| == i
      invariant forall k :: 0 <= k < i ==> closeness[k] == Closeness(sPlus[k], sMinus[k])
    {
      var denom := sPlus[i] + sMinus[i];
      var c := if denom != 0.0 then sMinus[i] / denom else 0.0;
      closeness := closeness + [c];
    }
  }

  /** The ideal points, the distances `S_plus` and `S_minus`, and the
      closeness of each row. */
  method RowCloseness(V: seq<seq<real>>, m: nat, benefit: seq<bool>, sqrt: real -> real)
    returns (closeness: seq<real>)
    requires |V| > 0 && IsMatrix(V, m) && |benefit| == m
    ensures closeness == ClosenessOfRows(V, m, benefit, sqrt)
  {
    var n := |V|;
    var best, worst := IdealPoints(V, m, benefit);
    var sPlus := seq(n, i requires 0 <= i < n => Distance(V[i], best, sqrt));
    var sMinus := seq(n, i requires 0 <= i < n => Distance(V[i], worst, sqrt));
    closeness := ClosenessCoefficients(sPlus, sMinus);
  }

  /** The loop filling `result`. */
  method BuildEntries(states: seq<State>, c: seq<real>) returns (r: Result<seq<Entry>>)
    requires |c| == |states|
    ensures r == Entries(states, c)
  {
    var result := [];
    for i := 0 to |states|
      invariant Entries(states[..i], c[..i]) == Ok(result)
    {
      assert states[..i + 1][..i] == states[..i] && c[..i + 1][..i] == c[..i];
      var entry := EntryOf(states[i], c[i]);
      if entry.Err? {
        assert Entries(states[..i + 1], c[..i + 1]) == Err(entry.error);
        EntriesStopAt(states, c, i + 1);
        return Err(entry.error);
      }
      result := result + [entry.value];
    }
    assert states[..|states|] == states && c[..|c|] == c;
    r := Ok(result);
  }

  /** Once a prefix of the states fails, the whole list fails with the same
      error. */
  lemma {:induction false} EntriesStopAt(states: seq<State>, c: seq<real>, i: nat)
    requires |c| == |states| && i <= |states|
    requires Entries(states[..i], c[..i]).Err?
    ensures Entries(states, c) == Entries(states[..i], c[..i])
    decreases |states| - i
  {
    if i < |states| {
      var n := |states| - 1;
      assert states[..i] == states[..n][..i] && c[..i] == c[..n][..i];
      EntriesStopAt(states[..n], c[..n], i);
      var prefix := Entries(states[..n], c[..n]);
      assert prefix.Err?;
      assert Entries(states, c) == Err(prefix.error);
    } else {
      assert states[..i] == states && c[..i] == c;
    }
  }

  /** The ranking loop, numbering the sorted entries in place from 1. */
  method AssignRanks(a: array<Entry>)
    modifies a
    ensures a[..] == WithRanks(old(a[..]))
  {
    for k := 0 to a.Length
      invariant forall j :: 0 <= j < k ==> a[j] == old(a[j]).(rank := Some(j + 1))
      invariant forall j :: k <= j < a.Length ==> a[j] == old(a[j])
    {
      a[k] := a[k].(rank := Some(k + 1));
    }
  }

  /** `sorted(..., reverse=True)` by closeness, then the numbering loop on
      the sorted list. */
  method RankEntries(entries: seq<Entry>) returns (ranked: seq<Entry>)
    ensures ranked == WithRanks(SortDesc(entries, EntryCloseness))
  {
    var sorted := SortDesc(entries, EntryCloseness);
    var a := new Entry[|sorted|](k requires 0 <= k < |sorted| => sorted[k]);
    assert a[..] == sorted;
    AssignRanks(a);
    ranked := a[..];
  }

  /** The body of the source from the decision matrix to the closeness
      loop. */
  method ComputeScores(states: seq<State>, weights: map<Criterion, real>,
                       flags: map<Criterion, bool>, order: seq<Criterion>,
                       sqrt: real -> real)
    returns (r: Result<seq<real>>)
    requires Validated(states, weights, flags, order)
    ensures r == Scores(states, weights, flags, order, sqrt)
  {
    var n, m := |states|, |order|;
    var X := Matrix(states, order);
    var norms := ColumnDivisors(X, m, sqrt);
    var R := Normalize(X, m, norms);

    var weightVec := PerCriterion(weights, order);
    var total := Sum(weightVec);
    if total <= 0.0 {
      return Err(NonPositiveWeightSum);
    }
    var V := ApplyWeights(R, m, NormalizeWeights(weightVec, total));

    if n == 0 {
      // `max` (a benefit) or `min` (a cost) of the first, empty column
      // raises; there is a column because the weights have a positive sum
      return Err(NoStates);
    }
    assert V == WeightedMatrix(states, weights, order, sqrt);
    var closeness := RowCloseness(V, m, PerCriterion(flags, order), sqrt);
    r := Ok(closeness);
  }

  /** `topsis_rank_states`, with `None` for an omitted weight mapping, flag
      mapping or criteria order. */
  method TopsisRankStates(states: seq<State>, weights: Option<map<Criterion, real>>,
                          flags: Option<map<Criterion, bool>>, order: Option<seq<Criterion>>,
                          sqrt: real -> real)
    returns (r: Result<seq<Entry>>)
    ensures r == Rank(states, OrDefault(weights, DefaultWeights),
                      OrDefault(flags, DefaultFlags), OrDefault(order, DefaultOrder), sqrt)
  {
    var w := if weights.None? then DefaultWeights else weights.value;
    var f := if flags.None? then DefaultFlags else flags.value;
    var o := if order.None? then DefaultOrder else order.value;

    var config := CheckConfig(o, w, f);
    if config.Fail? {
      return Err(config.error);
    }
    var present := CheckStates(states, o);
    if present.Fail? {
      return Err(present.error);
    }

    var closeness :- ComputeScores(states, w, f, o, sqrt);
    var result :- BuildEntries(states, closeness);
    var ranked := RankEntries(result);
    r := Ok(ranked);
  }
}
