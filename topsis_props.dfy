/** What the TOPSIS ranking promises: which error it reports and when, the
    shape of a successful ranking (a stable permutation of the result
    entries, ordered by closeness and numbered from 1), and the numeric
    facts behind the closeness coefficient. */
module TopsisProperties {
  import opened Common
  import opened States
  import opened StableSort
  import opened Topsis

  // ---------------------------------------------------------------------
  // Errors

  /** The ranking fails exactly when the source raises: a criterion without
      a weight or flag, a state without a criterion, a non-positive weight
      sum, no states at all, or a state without one of the copied fields. */
  lemma RankOkIff(states: seq<State>, weights: map<Criterion, real>,
                  flags: map<Criterion, bool>, order: seq<Criterion>, sqrt: real -> real)
    ensures Rank(states, weights, flags, order, sqrt).Ok? <==>
              (forall j :: 0 <= j < |order| ==> Configured(order[j], weights, flags))
              && (forall i :: 0 <= i < |states| ==> HasCriteria(states[i], order))
              && Sum(PerCriterion(weights, order)) > 0.0
              && |states| > 0
              && (forall i :: 0 <= i < |states| ==> HasEntryFields(states[i]))
  {
    var _ := CheckStatesFrom(states, order, 0);
  }

  /** The first criterion of `order` that lacks a weight or a flag is
      reported, and the weight is checked first. */
  lemma RankConfigError(states: seq<State>, weights: map<Criterion, real>,
                        flags: map<Criterion, bool>, order: seq<Criterion>, sqrt: real -> real,
                        j: nat)
    requires j < |order| && FirstUnconfigured(order, weights, flags, 0, j)
    ensures Rank(states, weights, flags, order, sqrt) == Err(ConfigError(order[j], weights))
  {
    var r := CheckConfig(order, weights, flags);
    assert r.Fail?;
    var j' :| 0 <= j' < |order| && FirstUnconfigured(order, weights, flags, 0, j')
              && r.error == ConfigError(order[j'], weights);
    assert j' == j;
  }

  /** With the configuration complete, the first state lacking a criterion
      is reported, with the first criterion it lacks. */
  lemma RankStateError(states: seq<State>, weights: map<Criterion, real>,
                       flags: map<Criterion, bool>, order: seq<Criterion>, sqrt: real -> real,
                       b: nat, j: nat)
    requires forall k :: 0 <= k < |order| ==> Configured(order[k], weights, flags)
    requires b < |states| && forall b' :: 0 <= b' < b ==> HasCriteria(states[b'], order)
    requires j < |order| && FirstMissing(states[b], order, 0, j)
    ensures Rank(states, weights, flags, order, sqrt) == Err(MissingCriterion(states[b].name, order[j]))
  {
    var r := CheckStates(states, order);
    assert !HasCriteria(states[b], order);
    assert r.Fail?;
    var b' :| 0 <= b' < |states|
              && (forall b'' :: 0 <= b'' < b' ==> HasCriteria(states[b''], order))
              && r == CheckStateFrom(states[b'], order, 0);
    assert b' == b;
    var s := CheckStateFrom(states[b], order, 0);
    var j' :| 0 <= j' < |order| && FirstMissing(states[b], order, 0, j')
              && s.error == MissingCriterion(states[b].name, order[j']);
    assert j' == j;
  }

  /** Once validation passes, a weight sum that is not positive is the
      error, whatever the states. */
  lemma RankWeightError(states: seq<State>, weights: map<Criterion, real>,
                        flags: map<Criterion, bool>, order: seq<Criterion>, sqrt: real -> real)
    requires forall k :: 0 <= k < |order| ==> order[k] in weights && order[k] in flags
    requires forall i :: 0 <= i < |states| ==> HasCriteria(states[i], order)
    requires Sum(PerCriterion(weights, order)) <= 0.0
    ensures Rank(states, weights, flags, order, sqrt) == Err(NonPositiveWeightSum)
  {
  }

  /** An empty list of states is an error rather than an empty ranking:
      positive weights mean there is at least one criterion, and the
      `max` or `min` of its empty column, depending on its polarity, does
      not exist. */
  lemma RankNoStates(weights: map<Criterion, real>, flags: map<Criterion, bool>,
                     order: seq<Criterion>, sqrt: real -> real)
    requires forall k :: 0 <= k < |order| ==> order[k] in weights && order[k] in flags
    requires Sum(PerCriterion(weights, order)) > 0.0
    ensures |order| > 0
    ensures Rank([], weights, flags, order, sqrt) == Err(NoStates)
  {
    assert CheckConfig(order, weights, flags).Pass?;
  }

  // ---------------------------------------------------------------------
  // A successful ranking

  /** The entries with their ranks removed again. */
  function Unranked(s: seq<Entry>): (r: seq<Entry>)
    ensures |r| == |s|
  {
    seq(|s|, k requires 0 <= k < |s| => s[k].(rank := None))
  }

  predicate AllUnranked(s: seq<Entry>)
  {
    forall k :: 0 <= k < |s| ==> s[k].rank.None?
  }

  /** Numbering entries that have no rank yet and removing the numbers
      again gives back the entries. */
  lemma UnrankWithRanks(s: seq<Entry>)
    requires AllUnranked(s)
    ensures Unranked(WithRanks(s)) == s
  {
    assert forall k :: 0 <= k < |s| ==> Unranked(WithRanks(s))[k] == s[k];
  }

  lemma EntriesUnranked(states: seq<State>, c: seq<real>)
    requires |c| == |states| && Entries(states, c).Ok?
    ensures AllUnranked(Entries(states, c).value)
  {
    var es := Entries(states, c).value;
    forall k | 0 <= k < |es| ensures es[k].rank.None? {
      assert Ok(es[k]) == EntryOf(states[k], c[k]);
    }
  }

  /** Sorting entries by closeness and numbering them gives a list numbered
      1, 2, ... in order, along which closeness never increases, so a
      strictly closer entry always ranks better. */
  lemma RankedOrder(entries: seq<Entry>)
    ensures var ranked := WithRanks(SortDesc(entries, EntryCloseness));
            |ranked| == |entries|
            && (forall k :: 0 <= k < |ranked| ==> ranked[k].rank == Some(k + 1))
            && NonIncreasing(ranked, EntryCloseness)
            && (forall a, b :: 0 <= a < |ranked| && 0 <= b < |ranked| ==>
                  (ranked[a].closeness > ranked[b].closeness ==> a < b))
  {
    NumberedSorted(SortDesc(entries, EntryCloseness));
  }

  lemma NumberedSorted(sorted: seq<Entry>)
    requires NonIncreasing(sorted, EntryCloseness)
    ensures var ranked := WithRanks(sorted);
            (forall k :: 0 <= k < |ranked| ==> ranked[k].rank == Some(k + 1))
            && NonIncreasing(ranked, EntryCloseness)
            && (forall a, b :: 0 <= a < |ranked| && 0 <= b < |ranked| ==>
                  (ranked[a].closeness > ranked[b].closeness ==> a < b))
  {
    var ranked := WithRanks(sorted);
    assert forall k :: 0 <= k < |ranked| ==> EntryCloseness(ranked[k]) == EntryCloseness(sorted[k]);
    assert NonIncreasing(ranked, EntryCloseness);
    StrictlyGreaterFirst(ranked, EntryCloseness);
  }

  /** Sorting and numbering entries that have no rank yet, then removing the
      numbers, gives a permutation of the entries that keeps entries of equal
      closeness in their input order. */
  lemma RankedPermutation(entries: seq<Entry>)
    requires AllUnranked(entries)
    ensures var ranked := WithRanks(SortDesc(entries, EntryCloseness));
            multiset(Unranked(ranked)) == multiset(entries)
            && forall k :: WithKey(Unranked(ranked), EntryCloseness, k) == WithKey(entries, EntryCloseness, k)
  {
    var sorted := SortDesc(entries, EntryCloseness);
    assert AllUnranked(sorted) by {
      forall k | 0 <= k < |sorted| ensures sorted[k].rank.None? {
        assert sorted[k] in multiset(entries);
      }
    }
    UnrankWithRanks(sorted);
    forall k ensures WithKey(sorted, EntryCloseness, k) == WithKey(entries, EntryCloseness, k) {
      SortDescStable(entries, EntryCloseness, k);
    }
  }

  /** A successful ranking is the result entries of every state, in the
      shape `RankedOrder` and `RankedPermutation` describe. */
  lemma RankOk(states: seq<State>, weights: map<Criterion, real>,
               flags: map<Criterion, bool>, order: seq<Criterion>, sqrt: real -> real)
    requires Rank(states, weights, flags, order, sqrt).Ok?
    ensures Ready(states, weights, flags, order)
    ensures var c := ClosenessVector(states, weights, flags, order, sqrt);
            Entries(states, c).Ok?
            && |Entries(states, c).value| == |states|
            && AllUnranked(Entries(states, c).value)
            && Rank(states, weights, flags, order, sqrt).value
                 == WithRanks(SortDesc(Entries(states, c).value, EntryCloseness))
  {
    var c := ClosenessVector(states, weights, flags, order, sqrt);
    EntriesUnranked(states, c);
  }

  /** As written, every successful call returns `None` although a ranking
      with one entry per state, at least one, was computed; a caller that
      iterates over the result, like the module's own main block, fails. */
  lemma AsWrittenDiscardsRanking(states: seq<State>, weights: map<Criterion, real>,
                                 flags: map<Criterion, bool>, order: seq<Criterion>,
                                 sqrt: real -> real)
    requires Rank(states, weights, flags, order, sqrt).Ok?
    ensures RankAsWritten(states, weights, flags, order, sqrt) == Ok(None)
    ensures |Rank(states, weights, flags, order, sqrt).value| == |states| > 0
  {
    RankOk(states, weights, flags, order, sqrt);
  }

  // ---------------------------------------------------------------------
  // The numbers behind the closeness coefficient

  /** Dividing every weight by their sum leaves weights that sum to one. */
  lemma NormalizedWeightsSumToOne(wv: seq<real>)
    requires Sum(wv) != 0.0
    ensures Sum(NormalizeWeights(wv, Sum(wv))) == 1.0
  {
    SumScaled(wv, Sum(wv));
    assert Sum(wv) / Sum(wv) == 1.0;
  }

  lemma {:induction false} SumScaled(xs: seq<real>, t: real)
    requires t != 0.0
    ensures Sum(NormalizeWeights(xs, t)) == Sum(xs) / t
  {
    if xs != [] {
      var init, last := xs[..|xs| - 1], xs[|xs| - 1];
      var scaled := NormalizeWeights(xs, t);
      assert scaled[..|xs| - 1] == NormalizeWeights(init, t) by {
        forall k | 0 <= k < |init| ensures scaled[k] == NormalizeWeights(init, t)[k] {
          assert init[k] == xs[k];
        }
      }
      SumScaled(init, t);
      DivideSum(Sum(init), last, t);
    }
  }

  lemma DivideSum(a: real, b: real, t: real)
    requires t != 0.0
    ensures a / t + b / t == (a + b) / t
  {
  }

  /** The column divisor is the column's norm, unless every value of the
      column is zero, in which case it is 1.0 and the normalised column is
      all zeros. */
  lemma ColumnDivisor(X: seq<seq<real>>, m: nat, j: nat, sqrt: real -> real)
    requires IsSqrt(sqrt) && IsMatrix(X, m) && j < m
    ensures var col := Column(X, j);
            var d := Divisors(X, m, sqrt)[j];
            ((forall i :: 0 <= i < |X| ==> X[i][j] == 0.0) ==>
               d == 1.0 && forall i :: 0 <= i < |X| ==> Normalize(X, m, Divisors(X, m, sqrt))[i][j] == 0.0)
            && ((exists i :: 0 <= i < |X| && X[i][j] != 0.0) ==> d == sqrt(SumSquares(col)) && d > 0.0)
  {
    var col := Column(X, j);
    SumSquaresZero(col);
    if exists i :: 0 <= i < |X| && X[i][j] != 0.0 {
      var i :| 0 <= i < |X| && X[i][j] != 0.0;
      assert col[i] != 0.0;
    }
  }

  /** Every value of a column lies between its ideal values, the best one on
      the side the criterion's polarity prefers, and both ideal values occur
      in the column. */
  lemma IdealBounds(V: seq<seq<real>>, m: nat, benefit: seq<bool>, i: nat, j: nat)
    requires |V| > 0 && IsMatrix(V, m) && |benefit| == m && i < |V| && j < m
    ensures var best, worst := IdealBest(V, m, benefit)[j], IdealWorst(V, m, benefit)[j];
            (benefit[j] ==> worst <= V[i][j] <= best)
            && (!benefit[j] ==> best <= V[i][j] <= worst)
            && best in Column(V, j) && worst in Column(V, j)
  {
    assert Column(V, j)[i] == V[i][j];
  }

  /** A distance is never negative and is zero exactly at the reference
      point. */
  lemma DistanceZeroIff(v: seq<real>, ref: seq<real>, sqrt: real -> real)
    requires IsSqrt(sqrt) && |v| == |ref|
    ensures Distance(v, ref, sqrt) >= 0.0
    ensures Distance(v, ref, sqrt) == 0.0 <==> v == ref
  {
    var diffs := Differences(v, ref);
    SumSquaresZero(diffs);
    if v == ref {
      assert forall j :: 0 <= j < |v| ==> diffs[j] == 0.0;
    }
    if forall j :: 0 <= j < |v| ==> diffs[j] == 0.0 {
      forall j | 0 <= j < |v| ensures v[j] == ref[j] {
        assert diffs[j] == v[j] - ref[j];
      }
    }
  }

  /** A state at the best ideal point and away from the worst has closeness
      1; one at the worst and away from the best has closeness 0; one at
      both (every state equal on every weighted criterion) hits the zero
      denominator and gets 0. */
  lemma ClosenessAtIdeals(v: seq<real>, best: seq<real>, worst: seq<real>, sqrt: real -> real)
    requires IsSqrt(sqrt) && |v| == |best| == |worst|
    ensures var c := Closeness(Distance(v, best, sqrt), Distance(v, worst, sqrt));
            (v == best && v != worst ==> c == 1.0)
            && (v == worst ==> c == 0.0)
            && (Distance(v, best, sqrt) + Distance(v, worst, sqrt) == 0.0 <==> v == best && v == worst)
  {
    DistanceZeroIff(v, best, sqrt);
    DistanceZeroIff(v, worst, sqrt);
  }

  /** Every closeness coefficient lies between 0 and 1. */
  lemma ClosenessInUnitInterval(states: seq<State>, weights: map<Criterion, real>,
                                flags: map<Criterion, bool>, order: seq<Criterion>,
                                sqrt: real -> real, i: nat)
    requires IsSqrt(sqrt) && Ready(states, weights, flags, order) && i < |states|
    ensures 0.0 <= ClosenessVector(states, weights, flags, order, sqrt)[i] <= 1.0
  {
    var V := WeightedMatrix(states, weights, order, sqrt);
    var benefit := PerCriterion(flags, order);
    DistanceZeroIff(V[i], IdealBest(V, |order|, benefit), sqrt);
    DistanceZeroIff(V[i], IdealWorst(V, |order|, benefit), sqrt);
  }

  // ---------------------------------------------------------------------
  // Defaults

  /** The default configuration covers the default criteria: score and
      population are benefits, the cost per habitant a cost, and the
      default weights already sum to one. */
  lemma DefaultsValid()
    ensures CheckConfig(DefaultOrder, DefaultWeights, DefaultFlags) == Pass
    ensures PerCriterion(DefaultFlags, DefaultOrder) == [true, false, true]
    ensures Sum(PerCriterion(DefaultWeights, DefaultOrder)) == 1.0
  {
    var wv := PerCriterion(DefaultWeights, DefaultOrder);
    assert wv == [0.6, 0.3, 0.1];
    assert wv[..2][..1] == [0.6];
    assert Sum([0.6]) == 0.6;
    assert Sum(wv[..2]) == 0.9;
  }
}
