/** What the split-funding pass guarantees: the inner loop's draws
    (`Draws`), then the whole pass (`Run`) and the dictionary it returns. */
module ScheduleProperties {
  import opened Common
  import opened Dicts
  import opened States
  import opened Schedule

  // ---------------------------------------------------------------------
  // One state drawing from the quarters in order
  // ---------------------------------------------------------------------

  /** A quarter gives nothing or a positive amount no larger than what it
      had; a quarter with nothing left gives nothing. */
  lemma {:induction false} DrawsBounds(rem: seq<real>, need: real)
    ensures forall q :: 0 <= q < |rem| ==>
      0.0 <= Draws(rem, need)[q] && (Draws(rem, need)[q] > 0.0 ==> Draws(rem, need)[q] <= rem[q])
  {
    if rem != [] {
      var a := if need <= 0.0 || rem[0] <= 0.0 then 0.0 else Min2(need, rem[0]);
      var d, rest := Draws(rem, need), Draws(rem[1..], need - a);
      DrawsBounds(rem[1..], need - a);
      assert d == [a] + rest;
      forall q | 1 <= q < |rem|
        ensures 0.0 <= d[q] && (d[q] > 0.0 ==> d[q] <= rem[q])
      {
        assert d[q] == rest[q - 1] && rem[q] == rem[1..][q - 1];
      }
    }
  }

  /** A state with something to pay for receives between nothing and its
      full need; a state that needs nothing receives nothing. */
  lemma {:induction false} DrawsTotal(rem: seq<real>, need: real)
    ensures need > 0.0 ==> 0.0 <= Sum(Draws(rem, need)) <= need
    ensures need <= 0.0 ==> Sum(Draws(rem, need)) == 0.0
  {
    if rem != [] {
      var a := if need <= 0.0 || rem[0] <= 0.0 then 0.0 else Min2(need, rem[0]);
      DrawsTotal(rem[1..], need - a);
      SumCons(a, Draws(rem[1..], need - a));
    }
  }

  /** Greedy exhaustion: a state that ends short of its need has left every
      quarter with nothing. */
  lemma {:induction false} DrawsExhaust(rem: seq<real>, need: real)
    requires Sum(Draws(rem, need)) < need
    ensures forall q :: 0 <= q < |rem| ==> rem[q] - Draws(rem, need)[q] <= 0.0
  {
    var d := Draws(rem, need);
    if rem != [] {
      var a := if need <= 0.0 || rem[0] <= 0.0 then 0.0 else Min2(need, rem[0]);
      var rest := Draws(rem[1..], need - a);
      assert d == [a] + rest;
      SumCons(a, rest);
      DrawsTotal(rem, need);
      DrawsTotal(rem[1..], need - a);
      assert need > 0.0 && a < need;
      assert rem[0] - d[0] <= 0.0;
      DrawsExhaust(rem[1..], need - a);
      forall q | 1 <= q < |rem| ensures rem[q] - d[q] <= 0.0 {
        assert d[q] == rest[q - 1] && rem[q] == rem[1..][q - 1];
      }
    }
  }

  /** Greedy order: a state only reaches a quarter once every earlier quarter
      has been emptied (by it or before it). */
  lemma {:induction false} DrawsGreedy(rem: seq<real>, need: real)
    ensures forall j, k :: 0 <= k < j < |rem| && Draws(rem, need)[j] > 0.0 ==>
      rem[k] - Draws(rem, need)[k] <= 0.0
  {
    var d := Draws(rem, need);
    if rem != [] {
      var a := if need <= 0.0 || rem[0] <= 0.0 then 0.0 else Min2(need, rem[0]);
      var rest := Draws(rem[1..], need - a);
      assert d == [a] + rest;
      DrawsGreedy(rem[1..], need - a);
      forall j, k | 0 <= k < j < |rem| && d[j] > 0.0 ensures rem[k] - d[k] <= 0.0 {
        assert d[j] == rest[j - 1];
        if k == 0 {
          if need - a <= 0.0 {
            DrawsNoNeed(rem[1..], need - a);
          }
        } else {
          assert d[k] == rest[k - 1] && rem[k] == rem[1..][k - 1];
        }
      }
    }
  }

  /** When every quarter is empty nothing can be drawn. */
  lemma {:induction false} DrawsFromEmpty(rem: seq<real>, need: real)
    requires forall q :: 0 <= q < |rem| ==> rem[q] <= 0.0
    ensures forall q :: 0 <= q < |rem| ==> Draws(rem, need)[q] == 0.0
  {
    if rem != [] {
      DrawsFromEmpty(rem[1..], need);
      assert forall q :: 1 <= q < |rem| ==> rem[q] == rem[1..][q - 1];
    }
  }

  // ---------------------------------------------------------------------
  // The whole pass
  // ---------------------------------------------------------------------

  /** The remaining budgets when state `i` is reached. */
  function Before(b: seq<real>, states: seq<State>, i: nat): (rem: seq<real>)
    requires AllHaveCost(states) && i <= |states|
    ensures |rem| == |b|
  {
    assert AllHaveCost(states[..i]);
    Run(b, states[..i]).remaining
  }

  /** What state `i` draws from each quarter. */
  function DrawsOf(b: seq<real>, states: seq<State>, i: nat): (d: seq<real>)
    requires AllHaveCost(states) && i < |states|
    ensures |d| == |b|
  {
    Draws(Before(b, states, i), TotalCost(states[i]))
  }

  function AmountsOf(items: seq<Allotment>): seq<real>
  {
    seq(|items|, k requires 0 <= k < |items| => items[k].amount)
  }

  /** Budget conservation: for every quarter, what its list records plus
      what it has left is what it started with. */
  lemma {:induction false} Conservation(b: seq<real>, states: seq<State>)
    requires AllHaveCost(states)
    ensures forall q :: 0 <= q < |b| ==>
      Sum(AmountsOf(Run(b, states).lists[q])) + Run(b, states).remaining[q] == b[q]
  {
    if states != [] {
      var init, s := states[..|states| - 1], states[|states| - 1];
      assert AllHaveCost(init);
      Conservation(b, init);
      var l := Run(b, init);
      var d := Draws(l.remaining, TotalCost(s));
      assert Run(b, states) == Fund(l, s);
      DrawsBounds(l.remaining, TotalCost(s));
      forall q | 0 <= q < |b|
        ensures Sum(AmountsOf(Run(b, states).lists[q])) + Run(b, states).remaining[q] == b[q]
      {
        if d[q] > 0.0 {
          var x := Allotment(s.name, d[q]);
          assert AmountsOf(l.lists[q] + [x]) == AmountsOf(l.lists[q]) + [d[q]];
          SumSnoc(AmountsOf(l.lists[q]), d[q]);
        }
      }
    }
  }

  /** Who quarter `q` pays, read off the draws: for states `0..n-1` in
      funding order, one `{name, allocated}` record per state whose draw
      from `q` is positive. */
  function Allotted(b: seq<real>, states: seq<State>, q: nat, n: nat): (r: seq<Allotment>)
    requires AllHaveCost(states) && q < |b| && n <= |states|
    ensures |r| <= n
  {
    if n == 0 then []
    else
      var d := DrawsOf(b, states, n - 1)[q];
      Allotted(b, states, q, n - 1) + if d > 0.0 then [Allotment(states[n - 1].name, d)] else []
  }

  /** Quarter `q`'s list after the pass is exactly `Allotted`: the states
      it paid, in funding order, each with the amount it gave them. */
  lemma {:induction false} QuarterList(b: seq<real>, states: seq<State>, q: nat, n: nat)
    requires AllHaveCost(states) && q < |b| && n <= |states|
    ensures AllHaveCost(states[..n])
    ensures Run(b, states[..n]).lists[q] == Allotted(b, states, q, n)
  {
    assert AllHaveCost(states[..n]);
    if n > 0 {
      QuarterList(b, states, q, n - 1);
      RunStep(b, states, n - 1);
    }
  }

  /** Every state that drew a positive amount from quarter `q` is listed
      under `q` with that amount. */
  lemma {:induction false} PaidStateListed(b: seq<real>, states: seq<State>, q: nat, i: nat)
    requires AllHaveCost(states) && q < |b| && i < |states|
    requires DrawsOf(b, states, i)[q] > 0.0
    ensures Allotment(states[i].name, DrawsOf(b, states, i)[q]) in Run(b, states).lists[q]
  {
    QuarterList(b, states, q, |states|);
    assert states[..|states|] == states;
    AllottedContains(b, states, q, i, |states|);
  }

  lemma {:induction false} AllottedContains(b: seq<real>, states: seq<State>, q: nat, i: nat, n: nat)
    requires AllHaveCost(states) && q < |b| && i < n <= |states|
    requires DrawsOf(b, states, i)[q] > 0.0
    ensures Allotment(states[i].name, DrawsOf(b, states, i)[q]) in Allotted(b, states, q, n)
  {
    if i < n - 1 {
      AllottedContains(b, states, q, i, n - 1);
    }
  }

  /** Conversely, every entry of quarter `q`'s list is some state's positive
      draw from `q`, under that state's name. */
  lemma ListedStatePaid(b: seq<real>, states: seq<State>, q: nat, k: nat)
    requires AllHaveCost(states) && q < |b| && k < |Run(b, states).lists[q]|
    ensures exists i :: 0 <= i < |states| && DrawsOf(b, states, i)[q] > 0.0
                        && Run(b, states).lists[q][k] == Allotment(states[i].name, DrawsOf(b, states, i)[q])
  {
    QuarterList(b, states, q, |states|);
    assert states[..|states|] == states;
    AllottedFrom(b, states, q, k, |states|);
  }

  lemma {:induction false} AllottedFrom(b: seq<real>, states: seq<State>, q: nat, k: nat, n: nat)
    requires AllHaveCost(states) && q < |b| && n <= |states| && k < |Allotted(b, states, q, n)|
    ensures exists i :: 0 <= i < n && DrawsOf(b, states, i)[q] > 0.0
                        && Allotted(b, states, q, n)[k] == Allotment(states[i].name, DrawsOf(b, states, i)[q])
  {
    var prev := Allotted(b, states, q, n - 1);
    if k < |prev| {
      AllottedFrom(b, states, q, k, n - 1);
      var i :| 0 <= i < n - 1 && DrawsOf(b, states, i)[q] > 0.0
               && prev[k] == Allotment(states[i].name, DrawsOf(b, states, i)[q]);
      assert Allotted(b, states, q, n)[k] == prev[k];
    } else {
      assert DrawsOf(b, states, n - 1)[q] > 0.0;
    }
  }

  /** Every recorded allotment is strictly positive. */
  lemma {:induction false} AllotmentsPositive(b: seq<real>, states: seq<State>)
    requires AllHaveCost(states)
    ensures forall q, k :: 0 <= q < |b| && 0 <= k < |Run(b, states).lists[q]| ==>
      Run(b, states).lists[q][k].amount > 0.0
  {
    if states != [] {
      var init := states[..|states| - 1];
      assert AllHaveCost(init);
      AllotmentsPositive(b, init);
    }
  }

  /** Budgets never go up: a later snapshot has at most what an earlier one
      had, in every quarter. */
  lemma {:induction false} RemainingNonIncreasing(b: seq<real>, states: seq<State>, i: nat, j: nat)
    requires AllHaveCost(states) && i <= j <= |states|
    ensures forall q :: 0 <= q < |b| ==> Before(b, states, j)[q] <= Before(b, states, i)[q]
    decreases j - i
  {
    if i < j {
      RemainingNonIncreasing(b, states, i, j - 1);
      RunStep(b, states, j - 1);
      DrawsBounds(Before(b, states, j - 1), TotalCost(states[j - 1]));
    }
  }

  /** A quarter that starts with a non-positive budget is never touched; one
      that starts non-negative never goes below zero. */
  lemma {:induction false} RemainingSign(b: seq<real>, states: seq<State>)
    requires AllHaveCost(states)
    ensures forall q :: 0 <= q < |b| && b[q] <= 0.0 ==> Run(b, states).remaining[q] == b[q]
    ensures forall q :: 0 <= q < |b| && b[q] >= 0.0 ==> Run(b, states).remaining[q] >= 0.0
  {
    if states != [] {
      var init := states[..|states| - 1];
      assert AllHaveCost(init);
      RemainingSign(b, init);
      DrawsBounds(Run(b, init).remaining, TotalCost(states[|states| - 1]));
    }
  }

  /** The coverage record of state `i` is fixed when state `i` is funded. */
  lemma {:induction false} CoverageStable(b: seq<real>, states: seq<State>, i: nat)
    requires AllHaveCost(states) && i < |states|
    ensures AllHaveCost(states[..i + 1])
    ensures Run(b, states).coverage[i] == Run(b, states[..i + 1]).coverage[i]
  {
    if i < |states| - 1 {
      var init := states[..|states| - 1];
      assert AllHaveCost(init);
      assert init[..i + 1] == states[..i + 1];
      CoverageStable(b, init, i);
    } else {
      assert states[..i + 1] == states;
    }
  }

  /** One coverage record per state, in input order: its name, its cost
      `cost_per_habitant * population`, what it drew in total, the covered
      fraction and whether it is fully funded. */
  lemma CoverageRecord(b: seq<real>, states: seq<State>, i: nat)
    requires AllHaveCost(states) && i < |states|
    ensures |Run(b, states).coverage| == |states|
    ensures Run(b, states).coverage[i]
         == CoverageOf(states[i].name, TotalCost(states[i]), Sum(DrawsOf(b, states, i)))
  {
    CoverageStable(b, states, i);
    RunStep(b, states, i);
  }

  /** Per-state bounds of the coverage record. */
  lemma CoverageBounds(b: seq<real>, states: seq<State>, i: nat)
    requires AllHaveCost(states) && i < |states|
    ensures var c := Run(b, states).coverage[i];
      && c.name == states[i].name
      && c.totalCost == states[i].fields[CostPerHabitant] * states[i].fields[Population]
      && (c.totalCost > 0.0 ==> 0.0 <= c.allocatedTotal <= c.totalCost
                                && c.coveragePct == c.allocatedTotal / c.totalCost)
      && (c.totalCost <= 0.0 ==> c.allocatedTotal == 0.0 && c.coveragePct == 0.0 && c.fullyFunded)
      && (c.fullyFunded <==> c.allocatedTotal >= c.totalCost)
  {
    CoverageRecord(b, states, i);
    DrawsTotal(Before(b, states, i), TotalCost(states[i]));
  }

  /** A state that costs nothing (or less) takes nothing from any quarter and
      is reported fully funded. */
  lemma CostlessState(b: seq<real>, states: seq<State>, i: nat)
    requires AllHaveCost(states) && i < |states| && TotalCost(states[i]) <= 0.0
    ensures forall q :: 0 <= q < |b| ==> DrawsOf(b, states, i)[q] == 0.0
    ensures Before(b, states, i + 1) == Before(b, states, i)
    ensures AllHaveCost(states[..i]) && AllHaveCost(states[..i + 1])
    ensures Run(b, states[..i + 1]).lists == Run(b, states[..i]).lists
    ensures Run(b, states).coverage[i].fullyFunded
  {
    var l, d := Run(b, states[..i]), DrawsOf(b, states, i);
    DrawsNoNeed(Before(b, states, i), TotalCost(states[i]));
    RunStep(b, states, i);
    NoDraws(l.remaining, l.lists, states[i].name, d);
    CoverageRecord(b, states, i);
  }

  /** Drawing nothing changes no budget and records no allotment. */
  lemma NoDraws(rem: seq<real>, lists: seq<seq<Allotment>>, name: string, d: seq<real>)
    requires |rem| == |lists| == |d|
    requires forall q :: 0 <= q < |d| ==> d[q] == 0.0
    ensures AfterDraws(rem, d) == rem && Recorded(lists, name, d) == lists && Sum(d) == 0.0
  {
    ZeroSum(d);
  }

  /** Greedy exhaustion within the pass: a state left short of its cost has
      emptied every quarter. */
  lemma ShortStateEmptiesQuarters(b: seq<real>, states: seq<State>, i: nat)
    requires AllHaveCost(states) && i < |states|
    requires !Run(b, states).coverage[i].fullyFunded
    ensures var after := Before(b, states, i + 1);
      forall q :: 0 <= q < |b| ==> after[q] <= 0.0
  {
    var rem, cost := Before(b, states, i), TotalCost(states[i]);
    var d := Draws(rem, cost);
    CoverageRecord(b, states, i);
    assert Sum(d) < cost;
    DrawsExhaust(rem, cost);
    RunStep(b, states, i);
    assert Before(b, states, i + 1) == AfterDraws(rem, d);
  }

  /** Greedy exhaustion across states: once a state is left short of its
      cost, every later state receives nothing and the pass ends with no
      quarter above zero. */
  lemma Exhaustion(b: seq<real>, states: seq<State>, i: nat)
    requires AllHaveCost(states) && i < |states|
    requires !Run(b, states).coverage[i].fullyFunded
    ensures forall j :: i < j < |states| ==> Run(b, states).coverage[j].allocatedTotal == 0.0
    ensures forall q :: 0 <= q < |b| ==> Run(b, states).remaining[q] <= 0.0
  {
    ShortStateEmptiesQuarters(b, states, i);
    LaterStatesGetNothing(b, states, i);
    EmptyStaysEmpty(b, states, i + 1);
  }

  lemma LaterStatesGetNothing(b: seq<real>, states: seq<State>, i: nat)
    requires AllHaveCost(states) && i < |states|
    requires var after := Before(b, states, i + 1);
      forall q :: 0 <= q < |b| ==> after[q] <= 0.0
    ensures forall j :: i < j < |states| ==> Run(b, states).coverage[j].allocatedTotal == 0.0
  {
    forall j | i < j < |states| ensures Run(b, states).coverage[j].allocatedTotal == 0.0 {
      LaterStateGetsNothing(b, states, i, j);
    }
  }

  /** Quarters empty at some point of the pass are empty at its end. */
  lemma EmptyStaysEmpty(b: seq<real>, states: seq<State>, i: nat)
    requires AllHaveCost(states) && i <= |states|
    requires var rem := Before(b, states, i);
      forall q :: 0 <= q < |b| ==> rem[q] <= 0.0
    ensures forall q :: 0 <= q < |b| ==> Run(b, states).remaining[q] <= 0.0
  {
    RemainingNonIncreasing(b, states, i, |states|);
    BeforeEnd(b, states);
  }

  /** The snapshot after the last state is the pass's final state. */
  lemma BeforeEnd(b: seq<real>, states: seq<State>)
    requires AllHaveCost(states)
    ensures Before(b, states, |states|) == Run(b, states).remaining
  {
    assert states[..|states|] == states;
  }

  lemma LaterStateGetsNothing(b: seq<real>, states: seq<State>, i: nat, j: nat)
    requires AllHaveCost(states) && i < j < |states|
    requires var after := Before(b, states, i + 1);
      forall q :: 0 <= q < |b| ==> after[q] <= 0.0
    ensures Run(b, states).coverage[j].allocatedTotal == 0.0
  {
    RemainingNonIncreasing(b, states, i + 1, j);
    DrawsFromEmpty(Before(b, states, j), TotalCost(states[j]));
    ZeroSum(DrawsOf(b, states, j));
    CoverageRecord(b, states, j);
  }

  /** Greedy order within a state: if state `i` draws from quarter `j`, then
      once it is done every earlier quarter is empty. */
  lemma GreedyOrder(b: seq<real>, states: seq<State>, i: nat)
    requires AllHaveCost(states) && i < |states|
    ensures var d, after := DrawsOf(b, states, i), Before(b, states, i + 1);
      forall j, k :: 0 <= k < j < |b| && d[j] > 0.0 ==> after[k] <= 0.0
  {
    RunStep(b, states, i);
    DrawsGreedy(Before(b, states, i), TotalCost(states[i]));
  }

  // ---------------------------------------------------------------------
  // The returned dictionary
  // ---------------------------------------------------------------------

  /** The keys of the returned dictionary: the budget keys in order, then
      `remaining_budgets` and `coverage` unless a quarter already has that
      name, in which case it keeps its place. */
  lemma OutputKeys(states: seq<State>, budgets: Dict<real>)
    requires DistinctKeys(budgets) && AllHaveCost(states)
    ensures var out := SplitSchedule(states, budgets);
      && DistinctKeys(out)
      && |out| == |budgets| + (if RemainingKey in Keys(budgets) then 0 else 1)
                            + (if CoverageKey in Keys(budgets) then 0 else 1)
      && Keys(out)[..|budgets|] == Keys(budgets)
      && Keys(out) == Keys(budgets)
                      + (if RemainingKey in Keys(budgets) then [] else [RemainingKey])
                      + (if CoverageKey in Keys(budgets) then [] else [CoverageKey])
  {
    var l := Run(Amounts(budgets), states);
    OutputKeyOrder(budgets, l);
    var d0 := PerQuarter(budgets, l.lists);
    var v1 := RemainingBudgets(Zip(Keys(budgets), l.remaining));
    var d1 := Put(d0, RemainingKey, v1);
    assert SplitSchedule(states, budgets) == Put(d1, CoverageKey, CoverageList(l.coverage));
    assert Keys(d0) == Keys(budgets);
    PutTwice(d0, RemainingKey, v1, CoverageKey, CoverageList(l.coverage));
  }

  /** The exact key order of `Output`: Python appends `remaining_budgets`
      (line 61) before `coverage` (line 62), each only if no quarter has
      that name already. */
  lemma OutputKeyOrder(budgets: Dict<real>, l: Ledger)
    requires |budgets| == |l.remaining| == |l.lists|
    ensures Keys(Output(budgets, l)) == Keys(budgets)
      + (if RemainingKey in Keys(budgets) then [] else [RemainingKey])
      + (if CoverageKey in Keys(budgets) then [] else [CoverageKey])
  {
    var d0 := PerQuarter(budgets, l.lists);
    var v1 := RemainingBudgets(Zip(Keys(budgets), l.remaining));
    assert Output(budgets, l) == Put(Put(d0, RemainingKey, v1), CoverageKey, CoverageList(l.coverage));
    PutTwiceKeys(d0, RemainingKey, v1, CoverageKey, CoverageList(l.coverage));
  }

  /** What the returned dictionary holds: each quarter's allotment list,
      unless the quarter is named `remaining_budgets` or `coverage` (then
      the list is overwritten and lost), the remaining budget per quarter,
      and the coverage list. */
  lemma OutputValues(states: seq<State>, budgets: Dict<real>)
    requires DistinctKeys(budgets) && AllHaveCost(states)
    ensures var out, l := SplitSchedule(states, budgets), Run(Amounts(budgets), states);
      && (forall q :: 0 <= q < |budgets| && budgets[q].0 != RemainingKey && budgets[q].0 != CoverageKey ==>
            Get(out, budgets[q].0) == Some(Allotments(l.lists[q])))
      && Get(out, RemainingKey) == Some(RemainingBudgets(Zip(Keys(budgets), l.remaining)))
      && Get(out, CoverageKey) == Some(CoverageList(l.coverage))
  {
    var l := Run(Amounts(budgets), states);
    var d0 := PerQuarter(budgets, l.lists);
    var v1 := RemainingBudgets(Zip(Keys(budgets), l.remaining));
    var v2 := CoverageList(l.coverage);
    var d1 := Put(d0, RemainingKey, v1);
    assert SplitSchedule(states, budgets) == Put(d1, CoverageKey, v2);
    forall q | 0 <= q < |budgets| && budgets[q].0 != RemainingKey && budgets[q].0 != CoverageKey
      ensures Get(Put(d1, CoverageKey, v2), budgets[q].0) == Some(Allotments(l.lists[q]))
    {
      GetDistinct(d0, q);
      PutOther(d0, RemainingKey, v1, budgets[q].0);
      PutOther(d1, CoverageKey, v2, budgets[q].0);
    }
    PutOther(d1, CoverageKey, v2, RemainingKey);
  }

  // ---------------------------------------------------------------------
  // Budgets against costs
  // ---------------------------------------------------------------------

  /** The cost of every state, in order. */
  function Costs(states: seq<State>): (c: seq<real>)
    requires AllHaveCost(states)
    ensures |c| == |states|
  {
    seq(|states|, i requires 0 <= i < |states| => TotalCost(states[i]))
  }

  /** What every coverage record says was allocated, in order. */
  function Allocations(coverage: seq<Coverage>): (a: seq<real>)
    ensures |a| == |coverage|
  {
    seq(|coverage|, i requires 0 <= i < |coverage| => coverage[i].allocatedTotal)
  }

  /** Drawing the amounts `d` lowers the total remaining by their sum. */
  lemma {:induction false} SumAfterDraws(rem: seq<real>, d: seq<real>)
    requires |d| == |rem|
    ensures Sum(AfterDraws(rem, d)) == Sum(rem) - Sum(d)
  {
    if rem != [] {
      var n := |rem| - 1;
      assert AfterDraws(rem, d)[..n] == AfterDraws(rem[..n], d[..n]);
      SumAfterDraws(rem[..n], d[..n]);
    }
  }

  /** What the budgets lost over the pass is what the coverage records say
      was allocated. */
  lemma {:induction false} Spent(b: seq<real>, states: seq<State>)
    requires AllHaveCost(states)
    ensures Sum(b) - Sum(Run(b, states).remaining) == Sum(Allocations(Run(b, states).coverage))
  {
    if states != [] {
      var init, s := states[..|states| - 1], states[|states| - 1];
      assert AllHaveCost(init);
      Spent(b, init);
      var l := Run(b, init);
      var d := Draws(l.remaining, TotalCost(s));
      assert Run(b, states) == Fund(l, s);
      SumAfterDraws(l.remaining, d);
      assert Allocations(Fund(l, s).coverage) == Allocations(l.coverage) + [Sum(d)];
      SumSnoc(Allocations(l.coverage), Sum(d));
    }
  }

  /** With non-negative budgets, a pass whose last state is left short has
      allocated every budget in full. */
  lemma SpentEverything(b: seq<real>, states: seq<State>)
    requires AllHaveCost(states) && |states| > 0
    requires forall q :: 0 <= q < |b| ==> b[q] >= 0.0
    requires !Run(b, states).coverage[|states| - 1].fullyFunded
    ensures Sum(Allocations(Run(b, states).coverage)) == Sum(b)
  {
    var l := Run(b, states);
    ShortStateEmptiesQuarters(b, states, |states| - 1);
    BeforeEnd(b, states);
    RemainingSign(b, states);
    assert forall q :: 0 <= q < |l.remaining| ==> l.remaining[q] == 0.0;
    ZeroSum(l.remaining);
    Spent(b, states);
  }

  /** With non-negative costs, no state is allocated more than it costs. */
  lemma AllocationsWithinCosts(b: seq<real>, states: seq<State>)
    requires AllHaveCost(states)
    requires forall i :: 0 <= i < |states| ==> TotalCost(states[i]) >= 0.0
    ensures forall k :: 0 <= k < |states| ==>
      Allocations(Run(b, states).coverage)[k] <= Costs(states)[k]
  {
    forall k | 0 <= k < |states|
      ensures Allocations(Run(b, states).coverage)[k] <= Costs(states)[k]
    {
      AllocationWithinCost(b, states, k);
    }
  }

  lemma AllocationWithinCost(b: seq<real>, states: seq<State>, k: nat)
    requires AllHaveCost(states) && k < |states| && TotalCost(states[k]) >= 0.0
    ensures Allocations(Run(b, states).coverage)[k] <= Costs(states)[k]
  {
    var c := Run(b, states).coverage[k];
    CoverageBounds(b, states, k);
    assert c.totalCost == TotalCost(states[k]);
    assert c.allocatedTotal <= c.totalCost;
  }

  /** With non-negative budgets and costs, a pass whose last state is left
      short has states that cost more than the budgets hold. */
  lemma ShortLastState(b: seq<real>, states: seq<State>)
    requires AllHaveCost(states) && |states| > 0
    requires forall q :: 0 <= q < |b| ==> b[q] >= 0.0
    requires forall i :: 0 <= i < |states| ==> TotalCost(states[i]) >= 0.0
    requires !Run(b, states).coverage[|states| - 1].fullyFunded
    ensures Sum(Costs(states)) > Sum(b)
  {
    SpentEverything(b, states);
    AllocationsWithinCosts(b, states);
    CoverageBounds(b, states, |states| - 1);
    SumBelow(Allocations(Run(b, states).coverage), Costs(states));
  }

  /** With non-negative budgets and costs, a state is left short only when
      it and the states before it cost more than all the budgets together:
      budgets that cover the total cost fund every state in full. */
  lemma ShortStateOverBudget(b: seq<real>, states: seq<State>, i: nat)
    requires AllHaveCost(states) && i < |states|
    requires forall q :: 0 <= q < |b| ==> b[q] >= 0.0
    requires forall j :: 0 <= j < |states| ==> TotalCost(states[j]) >= 0.0
    requires !Run(b, states).coverage[i].fullyFunded
    ensures AllHaveCost(states[..i + 1])
    ensures Sum(Costs(states[..i + 1])) > Sum(b)
  {
    CoverageStable(b, states, i);
    ShortLastState(b, states[..i + 1]);
  }
}
