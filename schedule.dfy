/** The greedy split-funding scheduler of `schedule/example.py`.

    States are funded one after another in the given (ranked) order. Each
    state draws what it still needs from the quarters in their insertion
    order, taking `min(need, remaining)` from every quarter that has money
    left, until its cost is covered or the quarters run out. Budgets are
    never replenished, so a quarter drained by one state stays drained.

    `ScheduleAllowSplit` is the imperative procedure, over an array of
    remaining budgets and an array of per-quarter allotment lists; `Run` is
    the same pass as a fold over the states, and the properties of the pass
    are proved about `Run` (see module ScheduleProperties). */
module Schedule {
  import opened Common
  import opened Dicts
  import opened States

  /** One entry `{'name': ..., 'allocated': ...}` of a quarter's list. */
  datatype Allotment = Allotment(name: string, amount: real)

  /** One entry of the `coverage` list. */
  datatype Coverage = Coverage(
    name: string,
    totalCost: real,
    allocatedTotal: real,
    coveragePct: real,
    fullyFunded: bool)

  /** The values the returned dictionary holds: a quarter's allotment list,
      the `remaining_budgets` dictionary or the `coverage` list. */
  datatype Slot =
    | Allotments(items: seq<Allotment>)
    | RemainingBudgets(budgets: Dict<real>)
    | CoverageList(records: seq<Coverage>)

  const RemainingKey: string := "remaining_budgets"
  const CoverageKey: string := "coverage"

  /** The inner loop over the quarters, as a value: the amount a state that
      still needs `need` draws from each quarter, given the quarters'
      remaining budgets `rem` in order. A quarter that is skipped (nothing
      needed any more, or nothing left in it) gives 0. */
  function Draws(rem: seq<real>, need: real): (d: seq<real>)
    ensures |d| == |rem|
  {
    if rem == [] then []
    else
      var a := if need <= 0.0 || rem[0] <= 0.0 then 0.0 else Min2(need, rem[0]);
      [a] + Draws(rem[1..], need - a)
  }

  /** The remaining budgets once the amounts `d` have been drawn. */
  function AfterDraws(rem: seq<real>, d: seq<real>): (r: seq<real>)
    requires |d| == |rem|
    ensures |r| == |rem|
  {
    seq(|rem|, q requires 0 <= q < |rem| => rem[q] - d[q])
  }

  /** The allotment lists once the positive amounts of `d` are recorded
      under `name`; zero amounts are not recorded. */
  function Recorded(lists: seq<seq<Allotment>>, name: string, d: seq<real>): (r: seq<seq<Allotment>>)
    requires |d| == |lists|
    ensures |r| == |lists|
    ensures forall q :: 0 <= q < |lists| ==>
      r[q] == if d[q] > 0.0 then lists[q] + [Allotment(name, d[q])] else lists[q]
  {
    seq(|lists|, q requires 0 <= q < |lists| =>
      if d[q] > 0.0 then lists[q] + [Allotment(name, d[q])] else lists[q])
  }

  /** The coverage record of a state with the given cost and allocation:
      fully funded exactly when the allocation reaches the cost, and, for a
      positive cost and an allocation within it, a percentage between 0 and 1
      that is 1 exactly when fully funded. */
  function CoverageOf(name: string, cost: real, allocatedTotal: real): (c: Coverage)
    ensures c.name == name && c.totalCost == cost && c.allocatedTotal == allocatedTotal
    ensures c.fullyFunded <==> allocatedTotal >= cost
    ensures cost <= 0.0 ==> c.coveragePct == 0.0
    ensures cost > 0.0 && 0.0 <= allocatedTotal <= cost ==>
      0.0 <= c.coveragePct <= 1.0 && (c.coveragePct == 1.0 <==> c.fullyFunded)
  {
    Coverage(name, cost, allocatedTotal, if cost > 0.0 then allocatedTotal / cost else 0.0, allocatedTotal >= cost)
  }

  /** What the pass has built so far: remaining budgets and allotment lists
      per quarter (in budget order) and the coverage records. */
  datatype Ledger = Ledger(remaining: seq<real>, lists: seq<seq<Allotment>>, coverage: seq<Coverage>)

  predicate WellShaped(l: Ledger)
  {
    |l.lists| == |l.remaining|
  }

  predicate AllHaveCost(states: seq<State>)
  {
    forall i :: 0 <= i < |states| ==> HasCostFields(states[i])
  }

  /** One iteration of the outer loop: fund state `s`. */
  function Fund(l: Ledger, s: State): (l': Ledger)
    requires WellShaped(l) && HasCostFields(s)
    ensures WellShaped(l') && |l'.remaining| == |l.remaining|
    ensures |l'.coverage| == |l.coverage| + 1 && l'.coverage[..|l.coverage|] == l.coverage
  {
    var cost := TotalCost(s);
    var d := Draws(l.remaining, cost);
    Ledger(AfterDraws(l.remaining, d), Recorded(l.lists, s.name, d),
           l.coverage + [CoverageOf(s.name, cost, Sum(d))])
  }

  /** The pass over `states` from the initial budgets `budgets`. */
  function Run(budgets: seq<real>, states: seq<State>): (l: Ledger)
    requires AllHaveCost(states)
    ensures WellShaped(l) && |l.remaining| == |budgets| && |l.coverage| == |states|
  {
    if states == [] then Ledger(budgets, seq(|budgets|, _ => []), [])
    else Fund(Run(budgets, states[..|states| - 1]), states[|states| - 1])
  }

  /** Funding one more state is one more step of the pass. */
  lemma RunStep(budgets: seq<real>, states: seq<State>, i: nat)
    requires AllHaveCost(states) && i < |states|
    ensures AllHaveCost(states[..i]) && AllHaveCost(states[..i + 1])
    ensures Run(budgets, states[..i + 1]) == Fund(Run(budgets, states[..i]), states[i])
  {
    assert states[..i + 1][..i] == states[..i];
  }

  /** The dictionary `schedule` before the two closing assignments: each
      quarter's allotment list under the quarter's key, in budget order. */
  function PerQuarter(budgets: Dict<real>, lists: seq<seq<Allotment>>): (d: Dict<Slot>)
    requires |lists| == |budgets|
    ensures Keys(d) == Keys(budgets) && (DistinctKeys(budgets) ==> DistinctKeys(d))
    ensures |d| == |budgets| && forall q :: 0 <= q < |d| ==> d[q] == (budgets[q].0, Allotments(lists[q]))
  {
    Zip(Keys(budgets), seq(|lists|, q requires 0 <= q < |lists| => Allotments(lists[q])))
  }

  /** The dictionary the source returns: one list per quarter, in budget
      order, then `remaining_budgets` and `coverage` assigned last (so a
      quarter with either of those names is overwritten in place). */
  function Output(budgets: Dict<real>, l: Ledger): (out: Dict<Slot>)
    requires |budgets| == |l.remaining| == |l.lists|
    ensures Get(out, RemainingKey) == Some(RemainingBudgets(Zip(Keys(budgets), l.remaining)))
    ensures Get(out, CoverageKey) == Some(CoverageList(l.coverage))
  {
    var remaining := RemainingBudgets(Zip(Keys(budgets), l.remaining));
    var withRemaining := Put(PerQuarter(budgets, l.lists), RemainingKey, remaining);
    PutOther(withRemaining, CoverageKey, CoverageList(l.coverage), RemainingKey);
    Put(withRemaining, CoverageKey, CoverageList(l.coverage))
  }

  /** The budget amounts in insertion order. */
  function Amounts(budgets: Dict<real>): (a: seq<real>)
    ensures |a| == |budgets|
  {
    seq(|budgets|, q requires 0 <= q < |budgets| => budgets[q].1)
  }

  /** The result of `schedule_allow_split(states, budgets)`: its `coverage`
      entry holds one record per state. */
  function SplitSchedule(states: seq<State>, budgets: Dict<real>): (out: Dict<Slot>)
    requires AllHaveCost(states)
    ensures Get(out, CoverageKey).Some? && Get(out, CoverageKey).value.CoverageList?
    ensures |Get(out, CoverageKey).value.records| == |states|
  {
    Output(budgets, Run(Amounts(budgets), states))
  }

  /** A `need` of zero or less draws nothing from any quarter. */
  lemma {:induction false} DrawsNoNeed(rem: seq<real>, need: real)
    requires need <= 0.0
    ensures forall q :: 0 <= q < |rem| ==> Draws(rem, need)[q] == 0.0
  {
    if rem != [] {
      DrawsNoNeed(rem[1..], need);
    }
  }

  /** One step of the inner loop: what quarter `q` gives and what the
      later quarters give. */
  lemma DrawsStep(rem: seq<real>, d: seq<real>, q: nat, need: real)
    requires q < |rem| == |d| && d[q..] == Draws(rem[q..], need)
    ensures d[q] == if need <= 0.0 || rem[q] <= 0.0 then 0.0 else Min2(need, rem[q])
    ensures d[q + 1..] == Draws(rem[q + 1..], need - d[q])
  {
    assert rem[q..][1..] == rem[q + 1..];
    assert d[q..][1..] == d[q + 1..];
  }

  /** When the inner loop stops at quarter `q` (all quarters visited, or
      nothing needed any more), the quarters from `q` on give nothing. */
  lemma DrawsRest(rem: seq<real>, d: seq<real>, q: nat, need: real)
    requires q <= |rem| == |d| && d[q..] == Draws(rem[q..], need)
    requires q < |rem| ==> need <= 0.0
    ensures forall k :: q <= k < |d| ==> d[k] == 0.0
    ensures Sum(d) == Sum(d[..q])
  {
    if q < |rem| {
      DrawsNoNeed(rem[q..], need);
      assert forall k :: q <= k < |d| ==> d[k] == d[q..][k - q] == 0.0;
      assert d == d[..q] + d[q..];
      SumAppend(d[..q], d[q..]);
      ZeroSum(d[q..]);
    }
    assert d[..|d|] == d;
  }

  /** The body of the outer loop: fund one state (name and cost already
      computed) from the quarters in order, updating the remaining budgets
      and appending to the quarters' lists in place. Returns the state's
      `allocated_total`. */
  method FundState(remaining: array<real>, lists: array<seq<Allotment>>, name: string, cost: real)
    returns (allocatedTotal: real)
    requires remaining.Length == lists.Length
    modifies remaining, lists
    ensures allocatedTotal == Sum(Draws(old(remaining[..]), cost))
    ensures remaining[..] == AfterDraws(old(remaining[..]), Draws(old(remaining[..]), cost))
    ensures lists[..] == Recorded(old(lists[..]), name, Draws(old(remaining[..]), cost))
  {
    ghost var rem0 := remaining[..];
    ghost var lists0 := lists[..];
    ghost var d := Draws(rem0, cost);
    var need := cost;
    allocatedTotal := 0.0;
    var q := 0;
    while q < remaining.Length
      invariant 0 <= q <= remaining.Length
      invariant d[q..] == Draws(rem0[q..], need)
      invariant allocatedTotal == Sum(d[..q]) && need == cost - allocatedTotal
      invariant remaining[..] == DrawnUpTo(rem0, d, q)
      invariant lists[..] == RecordedUpTo(lists0, name, d, q)
    {
      if need <= 0.0 {
        break;
      }
      DrawsStep(rem0, d, q, need);
      SumSnoc(d[..q], d[q]);
      assert d[..q + 1] == d[..q] + [d[q]];
      UpToStep(rem0, lists0, name, d, q);
      if remaining[q] <= 0.0 {
        q := q + 1;
        continue;
      }
      var allot := Min2(need, remaining[q]);
      if allot > 0.0 {
        remaining[q] := remaining[q] - allot;
        need := need - allot;
        allocatedTotal := allocatedTotal + allot;
        lists[q] := lists[q] + [Allotment(name, allot)];
      }
      q := q + 1;
    }
    DrawsRest(rem0, d, q, need);
    UpToEnd(rem0, lists0, name, d, q);
  }

  /** The budgets with the draws of quarters before `q` taken out. */
  ghost function DrawnUpTo(rem: seq<real>, d: seq<real>, q: nat): (r: seq<real>)
    requires |d| == |rem|
  {
    seq(|rem|, k requires 0 <= k < |rem| => if k < q then rem[k] - d[k] else rem[k])
  }

  /** The lists with the draws of quarters before `q` recorded. */
  ghost function RecordedUpTo(lists: seq<seq<Allotment>>, name: string, d: seq<real>, q: nat): (r: seq<seq<Allotment>>)
    requires |d| == |lists|
  {
    seq(|lists|, k requires 0 <= k < |lists| =>
      if k < q && d[k] > 0.0 then lists[k] + [Allotment(name, d[k])] else lists[k])
  }

  lemma UpToStep(rem: seq<real>, lists: seq<seq<Allotment>>, name: string, d: seq<real>, q: nat)
    requires q < |rem| == |lists| == |d|
    ensures DrawnUpTo(rem, d, q + 1) == DrawnUpTo(rem, d, q)[q := rem[q] - d[q]]
    ensures d[q] > 0.0 ==>
      RecordedUpTo(lists, name, d, q + 1) == RecordedUpTo(lists, name, d, q)[q := lists[q] + [Allotment(name, d[q])]]
    ensures d[q] <= 0.0 ==> RecordedUpTo(lists, name, d, q + 1) == RecordedUpTo(lists, name, d, q)
  {
  }

  /** Once every quarter from `q` on draws nothing, the partial state is the
      final one. */
  lemma UpToEnd(rem: seq<real>, lists: seq<seq<Allotment>>, name: string, d: seq<real>, q: nat)
    requires q <= |rem| == |lists| == |d|
    requires forall k :: q <= k < |d| ==> d[k] == 0.0
    ensures DrawnUpTo(rem, d, q) == AfterDraws(rem, d)
    ensures RecordedUpTo(lists, name, d, q) == Recorded(lists, name, d)
  {
  }

  /** `schedule_allow_split`: fund the states in order from the quarterly
      budgets and report the per-quarter allotments, the remaining budgets
      and one coverage record per state. The function `SplitSchedule` is the
      same pass as a value; the module ScheduleProperties proves what that
      pass guarantees. */
  method ScheduleAllowSplit(states: seq<State>, budgets: Dict<real>) returns (schedule: Dict<Slot>)
    requires DistinctKeys(budgets)
    requires AllHaveCost(states)
    ensures schedule == SplitSchedule(states, budgets)
  {
    var m := |budgets|;
    var remaining := new real[m](q requires 0 <= q < m => budgets[q].1);
    var lists := new seq<Allotment>[m](q => []);
    var coverage: seq<Coverage> := [];
    ghost var b := Amounts(budgets);
    assert remaining[..] == b;
    assert lists[..] == seq(m, _ => []);
    for i := 0 to |states|
      invariant remaining.Length == lists.Length == m
      invariant Run(b, states[..i]) == Ledger(remaining[..], lists[..], coverage)
    {
      var s := states[i];
      var cost := TotalCost(s);
      RunStep(b, states, i);
      var allocatedTotal := FundState(remaining, lists, s.name, cost);
      coverage := coverage + [Coverage(s.name, cost, allocatedTotal,
                                       if cost > 0.0 then allocatedTotal / cost else 0.0,
                                       allocatedTotal >= cost)];
    }
    assert states[..|states|] == states;
    schedule := Output(budgets, Ledger(remaining[..], lists[..], coverage));
  }
}
