# Planning and decision support: split funding and TOPSIS ranking

This project models two small planning algorithms.

- **Split-funding scheduler** (`schedule_allow_split`). Candidate states are funded in their given, ranked order from a table of quarterly budgets. Each state costs `cost_per_habitant * population`. It draws `min(need, remaining)` from every quarter that still has money, in the quarters' insertion order, until its cost is covered or the quarters run dry. The procedure records:
  - the positive allotments under each quarter;
  - the budgets left over;
  - one coverage record per state (its cost, the amount allocated, the covered fraction and whether it is fully funded).
- **TOPSIS ranking** (`topsis_rank_states`). The procedure first validates the criteria configuration and the states. It builds the decision matrix and normalises each column by its Euclidean norm, with a zero norm replaced by 1. It weights the columns by the normalised weights and picks the ideal best and worst value of each column by the criterion's polarity. Each state's closeness is `S- / (S+ + S-)`, or 0 when the denominator is 0. The states are sorted by non-increasing closeness with a stable sort and numbered 1, 2, … in that order.

Modules:

- `Common` (common.dfy): `Option`, sums, minimum and maximum.
- `Dicts` (dicts.dfy): a Python dictionary, modelled as a sequence of key/value pairs in insertion order.
- `States` (states.dfy): the candidate state, a name plus numeric fields, and its cost.
- `Schedule` (schedule.dfy): the scheduler.
  - `ScheduleAllowSplit` is imperative. It keeps the remaining budgets in an `array<real>` and the per-quarter lists in an `array<seq<Allotment>>`.
  - It is proved equal to `SplitSchedule`, a fold (`Run`) of one funding step (`Fund`) over the states.
  - The inner loop over the quarters is `FundState`, proved against `Draws`, the list of amounts the loop takes from each quarter.
- `ScheduleProperties` (schedule_props.dfy): what the pass guarantees.
- `StableSort` (stable_sort.dfy): Python's `sorted(..., reverse=True)` as a stable insertion sort.
- `Topsis` (topsis.dfy): the ranking.
  - The functions state each stage as a value, and `Rank` composes them.
  - The loops that build `col_norms`, `A_plus`/`A_minus`, `closeness` and `result`, and the loop that numbers the ranks, are methods proved against those functions.
  - The rank loop (`AssignRanks`) updates an array in place.
  - The square root is a parameter. Properties that depend on it assume only `IsSqrt`: the root is non-negative, and it is zero exactly at zero.
- `TopsisProperties` (topsis_props.dfy): which error the ranking reports, the shape of a successful ranking, and the numeric facts behind it.

## Model

| member | source | states |
|---|---|---|
| States.TotalCost | schedule/example.py:8-10 | The cost of a state is never negative when its unit cost and population are not, and is zero when either is zero |
| Schedule.Draws | schedule/example.py:40-51 | What one state takes from each quarter in turn: one amount per quarter, in the quarters' order (its bounds, total and greedy order are the ScheduleProperties lemmas below) |
| Schedule.AfterDraws | schedule/example.py:48 | `remaining[q] -= allot` over all quarters keeps one remaining budget per quarter |
| Schedule.Recorded | schedule/example.py:47-51 | Recording a state's draws appends `{name, allocated}` for exactly the quarters it drew a positive amount from: that quarter's list becomes the old list plus `Allotment(name, d[q])`, and every other list is unchanged |
| Schedule.CoverageOf | schedule/example.py:53-59 | A coverage record carries the name, cost and allocated total; `fully_funded` holds iff the allocation reaches the cost; a cost at or below zero gives percentage 0.0; with a positive cost and an allocation within it, the percentage lies in [0, 1] and is 1 exactly when fully funded |
| Schedule.Fund | schedule/example.py:34-59 | One state's funding keeps one list and one remaining budget per quarter, and appends exactly one coverage record, leaving the earlier ones unchanged |
| Schedule.Run | schedule/example.py:30-59 | The pass keeps one remaining budget per quarter and produces exactly one coverage record per state |
| Schedule.RunStep | schedule/example.py:34-36 | Processing state `i` is one funding step applied to what the first `i` states left |
| Schedule.DrawsNoNeed | schedule/example.py:41-42 | Once nothing more is needed, no further quarter gives anything |
| Schedule.DrawsStep | schedule/example.py:40-51 | Quarter `q` gives nothing when nothing is needed or it is empty, and `min(need, remaining)` otherwise; the later quarters then serve the reduced need |
| Schedule.DrawsRest | schedule/example.py:41-42 | When the inner loop breaks, the quarters it never visited give nothing, and the state's total is what the visited quarters gave |
| Schedule.FundState | schedule/example.py:36-51 | The inner loop over the quarters, on arrays updated in place: the returned `allocated_total` is the sum of the draws, each budget loses exactly its draw, and each positive draw is appended to its quarter's list; the invariant `need == total_cost - allocated_total` holds throughout |
| Schedule.PerQuarter | schedule/example.py:31 | The per-quarter lists form a dictionary with the budgets' keys in order, each quarter mapped to its allotment list, with distinct keys when the budgets have distinct keys |
| Schedule.Output | schedule/example.py:61-63 | After the two closing assignments, `remaining_budgets` maps to the remaining budget of every quarter and `coverage` maps to the coverage list, even when a quarter had either name |
| Schedule.SplitSchedule | schedule/example.py:12-63 | The returned dictionary's `coverage` entry is a list with one record per input state |
| Schedule.ScheduleAllowSplit | schedule/example.py:12-63 | The procedure returns exactly the dictionary `SplitSchedule` describes, whose properties are proved in ScheduleProperties |
| ScheduleProperties.DrawsBounds | schedule/example.py:43-47 | A quarter gives nothing or a positive amount, never more than it holds |
| ScheduleProperties.DrawsTotal | schedule/example.py:37-50 | A state with a positive cost receives between 0 and its cost; a state with no positive cost receives nothing |
| ScheduleProperties.DrawsExhaust | schedule/example.py:40-51 | If a state receives less than it needs, it has left every quarter at or below zero |
| ScheduleProperties.DrawsGreedy | schedule/example.py:40-51 | A state reaches a quarter only after every earlier quarter is empty |
| ScheduleProperties.DrawsFromEmpty | schedule/example.py:43-44 | Empty quarters give nothing |
| ScheduleProperties.Before | schedule/example.py:30 | The remaining budgets when state `i` is reached: one per quarter |
| ScheduleProperties.DrawsOf | schedule/example.py:40-51 | What state `i` draws: one amount per quarter |
| ScheduleProperties.Conservation | schedule/example.py:30-51 | For every quarter, the recorded allotments plus the final remaining budget equal the original budget |
| ScheduleProperties.Allotted | schedule/example.py:34-51 | Who a quarter pays: in funding order, one `{name, allocated}` record per state that drew a positive amount from it, at most one per state |
| ScheduleProperties.QuarterList | schedule/example.py:34-51 | After the first `n` states, a quarter's list is exactly `Allotted`: the states it paid, in funding order, each with the amount it gave |
| ScheduleProperties.PaidStateListed | schedule/example.py:46-51 | A state that draws a positive amount from a quarter is listed under that quarter, by name, with that amount |
| ScheduleProperties.ListedStatePaid | schedule/example.py:46-51 | Every entry of a quarter's list is some state's positive draw from that quarter, under that state's name |
| ScheduleProperties.AllotmentsPositive | schedule/example.py:47-51 | Every recorded allotment is strictly positive |
| ScheduleProperties.RemainingNonIncreasing | schedule/example.py:48 | No quarter's remaining budget ever increases from one state to a later one |
| ScheduleProperties.RemainingSign | schedule/example.py:43-48 | A quarter that starts at or below zero is never touched, and one that starts at or above zero never goes below zero |
| ScheduleProperties.CoverageStable | schedule/example.py:53-59 | A state's coverage record is fixed once the state is processed |
| ScheduleProperties.CoverageRecord | schedule/example.py:53-59 | The coverage list has one record per state, in input order, holding the state's name and cost and the total it drew |
| ScheduleProperties.CoverageBounds | schedule/example.py:53-59 | Each coverage record holds the state's name and `cost_per_habitant * population`. With a positive cost: `0 <= allocated <= total_cost` and `coverage_pct == allocated / total_cost`. Otherwise: allocated 0, pct 0.0 and fully funded. `fully_funded` holds iff `allocated >= total_cost` |
| ScheduleProperties.CostlessState | schedule/example.py:41-58 | A state whose cost is at most zero draws nothing from any quarter, changes no budget or list, and is reported fully funded |
| ScheduleProperties.NoDraws | schedule/example.py:47-51 | Drawing nothing changes no budget, records no allotment and totals zero |
| ScheduleProperties.ShortStateEmptiesQuarters | schedule/example.py:40-58 | A state reported not fully funded leaves every quarter at or below zero |
| ScheduleProperties.Exhaustion | schedule/example.py:34-59 | After a state that is not fully funded, every later state receives nothing, and the pass ends with no quarter above zero |
| ScheduleProperties.LaterStatesGetNothing | schedule/example.py:34-51 | Once every quarter is at or below zero, every later state is allocated nothing |
| ScheduleProperties.EmptyStaysEmpty | schedule/example.py:43-48 | Quarters that are all at or below zero at some point of the pass are still so at its end |
| ScheduleProperties.BeforeEnd | schedule/example.py:61 | The budgets after the last state are the `remaining_budgets` reported |
| ScheduleProperties.LaterStateGetsNothing | schedule/example.py:40-51 | Once every quarter is empty, any later state is allocated nothing |
| ScheduleProperties.GreedyOrder | schedule/example.py:40-51 | If a state draws from quarter `j`, every earlier quarter is empty after that state |
| ScheduleProperties.OutputKeyOrder | schedule/example.py:61-62 | The keys of the returned dictionary are exactly the budget keys in order, then `remaining_budgets`, then `coverage`, each of the two appended only if no quarter already has that name |
| ScheduleProperties.OutputKeys | schedule/example.py:61-62 | The returned dictionary has distinct keys: first the budget keys in order, then `remaining_budgets` and after it `coverage`, each appended only if no quarter already has that name |
| ScheduleProperties.OutputValues | schedule/example.py:61-62 | Each quarter maps to its allotment list, unless the quarter is named `remaining_budgets` or `coverage`, in which case that list is overwritten. `remaining_budgets` maps to the remaining budget of each quarter, and `coverage` maps to the coverage list |
| ScheduleProperties.Costs | schedule/example.py:36 | One cost per state |
| ScheduleProperties.Allocations | schedule/example.py:56 | One allocated total per coverage record |
| ScheduleProperties.SumAfterDraws | schedule/example.py:48 | Drawing lowers the total remaining budget by exactly what was drawn |
| ScheduleProperties.Spent | schedule/example.py:34-59 | Over the pass, the budgets lose in total exactly what the coverage records report as allocated |
| ScheduleProperties.SpentEverything | schedule/example.py:40-51 | With non-negative budgets, if the last state is left short, the allocations add up to the whole budget |
| ScheduleProperties.AllocationsWithinCosts | schedule/example.py:41-50 | With non-negative costs, no state is allocated more than it costs |
| ScheduleProperties.AllocationWithinCost | schedule/example.py:41-50 | With a non-negative cost, a state is allocated at most its cost |
| ScheduleProperties.ShortLastState | schedule/example.py:34-59 | With non-negative budgets and costs, if the last state is left short, the states together cost more than all the budgets |
| ScheduleProperties.ShortStateOverBudget | schedule/example.py:34-59 | With non-negative budgets and costs, a state is left short only when it and the states before it cost more than all the budgets; so budgets that cover the total cost (as in the example at lines 105-113) fund every state in full |
| Dicts.Keys | schedule/example.py:40 | A dictionary's keys, one per entry, in insertion order |
| Dicts.Get | schedule/example.py:61-62 | A lookup finds nothing exactly when the key is absent |
| Dicts.Put | schedule/example.py:61-62 | After an assignment, the key maps to the assigned value |
| Dicts.PutOther | schedule/example.py:61-62 | An assignment leaves every other key's value unchanged |
| Dicts.PutKeys | schedule/example.py:61-62 | An existing key keeps its position; a new key is appended |
| Dicts.PutDistinct | schedule/example.py:61-62 | An assignment keeps the keys distinct |
| Dicts.PutPrefix | schedule/example.py:61-62 | The old keys stay a prefix; the length grows by one exactly for a new key; the keys afterwards are the old keys plus the assigned one |
| Dicts.PutTwiceKeys | schedule/example.py:61-62 | Two assignments of different keys leave exactly the old keys in order, then the first key unless it was present, then the second unless it was present |
| Dicts.PutTwice | schedule/example.py:61-62 | Two assignments of different keys keep the keys distinct and the old keys first, appending each new key unless it was present |
| Dicts.Zip | schedule/example.py:30-31 | A dictionary built from keys and values has those keys, in order, each paired with its value |
| Dicts.GetDistinct | schedule/example.py:30-31 | With distinct keys, looking up the i-th key finds the i-th value |
| Common.SumSnoc | schedule/example.py:50 | Appending a term adds it to the sum |
| Common.SumNonNegative | schedule/example.py:50 | A sum of non-negative terms is non-negative |
| Common.SumAppend | schedule/example.py:50 | The sum of a concatenation is the sum of the sums |
| Common.SumCons | schedule/example.py:50 | Prepending a term adds it to the sum |
| Common.Min2 | schedule/example.py:46 | `min(a, b)` is one of its arguments and no larger than either |
| Common.Max | topsis/simple-example.py:87-92 | `max(col)` of a non-empty column is an element that bounds every element from above |
| Common.Min | topsis/simple-example.py:87-92 | `min(col)` of a non-empty column is an element that bounds every element from below |
| StableSort.StrictlyGreaterFirst | topsis/simple-example.py:121 | In a sequence sorted by non-increasing key, an element with a strictly larger key comes strictly earlier |
| StableSort.Insert | topsis/simple-example.py:121 | Inserting adds exactly the one element |
| StableSort.InsertBelow | topsis/simple-example.py:121 | Inserting keeps every key at or below a common bound |
| StableSort.InsertSorted | topsis/simple-example.py:121 | Inserting into a non-increasing sequence keeps it non-increasing |
| StableSort.SortDesc | topsis/simple-example.py:121 | `sorted(..., reverse=True)` returns a permutation of its input, ordered by non-increasing key |
| StableSort.InsertStable | topsis/simple-example.py:121 | Inserting keeps the relative order of the elements of each key |
| StableSort.SortDescStable | topsis/simple-example.py:121 | The sort is stable: for every key value, the elements with that key keep their input order |
| Topsis.CheckConfigFrom | topsis/simple-example.py:49-53 | Validation passes exactly when every criterion has both a weight and a flag. Otherwise it reports the first criterion lacking one, and a missing weight takes precedence over a missing flag |
| Topsis.CheckStateFrom | topsis/simple-example.py:55-57 | A state passes exactly when it has every criterion; otherwise its first missing criterion is reported |
| Topsis.CheckStatesFrom | topsis/simple-example.py:54-57 | The states pass exactly when every state has every criterion; otherwise the first failing state's error is reported |
| Topsis.Row | topsis/simple-example.py:61 | A row of the decision matrix has one value per criterion |
| Topsis.Matrix | topsis/simple-example.py:61-63 | The decision matrix has one row per state and one column per criterion |
| Topsis.Column | topsis/simple-example.py:86 | A column has one value per state |
| Topsis.Square | topsis/simple-example.py:68 | A square is non-negative, and positive for a non-zero number |
| Topsis.Squares | topsis/simple-example.py:68 | Squaring term by term keeps one term per value |
| Topsis.SumSquaresZero | topsis/simple-example.py:68 | A sum of squares is non-negative, and zero exactly when every term is zero |
| Topsis.SumSquares | topsis/simple-example.py:68 | `sum(x ** 2 for x in xs)` is never negative |
| Topsis.Divisor | topsis/simple-example.py:66-69 | A column divisor is never zero. With a real square root it is positive, and it is 1.0 for an all-zero column |
| Topsis.Divisors | topsis/simple-example.py:66-69 | There is one non-zero divisor per column |
| Topsis.Normalize | topsis/simple-example.py:71 | `R` keeps the shape of `X` |
| Topsis.PerCriterion | topsis/simple-example.py:74 | One value per criterion, the mapping's value for it: the weight vector `weight_vec` from the weights, and each column's polarity from the benefit flags (line 87) |
| Topsis.NormalizeWeights | topsis/simple-example.py:78 | One normalised weight per criterion |
| Topsis.ApplyWeights | topsis/simple-example.py:80 | `V` keeps the shape of `R` |
| Topsis.IdealBest | topsis/simple-example.py:83-92 | `A_plus` has one value per criterion |
| Topsis.IdealWorst | topsis/simple-example.py:83-92 | `A_minus` has one value per criterion |
| Topsis.Closeness | topsis/simple-example.py:102-106 | For non-negative distances the closeness lies in [0, 1] |
| Topsis.Distance | topsis/simple-example.py:95-96 | With a real square root, `euclidean_dist` is non-negative and zero exactly when the sum of squared differences is zero |
| Topsis.WeightedMatrix | topsis/simple-example.py:60-80 | `V` has one row per state and one column per criterion |
| Topsis.ClosenessOfRows | topsis/simple-example.py:95-106 | One closeness value per row of `V` |
| Topsis.ClosenessVector | topsis/simple-example.py:60-106 | One closeness value per state |
| Topsis.EntryOf | topsis/simple-example.py:111-117 | A result entry exists exactly when the state has `score`, `cost_per_habitant` and `population`. It then carries the state's name, its closeness and those three values, and no rank yet |
| Topsis.Entries | topsis/simple-example.py:109-118 | The result list exists exactly when every state has the copied fields. It then has one entry per state, in input order, each being that state's entry |
| Topsis.EntriesError | topsis/simple-example.py:109-118 | A failed result list reports the error of the first state lacking a copied field |
| Topsis.WithRanks | topsis/simple-example.py:122-123 | Numbering keeps one entry per position |
| Topsis.Scores | topsis/simple-example.py:60-106 | When the closeness computation succeeds, it gives one value per state |
| Topsis.Rank | topsis/simple-example.py:49-123 | The whole ranking, errors in the order the source raises them: a successful ranking has one entry per state, at least one, numbered 1..n in list order |
| Topsis.RankAsWritten | topsis/simple-example.py:121-123 | The function as written fails exactly when the ranking fails, with the same error, and otherwise returns `None` |
| Topsis.ColumnDivisors | topsis/simple-example.py:66-69 | The loop computes exactly the divisors `Divisors` defines |
| Topsis.IdealPoints | topsis/simple-example.py:83-92 | The loop computes exactly `IdealBest` and `IdealWorst` |
| Topsis.ClosenessCoefficients | topsis/simple-example.py:102-106 | The loop gives one closeness per state: `S- / (S+ + S-)`, or 0.0 when the denominator is zero |
| Topsis.RowCloseness | topsis/simple-example.py:83-106 | The ideal points, distances and closeness loop compute exactly `ClosenessOfRows` |
| Topsis.BuildEntries | topsis/simple-example.py:109-118 | The loop builds exactly `Entries`, stopping with the error of the first state that lacks a field |
| Topsis.EntriesStopAt | topsis/simple-example.py:109-118 | Once a prefix of the states fails, the whole list fails with that error |
| Topsis.AssignRanks | topsis/simple-example.py:122-123 | The rank loop sets each entry's rank to its position plus one, in place, and changes nothing else |
| Topsis.RankEntries | topsis/simple-example.py:121-123 | Sorting by closeness and then numbering gives exactly `WithRanks(SortDesc(...))` |
| Topsis.ComputeScores | topsis/simple-example.py:60-106 | The numeric part of the procedure computes exactly `Scores`, including its weight-sum and no-states errors |
| Topsis.TopsisRankStates | topsis/simple-example.py:5-123 | With omitted weights, flags or criteria order replaced by the defaults, the procedure computes exactly `Rank`: the ranking with the corrected return, or the first error raised |
| TopsisProperties.RankOkIff | topsis/simple-example.py:49-123 | The ranking succeeds exactly when all of these hold: every criterion is configured; every state has every criterion; the weights sum to a positive value; there is at least one state; and every state has the copied fields |
| TopsisProperties.RankConfigError | topsis/simple-example.py:49-53 | The first unconfigured criterion is reported, as a missing weight if it lacks one and otherwise as a missing flag, before anything else is checked |
| TopsisProperties.RankStateError | topsis/simple-example.py:54-57 | With the configuration complete, the first state lacking a criterion is reported, with its first missing criterion |
| TopsisProperties.RankWeightError | topsis/simple-example.py:74-77 | After validation, weights whose sum is not positive are an error, whatever the states |
| TopsisProperties.RankNoStates | topsis/simple-example.py:76-91 | An empty list of states with a valid configuration is an error: the positive weight sum forces a criterion, and `max` (line 88) or `min` (line 91) of its empty column fails, depending on its polarity |
| TopsisProperties.Unranked | topsis/simple-example.py:122-123 | Removing the ranks keeps one entry per position |
| TopsisProperties.UnrankWithRanks | topsis/simple-example.py:122-123 | Numbering changes nothing but the rank |
| TopsisProperties.EntriesUnranked | topsis/simple-example.py:111-117 | The result entries carry no rank before the rank loop |
| TopsisProperties.RankedOrder | topsis/simple-example.py:121-123 | The ranks are exactly 1..n in list order, closeness never increases along the list, and a strictly closer entry always ranks better |
| TopsisProperties.NumberedSorted | topsis/simple-example.py:122-123 | Numbering a sorted list gives ranks 1..n in order, keeps it sorted, and puts strictly closer entries first |
| TopsisProperties.RankedPermutation | topsis/simple-example.py:121-123 | With the ranks removed, the ranking is a permutation of the entries, and entries of equal closeness keep their input order |
| TopsisProperties.RankOk | topsis/simple-example.py:49-123 | A successful ranking has passed every check. It has one entry per state, each holding the state's name, closeness and copied fields, sorted and numbered as RankedOrder and RankedPermutation describe |
| TopsisProperties.AsWrittenDiscardsRanking | topsis/simple-example.py:121-123 | On every input that the corrected function ranks, the function as written returns `None`, although a non-empty ranking was computed |
| TopsisProperties.NormalizedWeightsSumToOne | topsis/simple-example.py:74-78 | The normalised weights sum to one |
| TopsisProperties.SumScaled | topsis/simple-example.py:78 | Dividing every term by a number divides the sum by it |
| TopsisProperties.ColumnDivisor | topsis/simple-example.py:66-71 | A column's divisor is its norm when that norm is non-zero. An all-zero column has divisor 1.0 and normalises to zeros |
| TopsisProperties.IdealBounds | topsis/simple-example.py:83-92 | For a benefit criterion, every value of a column lies between `A_minus[j]` (the minimum) and `A_plus[j]` (the maximum); for a cost criterion the two are swapped |
| TopsisProperties.DistanceZeroIff | topsis/simple-example.py:95-96 | A distance is non-negative, and zero exactly at the reference point |
| TopsisProperties.ClosenessAtIdeals | topsis/simple-example.py:98-106 | At the best ideal and away from the worst, the closeness is 1. At the worst ideal it is 0. The denominator is zero only for a point at both ideals |
| TopsisProperties.ClosenessInUnitInterval | topsis/simple-example.py:95-106 | Every state's closeness lies in [0, 1] |
| TopsisProperties.DefaultsValid | topsis/simple-example.py:42-46 | The defaults configure every default criterion; score and population are benefits and cost per habitant is a cost; the default weights sum to one |

## Left out

- Console output is not modelled: `fmt_money`, `print_split_results` and both `__main__` blocks only print example data.
- Floating point is not modelled. All arithmetic is on exact reals, so conservation holds exactly; in Python floats it is approximate.
- Square root is a parameter, so the numeric values of norms and distances are not computed. Only non-negativity and zero-exactly-at-zero are assumed (`IsSqrt`).
- Dynamic typing is simplified:
  - A state is a name plus a map of numeric fields. The `float()` coercions of non-numeric values, and the `KeyError` of a state without `name`, are not modelled.
  - Budget values are numbers already, so `float(b)` is the identity.
- Schedule.ScheduleAllowSplit: requires every state to have `cost_per_habitant` and `population`. The source would raise `KeyError` on a state lacking either field; this error path is not modelled.
- Python dictionaries have distinct keys by construction; `DistinctKeys(budgets)` states that fact.
- Topsis.RankEntries: the source sorts the result dictionaries and then writes `rank` into those same dictionary objects, which are shared with `result`. The model ranks values (`AssignRanks` updates an array of entries in place), so that aliasing is not captured.
- Topsis.TopsisRankStates: the source falls off the end and returns `None` (see Findings). The model returns the ranked list it computes; `RankAsWritten` is the as-written behaviour.
- Code and docstring disagree on the default weights; the model follows the code: 0.6/0.3/0.1 (topsis/simple-example.py:44), not the docstring's 0.6/0.4/0.0 (line 24).

### Behaviour the model follows as written

The docstring (topsis/simple-example.py:17-21) asks every state to carry all three criteria, and says nothing about the cases below. The model keeps what the code does in them:

- An empty list of states fails at `max` (line 88) or `min` (line 91) of the first, empty column, depending on that criterion's polarity, rather than giving an empty ranking (`NoStates`).
- A criteria order that omits `score`, `cost_per_habitant` or `population` is not checked for it: when some state lacks such an omitted field, the ranking passes validation and then fails with a `KeyError` as the result entries copy the fields (lines 114-116; `MissingField`).

## Findings

| source | as written | input that shows it | evidently intended | confidence | as-written member | corrected member |
|---|---|---|---|---|---|---|
| topsis/simple-example.py:121-123 | The function sorts and numbers `result_sorted`, then ends without a `return`, so every successful call returns `None` | Any valid input, e.g. the five states of lines 127-133 with the default weights and flags; the loop `for r in ranking` at line 139 would then iterate over `None` | `return result_sorted` after the rank loop, as the signature's `-> List[Dict]` and the docstring promise | high, not executed | Topsis.RankAsWritten, TopsisProperties.AsWrittenDiscardsRanking | Topsis.TopsisRankStates |
