/** The candidate entities ("states") shared by the ranking and the scheduler.
    A state is a name plus its numeric fields, keyed by field name as in the
    source's dictionaries; the three well-known fields are named below. */
module States {

  type Field = string

  const Score: Field := "score"
  const CostPerHabitant: Field := "cost_per_habitant"
  const Population: Field := "population"

  datatype State = State(name: string, fields: map<Field, real>)

  predicate HasCostFields(s: State)
  {
    CostPerHabitant in s.fields && Population in s.fields
  }

  /** `compute_state_cost`: the cost of serving every inhabitant. A state
      whose fields are non-negative never costs a negative amount, and one
      with nobody to serve or a zero unit cost costs nothing. */
  function TotalCost(s: State): (cost: real)
    requires HasCostFields(s)
    ensures s.fields[CostPerHabitant] >= 0.0 && s.fields[Population] >= 0.0 ==> cost >= 0.0
    ensures s.fields[CostPerHabitant] == 0.0 || s.fields[Population] == 0.0 ==> cost == 0.0
  {
    s.fields[CostPerHabitant] * s.fields[Population]
  }
}
