/** The session lifecycle states (internal/session/state.go). */
module SessionStates {
  /** `State` is an `int` enum starting at 1, so the zero value and any
      other out-of-range value are representable but name no state. */
  type State = int

  const NotStarted: State := 1
  const Running: State := 2
  const Completed: State := 3
  const Failed: State := 4
  const TimeExpired: State := 5

  predicate IsState(s: State) {
    NotStarted <= s <= TimeExpired
  }

  /** `State.IsTerminal`: exactly the three end states. */
  predicate IsTerminal(s: State) {
    s == Completed || s == Failed || s == TimeExpired
  }

  /** `State.String`: a name per state, "unknown" for anything else. */
  function StateString(s: State): (name: string)
    ensures name == "unknown" <==> !IsState(s)
  {
    if s == NotStarted then "not started"
    else if s == Running then "running"
    else if s == Completed then "completed"
    else if s == Failed then "failed"
    else if s == TimeExpired then "time expired"
    else "unknown"
  }

  /** The zero value is no state; the states before the end are not
      terminal, and every terminal value is a state. */
  lemma StateFacts()
    ensures !IsState(0)
    ensures !IsTerminal(NotStarted) && !IsTerminal(Running)
    ensures forall s :: IsTerminal(s) ==> IsState(s) && s != NotStarted && s != Running
  {
  }

  /** The five names are pairwise distinct. */
  lemma StateNamesDistinct(s: State, t: State)
    requires IsState(s) && IsState(t) && s != t
    ensures StateString(s) != StateString(t)
  {
  }
}
