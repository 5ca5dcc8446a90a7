/** The states of a memory record and the steps between them. */
module Lifecycle {
  datatype Status = Raw | Candidate | Active | Deprecated | Conflicted | Archived

  function Targets(s: Status): set<Status> {
    match s
    case Raw => {Candidate}
    case Candidate => {Active, Archived, Conflicted}
    case Active => {Deprecated, Conflicted, Archived}
    case _ => {}
  }

  /** can_transition. */
  predicate CanTransition(source: Status, target: Status) {
    target in Targets(source)
  }

  /** A record that has left the active life. */
  predicate Dead(s: Status) {
    s in {Deprecated, Conflicted, Archived}
  }

  /** The states reachable in any number of steps. */
  ghost predicate Path(states: seq<Status>) {
    states != [] && forall i :: 0 <= i < |states| - 1 ==>
        states[i] == states[i + 1] || CanTransition(states[i], states[i + 1])
  }

  /** Dead is for ever, and a record is active in one stretch only. */
  lemma {:induction false} DeadStaysDead(states: seq<Status>, i: nat, j: nat)
    requires Path(states) && i <= j < |states| && Dead(states[i])
    ensures states[j] == states[i]
    decreases j - i
  {
    if i < j {
      assert states[i] == states[i + 1] || CanTransition(states[i], states[i + 1]);
      DeadStaysDead(states, i + 1, j);
    }
  }
}
