/**
 Proposals, their review, and the supersession links that acceptance writes.

 A record stands for its whole file: two records are equal when the SHA-256 of their files is.
 */
module Supersession {
  import opened Wrappers
  import opened Lifecycle

  datatype Action = Add | Update | Deprecate | ReviewRequired | OtherAction

  /** The requested actions that acceptance treats in a way of their own. */
  datatype Requested = Plain | Merge | Support | ContextTransition

  datatype Proposal = Proposal(action: Action, requested: Requested, target: Option<string>,
                               expectedStatus: Status, expected: Option<Record>, planned: Option<Planned>)

  datatype Planned = Planned(id: string, record: Record)

  /** The partition of a record. */
  datatype Zone = Zone(workspace: string, confidentiality: string)

  datatype Record = Record(zone: Zone, status: Status, supersedes: seq<string>, supersededBy: seq<string>,
                           refs: seq<string>, updated: string, text: string, proposal: Option<Proposal>)

  type Store = map<string, Record>

  datatype Change = Change(id: string, record: Record)

  datatype Error = NoCandidate | InvalidTransition | StaleTarget

  datatype Review = Accepted(changes: seq<Change>) | Refused(error: Error)

  // ----- acceptance -----

  function MergeUnique(left: seq<string>, right: seq<string>): seq<string>
    decreases |right|
  {
    if right == [] then left
    else MergeUnique(if right[0] in left then left else left + [right[0]], right[1..])
  }

  function Reviewed(r: Record, status: Status, today: string): Record {
    r.(status := status, updated := today)
  }

  predicate IsCandidate(store: Store, id: string) {
    id in store && store[id].status == Candidate
  }

  predicate Replaces(p: Proposal) {
    p.action == Update || p.action == Deprecate
  }

  /** The binding of a replacing proposal to its target is still good. */
  predicate TargetUnchanged(store: Store, p: Proposal) {
    && p.target.Some? && p.target.value in store
    && store[p.target.value].status == p.expectedStatus
    && p.expected == Some(store[p.target.value])
  }

  predicate SameZone(store: Store, c: Record, target: Option<string>) {
    target.Some? && target.value in store ==> store[target.value].zone == c.zone
  }

  /** A context may move from the personal partition to the work partition. */
  predicate MoveAllowed(source: Zone, destination: Zone) {
    source == destination
    || (source == Zone("personal", "personal")
        && destination.workspace == "work" && destination.confidentiality in {"internal", "restricted"})
  }

  /** _validated_context_transition, as far as it concerns the links. */
  predicate PlannedOk(store: Store, c: Record, p: Proposal)
    requires p.target.Some? && p.target.value in store
  {
    && MoveAllowed(store[p.target.value].zone, c.zone)
    && PlanFits(c, p)
  }

  predicate PlanFits(c: Record, p: Proposal) {
    && p.planned.Some? && p.target.Some?
    && p.planned.value.record.status == Active && p.planned.value.record.supersedes == [p.target.value]
    && p.planned.value.record.zone == c.zone
  }

  /** The changes that _accept_candidate_impl prepares, or its refusal. */
  function Prepare(store: Store, id: string, today: string): Review {
    if !IsCandidate(store, id) then Refused(NoCandidate)
    else
      var c := store[id];
      if c.proposal.None? then Accepted([Change(id, Reviewed(c, Archived, today))])
      else
        var p := c.proposal.value;
        if p.requested == ContextTransition && (p.target.None? || p.target.value !in store) then Refused(StaleTarget)
        else if p.requested == ContextTransition && !PlannedOk(store, c, p) then Refused(InvalidTransition)
        else if p.requested != ContextTransition && !SameZone(store, c, p.target) then Refused(InvalidTransition)
        else if Replaces(p) && !TargetUnchanged(store, p) then Refused(StaleTarget)
        else if p.requested == ContextTransition then
          var t := p.target.value;
          var n := p.planned.value;
          if n.id in store then Refused(StaleTarget)
          else Accepted([
            Change(t, Retired(store[t], n.id, today)),
            Change(n.id, n.record.(supersedes := MergeUnique(n.record.supersedes, [t]))),
            Change(id, Reviewed(c, Archived, today))])
        else if p.action == Add then Accepted([Change(id, Reviewed(c, Active, today))])
        else if p.requested == Merge || p.requested == Support then
          if p.target.None? || p.target.value !in store then Refused(StaleTarget)
          else
            var t := p.target.value;
            Accepted([
              Change(t, store[t].(refs := MergeUnique(store[t].refs, c.refs), updated := today)),
              Change(id, Reviewed(c, Archived, today))])
        else if Replaces(p) then
          var t := p.target.value;
          Accepted([
            Change(t, Retired(store[t], id, today)),
            Change(id, Reviewed(c, Active, today).(supersedes := MergeUnique(c.supersedes, [t])))])
        else if p.action == ReviewRequired then Accepted([Change(id, Reviewed(c, Conflicted, today))])
        else Accepted([Change(id, Reviewed(c, Archived, today))])
  }

  function Retired(r: Record, successor: string, today: string): Record {
    r.(status := Deprecated, updated := today, supersededBy := MergeUnique(r.supersededBy, [successor]))
  }

  /** _validate_review_transitions; a new file counts as coming from `candidate`. */
  predicate TransitionsOk(store: Store, changes: seq<Change>) {
    forall i :: 0 <= i < |changes| ==>
      var source := if changes[i].id in store then store[changes[i].id].status else Candidate;
      source == changes[i].record.status || CanTransition(source, changes[i].record.status)
  }

  function Written(store: Store, changes: seq<Change>): Store
    decreases |changes|
  {
    if changes == [] then store
    else
      var last := changes[|changes| - 1];
      Written(store, changes[..|changes| - 1])[last.id := last.record]
  }

  /** `valid` stands for the checks of the hypothetical store that do not concern links. */
  function AcceptOutcome(store: Store, id: string, today: string, valid: bool): Review {
    var review := Prepare(store, id, today);
    if review.Refused? then review
    else if !TransitionsOk(store, review.changes) || !valid then Refused(InvalidTransition)
    else review
  }

  // ----- runs -----

  datatype Op =
    | Propose(id: string, record: Record)
    | Accept(id: string, today: string, valid: bool)
    | Reject(id: string, today: string)
    | Conflict(id: string, today: string)
    | Idle

  /**
   What _apply_candidate_once and the context transition write: a candidate without links whose binding is to
   the present target.
   */
  predicate ProposalOk(store: Store, id: string, r: Record) {
    && id !in store && r.status == Candidate && r.supersedes == [] && r.supersededBy == [] && r.proposal.Some?
    && var p := r.proposal.value;
       && (p.requested != Plain ==> p.action == Update)
       && (p.requested != ContextTransition ==> SameZone(store, r, p.target))
       && (p.target.Some? ==> p.target.value in store)
       && (Replaces(p) ==> p.target.Some? && store[p.target.value].status == Active && p.expectedStatus == Active
                           && p.expected == Some(store[p.target.value]))
       && (p.requested == ContextTransition ==> PlanFits(r, p) && p.planned.value.record.supersededBy == [])
  }

  /** A proposal is put in conflict only with its target there, in the same partition. */
  predicate ConflictOk(store: Store, id: string)
    requires id in store
  {
    var p := store[id].proposal;
    p.Some? && p.value.target.Some? ==>
      p.value.target.value in store && store[p.value.target.value].zone == store[id].zone
  }

  function After(store: Store, op: Op): Store {
    match op
    case Propose(id, r) => if ProposalOk(store, id, r) then store[id := r] else store
    case Accept(id, today, valid) =>
      var outcome := AcceptOutcome(store, id, today, valid);
      if outcome.Accepted? then Written(store, outcome.changes) else store
    case Reject(id, today) =>
      if IsCandidate(store, id) then store[id := Reviewed(store[id], Archived, today)] else store
    case Conflict(id, today) =>
      if IsCandidate(store, id) && ConflictOk(store, id) then store[id := Reviewed(store[id], Conflicted, today)]
      else store
    case Idle => store
  }

  function Exec(store: Store, ops: seq<Op>): Store
    decreases |ops|
  {
    if ops == [] then store else After(Exec(store, ops[..|ops| - 1]), ops[|ops| - 1])
  }

  // ----- the invariant -----

  /** Links are symmetric. */
  ghost predicate Symmetric(store: Store) {
    && (forall a, b :: a in store && b in store[a].supersededBy ==> b in store && a in store[b].supersedes)
    && (forall a, b :: b in store && a in store[b].supersedes ==> a in store && b in store[a].supersededBy)
  }

  /** Only a deprecated record is superseded, and once; only an accepted record supersedes. */
  ghost predicate Shaped(store: Store) {
    forall a :: a in store ==> RecordShaped(store[a])
  }

  ghost predicate RecordShaped(r: Record) {
    && |r.supersededBy| <= 1
    && (r.supersededBy != [] ==> r.status == Deprecated)
    && (r.supersedes != [] ==> r.status == Active || (r.status == Deprecated && r.supersededBy != []))
    && (r.status == Candidate ==> CandidateShaped(r))
  }

  ghost predicate CandidateShaped(r: Record) {
    && r.supersedes == [] && r.supersededBy == []
    && (r.proposal.Some? ==>
          var p := r.proposal.value;
          && (Replaces(p) ==> p.expectedStatus == Active)
          && (p.requested != Plain ==> p.action == Update)
          && (p.requested == ContextTransition && p.planned.Some? ==> p.planned.value.record.supersededBy == []))
  }

  /** Every link goes up in rank. */
  ghost predicate Ranked(store: Store, rank: map<string, nat>, bound: nat) {
    && (forall a :: a in store ==> a in rank && rank[a] <= bound)
    && (forall a, b :: a in store && b in store[a].supersededBy && b in store ==> rank[a] < rank[b])
  }

  ghost predicate Acyclic(store: Store) {
    exists rank: map<string, nat>, bound: nat :: Ranked(store, rank, bound)
  }

  ghost predicate Inv(store: Store) {
    Symmetric(store) && Shaped(store) && Acyclic(store)
  }

  /** A validated store without links, whose candidates, if any, are bound as proposals bind them. */
  ghost predicate Fresh(store: Store) {
    forall a :: a in store ==>
      store[a].supersedes == [] && store[a].supersededBy == []
          && (store[a].status == Candidate ==> CandidateShaped(store[a]))
  }
}
