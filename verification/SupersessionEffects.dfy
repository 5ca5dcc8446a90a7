/** What a review does to the records, action by action. */
module SupersessionEffects {
  import opened Wrappers
  import opened Lifecycle
  import opened Supersession

  // ----- merged lists -----

  /** All of `before` in its order, then what was missing of `more`, each once. */
  ghost predicate Gains(before: seq<string>, after: seq<string>, more: seq<string>) {
    && before <= after
    && (forall x :: x in after <==> x in before || x in more)
    && forall i, j :: 0 <= i < j < |after| && |before| <= j ==> after[i] != after[j]
  }

  lemma {:induction false} MergeGains(left: seq<string>, right: seq<string>)
    ensures Gains(left, MergeUnique(left, right), right)
    decreases |right|
  {
    if right != [] {
      var next := if right[0] in left then left else left + [right[0]];
      assert next == MergeUnique(next, []);
      MergeGains(next, right[1..]);
      var merged := MergeUnique(next, right[1..]);
      assert forall x :: x in right <==> x == right[0] || x in right[1..];
      forall i, j | 0 <= i < j < |merged| && |left| <= j ensures merged[i] != merged[j] {
        if j < |next| { assert merged[j] == next[j] && merged[i] == next[i] && i < |left|; }
      }
    }
  }

  // ----- when a candidate is accepted -----

  ghost predicate Waiting(a: Store, id: string) {
    id in a && a[id].status == Candidate
  }

  /** The target is there, as it was when the proposal was made. */
  ghost predicate Bound(a: Store, p: Proposal) {
    && p.target.Some? && p.target.value in a
    && a[p.target.value].status == p.expectedStatus && p.expected == Some(a[p.target.value])
  }

  ghost predicate MayRetire(a: Store, t: string) {
    t in a && a[t].status in {Active, Deprecated}
  }

  /** From the personal partition one may go to work, internal or restricted; otherwise nothing moves. */
  ghost predicate Moves(source: Zone, destination: Zone) {
    || source == destination
    || (source == Zone("personal", "personal")
        && (destination == Zone("work", "internal") || destination == Zone("work", "restricted")))
  }

  /** The proposal of a waiting candidate can be carried out. */
  ghost predicate Acceptable(a: Store, id: string, p: Proposal)
    requires id in a
  {
    && (p.action in {Update, Deprecate} ==> Bound(a, p))
    && if p.requested == ContextTransition then
         && p.target.Some? && MayRetire(a, p.target.value) && Moves(a[p.target.value].zone, a[id].zone)
         && p.planned.Some? && p.planned.value.id !in a && p.planned.value.record.zone == a[id].zone
         && p.planned.value.record.status == Active && p.planned.value.record.supersedes == [p.target.value]
       else
         && (p.target.Some? && p.target.value in a ==> a[p.target.value].zone == a[id].zone)
         && (p.action != Add && p.requested in {Merge, Support} ==> p.target.Some? && p.target.value in a)
         && (p.action in {Update, Deprecate} && p.requested == Plain ==> MayRetire(a, p.target.value))
  }

  ghost predicate PlanIsFor(a: Store, id: string, p: Proposal)
    requires id in a
  {
    && p.target.Some? && p.target.value in a && Moves(a[p.target.value].zone, a[id].zone)
    && p.planned.Some? && p.planned.value.record.zone == a[id].zone
    && p.planned.value.record.status == Active && p.planned.value.record.supersedes == [p.target.value]
  }

  /** The refusal is for a target that is gone or has changed, or for a planned record that exists. */
  ghost predicate Stale(a: Store, id: string, p: Proposal)
    requires id in a
  {
    var missing := p.target.None? || p.target.value !in a;
    if p.requested == ContextTransition then
      missing || (PlanIsFor(a, id, p) && ((p.action in {Update, Deprecate} && !Bound(a, p)) || p.planned.value.id in a))
    else
      && (!missing ==> a[p.target.value].zone == a[id].zone)
      && ((p.action in {Update, Deprecate} && !Bound(a, p))
          || (p.action != Add && p.requested in {Merge, Support} && missing))
  }

  // ----- what acceptance does -----

  /** One record gets a status and a date; nothing else changes. */
  ghost predicate Marked(a: Store, b: Store, id: string, s: Status, today: string) {
    id in a && b == a[id := a[id].(status := s, updated := today)]
  }

  ghost predicate OthersStay(a: Store, b: Store, ids: set<string>) {
    b.Keys == a.Keys + ids && forall x :: x in a && x !in ids ==> b[x] == a[x]
  }

  /** `t` is deprecated and names its successor. */
  ghost predicate RetiredFor(a: Store, b: Store, t: string, successor: string, today: string) {
    && t in a && t in b && Gains(a[t].supersededBy, b[t].supersededBy, [successor])
    && b[t] == a[t].(status := Deprecated, updated := today, supersededBy := b[t].supersededBy)
  }

  /** The candidate becomes active in the place of its target. */
  ghost predicate Replaced(a: Store, b: Store, id: string, t: string, today: string) {
    && id != t && OthersStay(a, b, {id, t}) && RetiredFor(a, b, t, id, today)
    && id in a && Gains(a[id].supersedes, b[id].supersedes, [t])
    && b[id] == a[id].(status := Active, updated := today, supersedes := b[id].supersedes)
  }

  /** The target keeps its status and gains the references of the candidate, which is archived. */
  ghost predicate Absorbed(a: Store, b: Store, id: string, t: string, today: string) {
    if id == t then Marked(a, b, id, Archived, today)
    else
      && OthersStay(a, b, {id, t}) && id in a && t in a
      && b[id] == a[id].(status := Archived, updated := today)
      && b[t] == a[t].(refs := b[t].refs, updated := today) && Gains(a[t].refs, b[t].refs, a[id].refs)
  }

  /** The planned record is written active in the place of the target; the candidate is archived. */
  ghost predicate Transferred(a: Store, b: Store, id: string, t: string, n: Planned, today: string) {
    && id != t && n.id !in a && OthersStay(a, b, {id, t, n.id}) && RetiredFor(a, b, t, n.id, today)
    && b[n.id] == n.record && n.record.status == Active && n.record.supersedes == [t]
    && id in a && b[id] == a[id].(status := Archived, updated := today)
  }

  ghost predicate Effect(a: Store, b: Store, id: string, p: Proposal, today: string) {
    && (p.requested == ContextTransition ==>
          p.target.Some? && p.planned.Some? && Transferred(a, b, id, p.target.value, p.planned.value, today))
    && (p.requested != ContextTransition && p.action == Add ==> Marked(a, b, id, Active, today))
    && (p.action != Add && p.requested in {Merge, Support} ==>
          p.target.Some? && Absorbed(a, b, id, p.target.value, today))
    && (p.requested == Plain && p.action in {Update, Deprecate} ==>
          p.target.Some? && Replaced(a, b, id, p.target.value, today))
    && (p.requested == Plain && p.action == ReviewRequired ==> Marked(a, b, id, Conflicted, today))
    && (p.requested == Plain && p.action == OtherAction ==> Marked(a, b, id, Archived, today))
  }

  // ----- the laws -----

  lemma {:induction false} WrittenOne(a: Store, x: Change)
    ensures Written(a, [x]) == a[x.id := x.record]
  {
    assert [x][..0] == [];
  }

  lemma {:induction false} WrittenTwo(a: Store, x: Change, y: Change)
    ensures Written(a, [x, y]) == a[x.id := x.record][y.id := y.record]
  {
    assert [x, y][..1] == [x];
    WrittenOne(a, x);
  }

  lemma {:induction false} WrittenThree(a: Store, x: Change, y: Change, z: Change)
    ensures Written(a, [x, y, z]) == a[x.id := x.record][y.id := y.record][z.id := z.record]
  {
    assert [x, y, z][..2] == [x, y];
    WrittenTwo(a, x, y);
  }

  lemma OneOk(a: Store, x: Change)
    ensures TransitionsOk(a, [x]) <==> StepOk(a, x)
  {
    if StepOk(a, x) { forall i | 0 <= i < 1 ensures StepOk(a, [x][i]) {} }
    assert TransitionsOk(a, [x]) ==> StepOk(a, [x][0]);
  }

  lemma TwoOk(a: Store, x: Change, y: Change)
    ensures TransitionsOk(a, [x, y]) <==> StepOk(a, x) && StepOk(a, y)
  {
    hide StepOk;
    var cs := [x, y];
    assert cs[0] == x && cs[1] == y;
    OkIsSteps(a, cs);
  }

  lemma ThreeOk(a: Store, x: Change, y: Change, z: Change)
    ensures TransitionsOk(a, [x, y, z]) <==> StepOk(a, x) && StepOk(a, y) && StepOk(a, z)
  {
    hide StepOk;
    var cs := [x, y, z];
    assert cs[0] == x && cs[1] == y && cs[2] == z;
    OkIsSteps(a, cs);
  }

  lemma OkIsSteps(a: Store, changes: seq<Change>)
    ensures TransitionsOk(a, changes) <==> forall i :: 0 <= i < |changes| ==> StepOk(a, changes[i])
  {
  }

  ghost predicate StepOk(a: Store, x: Change) {
    var source := if x.id in a then a[x.id].status else Candidate;
    source == x.record.status || CanTransition(source, x.record.status)
  }

  lemma Steps(a: Store, x: Change)
    ensures Waiting(a, x.id) || x.id !in a ==>
              (StepOk(a, x) <==> x.record.status in {Candidate, Active, Archived, Conflicted})
    ensures x.id in a && x.record.status == Deprecated ==> (StepOk(a, x) <==> MayRetire(a, x.id))
    ensures x.id in a && x.record.status == a[x.id].status ==> StepOk(a, x)
  {
  }

  lemma MovesIs(source: Zone, destination: Zone)
    ensures MoveAllowed(source, destination) <==> Moves(source, destination)
  {
  }

  /** One action, or none, that only marks the candidate. */
  lemma MarkingAccepts(a: Store, id: string, s: Status, today: string)
    requires Waiting(a, id) && s in {Active, Conflicted, Archived}
    ensures var changes := [Change(id, Reviewed(a[id], s, today))];
            TransitionsOk(a, changes) && Marked(a, Written(a, changes), id, s, today)
  {
    var x := Change(id, Reviewed(a[id], s, today));
    OneOk(a, x);
    Steps(a, x);
    WrittenOne(a, x);
  }

  lemma AbsorbingAccepts(a: Store, id: string, t: string, today: string)
    requires Waiting(a, id) && t in a
    ensures var changes := [Change(t, a[t].(refs := MergeUnique(a[t].refs, a[id].refs), updated := today)),
                            Change(id, Reviewed(a[id], Archived, today))];
            TransitionsOk(a, changes) && Absorbed(a, Written(a, changes), id, t, today)
  {
    hide Gains; hide MergeUnique;
    var x := Change(t, a[t].(refs := MergeUnique(a[t].refs, a[id].refs), updated := today));
    var y := Change(id, Reviewed(a[id], Archived, today));
    TwoOk(a, x, y);
    Steps(a, x);
    Steps(a, y);
    WrittenTwo(a, x, y);
    MergeGains(a[t].refs, a[id].refs);
    if id == t { assert a[t := x.record][id := y.record] == a[id := y.record]; }
  }

  lemma ReplacingAccepts(a: Store, id: string, t: string, today: string)
    requires Waiting(a, id) && t in a
    ensures var changes := [Change(t, Retired(a[t], id, today)),
                            Change(id, Reviewed(a[id], Active,
                                today).(supersedes := MergeUnique(a[id].supersedes, [t])))];
            && (TransitionsOk(a, changes) <==> MayRetire(a, t))
            && (TransitionsOk(a, changes) ==> Replaced(a, Written(a, changes), id, t, today))
  {
    hide Gains; hide MergeUnique;
    var x := Change(t, Retired(a[t], id, today));
    var y := Change(id, Reviewed(a[id], Active, today).(supersedes := MergeUnique(a[id].supersedes, [t])));
    TwoOk(a, x, y);
    Steps(a, x);
    Steps(a, y);
    WrittenTwo(a, x, y);
    MergeGains(a[t].supersededBy, [id]);
    MergeGains(a[id].supersedes, [t]);
  }

  lemma TransferringAccepts(a: Store, id: string, t: string, n: Planned, today: string)
    requires Waiting(a, id) && t in a && n.id !in a && n.record.status == Active && n.record.supersedes == [t]
    ensures var changes := [Change(t, Retired(a[t], n.id, today)),
                            Change(n.id, n.record.(supersedes := MergeUnique(n.record.supersedes, [t]))),
                            Change(id, Reviewed(a[id], Archived, today))];
            && (TransitionsOk(a, changes) <==> MayRetire(a, t))
            && (TransitionsOk(a, changes) ==> Transferred(a, Written(a, changes), id, t, n, today))
  {
    assert MergeUnique([t], [t]) == [t];
    hide Gains; hide MergeUnique;
    var x := Change(t, Retired(a[t], n.id, today));
    var y := Change(n.id, n.record.(supersedes := MergeUnique(n.record.supersedes, [t])));
    assert y.record == n.record;
    var z := Change(id, Reviewed(a[id], Archived, today));
    ThreeOk(a, x, y, z);
    Steps(a, x);
    Steps(a, y);
    Steps(a, z);
    WrittenThree(a, x, y, z);
    MergeGains(a[t].supersededBy, [n.id]);
  }

  /** Whether a review accepts a waiting candidate with a proposal, and what the store holds then. */
  lemma AcceptedProposal(a: Store, id: string, today: string, valid: bool)
    requires Waiting(a, id) && a[id].proposal.Some?
    ensures var p := a[id].proposal.value;
            var outcome := AcceptOutcome(a, id, today, valid);
            && (outcome.Accepted? <==> valid && Acceptable(a, id, p))
            && (outcome.Accepted? ==> Effect(a, Written(a, outcome.changes), id, p, today))
            && outcome != Refused(NoCandidate) && (outcome == Refused(StaleTarget) <==> Stale(a, id, p))
  {
    var c := a[id];
    var p := c.proposal.value;
    hide TransitionsOk; hide Written; hide Marked; hide Absorbed; hide Replaced; hide Transferred; hide MoveAllowed;
    hide Moves; hide MergeUnique; hide MayRetire; hide Retired; hide Reviewed;
    if p.target.Some? && p.target.value in a { MovesIs(a[p.target.value].zone, c.zone); }
    if Prepare(a, id, today).Accepted? {
      if p.requested == ContextTransition {
        TransferringAccepts(a, id, p.target.value, p.planned.value, today);
      } else if p.action == Add {
        MarkingAccepts(a, id, Active, today);
      } else if p.requested != Plain {
        AbsorbingAccepts(a, id, p.target.value, today);
      } else if Replaces(p) {
        ReplacingAccepts(a, id, p.target.value, today);
      } else {
        MarkingAccepts(a, id, if p.action == ReviewRequired then Conflicted else Archived, today);
      }
    }
  }

  /** A candidate without a proposal can only be archived. */
  lemma AcceptedBare(a: Store, id: string, today: string, valid: bool)
    requires Waiting(a, id) && a[id].proposal.None?
    ensures var outcome := AcceptOutcome(a, id, today, valid);
            && (outcome.Accepted? <==> valid)
            && (outcome.Accepted? ==> Marked(a, Written(a, outcome.changes), id, Archived, today))
            && (!valid ==> outcome == Refused(InvalidTransition))
  {
    hide TransitionsOk; hide Written; hide Marked;
    MarkingAccepts(a, id, Archived, today);
  }

  /** A replacement of an active record is proposed and accepted whenever nothing intervenes. */
  lemma ReplacementGoesThrough(a: Store, id: string, t: string, r: Record, today: string)
    requires id !in a && t in a && a[t].status == Active && r.zone == a[t].zone
    requires r.status == Candidate && r.supersedes == [] && r.supersededBy == [] && r.proposal.Some?
    requires var p := r.proposal.value;
             && p.action in {Update, Deprecate} && p.requested == Plain && p.target == Some(t)
             && p.expectedStatus == Active && p.expected == Some(a[t])
    ensures var b := After(a, Propose(id, r));
            var c := After(b, Accept(id, today, true));
            && b == a[id := r] && c.Keys == a.Keys + {id}
            && c[id].status == Active && c[id].supersedes == [t] && c[id].text == r.text
            && c[t].status == Deprecated && id in c[t].supersededBy && c[t].text == a[t].text
            && forall x :: x in a && x != t ==> c[x] == a[x]
  {
    var b := a[id := r];
    AcceptedProposal(b, id, today, true);
    assert After(a, Propose(id, r)) == b;
    hide AcceptOutcome; hide Written;
    var c := After(b, Accept(id, today, true));
    assert Acceptable(b, id, r.proposal.value);
    assert Replaced(b, c, id, t, today);
    OnlyGained(c[id].supersedes, t);
    assert id in [id];
  }

  lemma OnlyGained(list: seq<string>, t: string)
    requires Gains([], list, [t])
    ensures list == [t]
  {
    assert forall x :: x in list ==> x == t;
    assert t in [t] && t in list;
    var last := |list| - 1;
    assert list[0] in list && list[last] in list;
  }
}
