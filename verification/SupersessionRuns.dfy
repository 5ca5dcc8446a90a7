/** What every run of proposals and reviews keeps, and where the supersession links lead. */
module SupersessionRuns {
  import opened Wrappers
  import opened Lifecycle
  import opened Supersession

  // ----- one change of the links -----

  lemma MergeOne(left: seq<string>, x: string)
    ensures MergeUnique(left, [x]) == if x in left then left else left + [x]
  {
    var next := if x in left then left else left + [x];
    assert [x][1..] == [];
    assert MergeUnique(next, []) == next;
  }

  /** Rewriting a record without touching its links. */
  lemma PlainKeepsInv(store: Store, x: string, r: Record)
    requires Inv(store) && x in store && r.supersedes == store[x].supersedes && r.supersededBy == store[x].supersededBy
    requires RecordShaped(r)
    ensures Inv(store[x := r])
  {
    var next := store[x := r];
    hide RecordShaped;
    assert forall a :: a in next ==>
        next[a].supersedes == store[a].supersedes && next[a].supersededBy == store[a].supersededBy;
    assert Symmetric(next);
    var rank, bound :| Ranked(store, rank, bound);
    assert Ranked(next, rank, bound);
  }

  /** A new record without links. */
  lemma NewKeepsInv(store: Store, x: string, r: Record)
    requires Inv(store) && x !in store && r.supersedes == [] && r.supersededBy == [] && RecordShaped(r)
    ensures Inv(store[x := r])
  {
    var next := store[x := r];
    hide RecordShaped;
    NobodyPoints(store, x);
    assert Symmetric(next);
    var rank, bound :| Ranked(store, rank, bound);
    var rank' := rank[x := 0];
    assert Ranked(next, rank', bound);
  }

  /** A record without links is not linked to. */
  lemma NobodyPoints(store: Store, x: string)
    requires Symmetric(store) && (x !in store || (store[x].supersedes == [] && store[x].supersededBy == []))
    ensures forall a :: a in store ==> x !in store[a].supersedes && x !in store[a].supersededBy
  {
  }

  /** A record is retired in favour of one that had no links so far. */
  lemma LinkKeepsInv(store: Store, t: string, c: string, retired: Record, successor: Record)
    requires Inv(store) && t in store && t != c && store[t].status == Active
    requires c in store ==> store[c].supersedes == [] && store[c].supersededBy == []
    requires retired.supersedes == store[t].supersedes && retired.supersededBy == [c] && retired.status == Deprecated
    requires successor.supersedes == [t] && successor.supersededBy == [] && successor.status == Active
    ensures Inv(store[t := retired][c := successor])
  {
    var next := store[t := retired][c := successor];
    NobodyPoints(store, c);
    assert RecordShaped(store[t]);
    assert store[t].supersededBy == [];
    LinkSymmetric(store, t, c, retired, successor);
    assert Shaped(next);
    var rank, bound :| Ranked(store, rank, bound);
    LinkRanked(store, t, c, retired, successor, rank, bound);
  }

  lemma LinkSymmetric(store: Store, t: string, c: string, retired: Record, successor: Record)
    requires Symmetric(store) && t in store && t != c && store[t].supersededBy == []
    requires c in store ==> store[c].supersedes == [] && store[c].supersededBy == []
    requires forall a :: a in store ==> c !in store[a].supersedes && c !in store[a].supersededBy
    requires retired.supersedes == store[t].supersedes && retired.supersededBy == [c]
    requires successor.supersedes == [t] && successor.supersededBy == []
    ensures Symmetric(store[t := retired][c := successor])
  {
    var next := store[t := retired][c := successor];
    forall a, b | a in next && b in next[a].supersededBy ensures b in next && a in next[b].supersedes {
      if a != t { assert a in store && b in store[a].supersededBy; }
    }
    forall a, b | b in next && a in next[b].supersedes ensures a in next && b in next[a].supersededBy {
      if b != c { assert b in store && a in store[b].supersedes; }
    }
  }

  lemma LinkRanked(store: Store, t: string, c: string, retired: Record, successor: Record, rank: map<string, nat>,
          bound: nat)
    requires Ranked(store, rank, bound) && t in store && t != c
    requires forall a :: a in store ==> c !in store[a].supersededBy
    requires retired.supersededBy == [c] && successor.supersededBy == []
    ensures Acyclic(store[t := retired][c := successor])
  {
    var next := store[t := retired][c := successor];
    var rank' := rank[c := rank[t] + 1];
    assert Ranked(next, rank', bound + 1);
  }

  // ----- acceptance -----

  lemma WrittenOne(store: Store, a: Change)
    ensures Written(store, [a]) == store[a.id := a.record]
  {
    assert [a][..0] == [];
  }

  lemma WrittenTwo(store: Store, a: Change, b: Change)
    ensures Written(store, [a, b]) == store[a.id := a.record][b.id := b.record]
  {
    assert [a, b][..1] == [a];
    WrittenOne(store, a);
  }

  lemma WrittenThree(store: Store, a: Change, b: Change, c: Change)
    ensures Written(store, [a, b, c]) == store[a.id := a.record][b.id := b.record][c.id := c.record]
  {
    assert [a, b, c][..2] == [a, b];
    WrittenTwo(store, a, b);
  }

  lemma CandidateFacts(store: Store, id: string)
    requires Inv(store) && IsCandidate(store, id)
    ensures CandidateShaped(store[id])
  {
    assert RecordShaped(store[id]);
  }

  lemma ReviewedShaped(r: Record, status: Status, today: string)
    requires CandidateShaped(r) && status != Candidate
    ensures RecordShaped(Reviewed(r, status, today))
  {
  }

  lemma CloseKeepsInv(store: Store, id: string, status: Status, today: string)
    requires Inv(store) && IsCandidate(store, id) && status in {Active, Archived, Conflicted}
    ensures Inv(store[id := Reviewed(store[id], status, today)])
  {
    hide Inv; hide RecordShaped; hide CandidateShaped;
    CandidateFacts(store, id);
    ReviewedShaped(store[id], status, today);
    PlainKeepsInv(store, id, Reviewed(store[id], status, today));
  }

  lemma ActiveTarget(store: Store, p: Proposal)
    requires Replaces(p) && TargetUnchanged(store, p) && p.expectedStatus == Active
    ensures p.target.value in store && store[p.target.value].status == Active
  {
  }

  /** An accepted replacement links the target to the candidate. */
  lemma ReplaceKeepsInv(store: Store, id: string, today: string)
    requires Inv(store) && IsCandidate(store, id) && store[id].proposal.Some?
    requires var p := store[id].proposal.value; Replaces(p) && TargetUnchanged(store, p)
    ensures var t := store[id].proposal.value.target.value;
            Inv(store[t := Retired(store[t], id, today)]
                     [id := Reviewed(store[id], Active, today).(supersedes := MergeUnique(store[id].supersedes, [t]))])
  {
    CandidateFacts(store, id);
    var t := store[id].proposal.value.target.value;
    NoLinksYet(store, t);
    MergeOne(store[t].supersededBy, id);
    MergeOne(store[id].supersedes, t);
    assert store[t].supersededBy == [] && store[id].supersedes == [];
    assert MergeUnique(store[t].supersededBy, [id]) == [id] && MergeUnique(store[id].supersedes, [t]) == [t];
    hide Inv; hide MergeUnique; hide CandidateShaped;
    LinkKeepsInv(store, t, id, Retired(store[t], id, today), Reviewed(store[id], Active, today).(supersedes := [t]));
  }

  lemma NoLinksYet(store: Store, t: string)
    requires Inv(store) && t in store && store[t].status == Active
    ensures store[t].supersededBy == []
  {
    assert RecordShaped(store[t]);
  }

  /** An accepted context transition links the target to the planned record and closes the proposal. */
  lemma TransitionKeepsInv(store: Store, id: string, today: string)
    requires Inv(store) && IsCandidate(store, id) && store[id].proposal.Some?
    requires var p := store[id].proposal.value;
             && p.requested == ContextTransition && p.target.Some? && p.target.value in store
                && PlannedOk(store, store[id], p)
             && TargetUnchanged(store, p) && p.planned.value.id !in store
    ensures var p := store[id].proposal.value;
            var t, n := p.target.value, p.planned.value;
            Inv(store[t := Retired(store[t], n.id, today)]
                     [n.id := n.record.(supersedes := MergeUnique(n.record.supersedes, [t]))]
                     [id := Reviewed(store[id], Archived, today)])
  {
    CandidateFacts(store, id);
    var p := store[id].proposal.value;
    var t, n := p.target.value, p.planned.value;
    NoLinksYet(store, t);
    MergeOne(store[t].supersededBy, n.id);
    MergeOne(n.record.supersedes, t);
    var linked := store[t := Retired(store[t], n.id, today)][n.id := n.record.(supersedes := [t])];
    assert linked[id] == store[id];
    hide Inv; hide MergeUnique;
    LinkKeepsInv(store, t, n.id, Retired(store[t], n.id, today), n.record.(supersedes := [t]));
    CloseKeepsInv(linked, id, Archived, today);
  }

  lemma SupportKeepsInv(store: Store, id: string, t: string, refs: seq<string>, today: string)
    requires Inv(store) && IsCandidate(store, id) && t in store && t != id
    ensures Inv(store[t := store[t].(refs := refs, updated := today)][id := Reviewed(store[id], Archived, today)])
  {
    var r := store[t].(refs := refs, updated := today);
    assert RecordShaped(store[t]) && RecordShaped(r);
    hide Inv;
    PlainKeepsInv(store, t, r);
    var next := store[t := r];
    assert next[id] == store[id];
    CloseKeepsInv(next, id, Archived, today);
  }

  lemma AcceptKeepsInv(store: Store, id: string, today: string)
    requires Inv(store) && Prepare(store, id, today).Accepted?
    ensures Inv(Written(store, Prepare(store, id, today).changes))
  {
    var changes := Prepare(store, id, today).changes;
    CandidateFacts(store, id);
    var c := store[id];
    if c.proposal.None? {
      WrittenOne(store, changes[0]);
      CloseKeepsInv(store, id, Archived, today);
    } else {
      AcceptProposal(store, id, today);
    }
  }

  lemma AcceptProposal(store: Store, id: string, today: string)
    requires Inv(store) && Prepare(store, id, today).Accepted? && store[id].proposal.Some? && CandidateShaped(store[id])
    ensures Inv(Written(store, Prepare(store, id, today).changes))
  {
    hide Inv; hide MergeUnique; hide Written; hide SameZone; hide MoveAllowed;
    var changes := Prepare(store, id, today).changes;
    var p := store[id].proposal.value;
    if p.requested == ContextTransition {
      WrittenThree(store, changes[0], changes[1], changes[2]);
      TransitionKeepsInv(store, id, today);
    } else if p.action == Add {
      WrittenOne(store, changes[0]);
      CloseKeepsInv(store, id, Active, today);
    } else if p.requested == Merge || p.requested == Support {
      ActiveTarget(store, p);
      WrittenTwo(store, changes[0], changes[1]);
      SupportKeepsInv(store, id, p.target.value, MergeUnique(store[p.target.value].refs, store[id].refs), today);
    } else if Replaces(p) {
      WrittenTwo(store, changes[0], changes[1]);
      ReplaceKeepsInv(store, id, today);
    } else {
      WrittenOne(store, changes[0]);
      CloseKeepsInv(store, id, if p.action == ReviewRequired then Conflicted else Archived, today);
    }
  }

  lemma ProposeKeepsInv(store: Store, id: string, r: Record)
    requires Inv(store) && ProposalOk(store, id, r)
    ensures Inv(store[id := r])
  {
    assert RecordShaped(r);
    hide Inv; hide RecordShaped;
    NewKeepsInv(store, id, r);
  }

  lemma StepKeepsInv(store: Store, op: Op)
    requires Inv(store)
    ensures Inv(After(store, op))
  {
    hide Inv; hide Written; hide Prepare; hide ProposalOk; hide TransitionsOk;
    match op {
      case Propose(id, r) => if ProposalOk(store, id, r) { ProposeKeepsInv(store, id, r); }
      case Accept(id, today, valid) =>
        if AcceptOutcome(store, id, today, valid).Accepted? { AcceptKeepsInv(store, id, today); }
      case Reject(id, today) => if IsCandidate(store, id) { CloseKeepsInv(store, id, Archived, today); }
      case Conflict(id, today) =>
        if IsCandidate(store, id) && ConflictOk(store, id) { CloseKeepsInv(store, id, Conflicted, today); }
      case Idle =>
    }
  }

  lemma FreshInv(store: Store)
    requires Fresh(store)
    ensures Inv(store)
  {
    var rank: map<string, nat> := Zeros(store.Keys);
    assert Ranked(store, rank, 0);
  }

  ghost function Zeros(keys: set<string>): (r: map<string, nat>)
    ensures r.Keys == keys && forall k :: k in keys ==> r[k] == 0
  {
    if keys == {} then map[]
    else
      var k :| k in keys;
      Zeros(keys - {k})[k := 0]
  }

  /** Symmetric, acyclic, at most one successor: after every run from a store without links. */
  lemma {:induction false} RunInv(store: Store, ops: seq<Op>)
    requires Fresh(store)
    ensures Inv(Exec(store, ops))
    decreases |ops|
  {
    hide Inv; hide After; hide Fresh;
    if ops == [] {
      FreshInv(store);
    } else {
      RunInv(store, ops[..|ops| - 1]);
      StepKeepsInv(Exec(store, ops[..|ops| - 1]), ops[|ops| - 1]);
    }
  }

  // ----- where the links lead -----

  /** A walk along superseded_by. */
  ghost predicate Walk(store: Store, p: seq<string>) {
    && p != [] && (forall i :: 0 <= i < |p| ==> p[i] in store)
    && forall i :: 0 <= i < |p| - 1 ==> p[i + 1] in store[p[i]].supersededBy
  }

  lemma {:induction false} WalkClimbs(store: Store, p: seq<string>, rank: map<string, nat>, bound: nat, i: nat, j: nat)
    requires Ranked(store, rank, bound) && Walk(store, p) && i < j < |p|
    ensures rank[p[i]] < rank[p[j]]
    decreases j - i
  {
    assert p[j] in store[p[j - 1]].supersededBy;
    if i < j - 1 { WalkClimbs(store, p, rank, bound, i, j - 1); }
  }

  /** No walk comes back to where it was. */
  lemma NoCycle(store: Store, p: seq<string>, i: nat, j: nat)
    requires Acyclic(store) && Walk(store, p) && i < j < |p|
    ensures p[i] != p[j]
  {
    var rank, bound :| Ranked(store, rank, bound);
    WalkClimbs(store, p, rank, bound, i, j);
  }

  /** From every superseded record the walk goes on to an active one. */
  lemma {:induction false} ClimbToActive(store: Store, a: string, rank: map<string, nat>, bound: nat)
      returns (p: seq<string>)
    requires Symmetric(store) && Shaped(store) && Ranked(store, rank, bound)
    requires a in store && (store[a].status == Active || store[a].supersededBy != [])
    ensures Walk(store, p) && p[0] == a && store[p[|p| - 1]].status == Active
    decreases bound - rank[a]
  {
    if store[a].status == Active {
      p := [a];
    } else {
      var b := store[a].supersededBy[0];
      assert b in store[a].supersededBy;
      assert RecordShaped(store[b]);
      var rest := ClimbToActive(store, b, rank, bound);
      p := [a] + rest;
      assert forall i :: 1 <= i < |p| ==> p[i] == rest[i - 1];
    }
  }

  /** In every reachable store, following superseded_by from a superseded record ends at an active record. */
  lemma EndsActive(store: Store, ops: seq<Op>, a: string) returns (p: seq<string>)
    requires Fresh(store) && a in Exec(store, ops) && Exec(store, ops)[a].supersededBy != []
    ensures Walk(Exec(store, ops), p) && p[0] == a && Exec(store, ops)[p[|p| - 1]].status == Active
  {
    RunInv(store, ops);
    var now := Exec(store, ops);
    var rank, bound :| Ranked(now, rank, bound);
    p := ClimbToActive(now, a, rank, bound);
  }

  /** ... and there is only one way to go, since nothing is superseded twice. */
  lemma SupersededOnce(store: Store, ops: seq<Op>, a: string)
    requires Fresh(store) && a in Exec(store, ops)
    ensures |Exec(store, ops)[a].supersededBy| <= 1
    ensures Exec(store, ops)[a].supersededBy != [] ==> Exec(store, ops)[a].status == Deprecated
  {
    RunInv(store, ops);
    assert RecordShaped(Exec(store, ops)[a]);
  }

  // ----- states only move along the lifecycle -----

  ghost predicate Moves(a: Store, b: Store) {
    forall x :: x in a ==> x in b && (b[x].status == a[x].status || CanTransition(a[x].status, b[x].status))
  }

  lemma {:induction false} WrittenAt(store: Store, changes: seq<Change>, x: string)
    requires x in store
    ensures x in Written(store, changes)
    ensures Written(store, changes)[x] == store[x] || exists i ::
        0 <= i < |changes| && changes[i].id == x && Written(store, changes)[x] == changes[i].record
    decreases |changes|
  {
    if changes != [] {
      var n := |changes| - 1;
      WrittenAt(store, changes[..n], x);
      if changes[n].id == x {
        assert Written(store, changes)[x] == changes[n].record;
      } else if Written(store, changes)[x] != store[x] {
        var i :| 0 <= i < n && changes[..n][i].id == x && Written(store, changes[..n])[x] == changes[..n][i].record;
        assert changes[i].id == x;
      }
    }
  }

  lemma AcceptMoves(store: Store, changes: seq<Change>)
    requires TransitionsOk(store, changes)
    ensures Moves(store, Written(store, changes))
  {
    hide Written;
    forall x | x in store
      ensures x in Written(store, changes)
      ensures var s := Written(store, changes)[x].status; s == store[x].status || CanTransition(store[x].status, s)
    {
      WrittenAt(store, changes, x);
    }
  }

  lemma StepMoves(store: Store, op: Op)
    ensures Moves(store, After(store, op))
  {
    hide Written; hide Prepare; hide TransitionsOk;
    if op.Accept? && AcceptOutcome(store, op.id, op.today, op.valid).Accepted? {
      AcceptMoves(store, AcceptOutcome(store, op.id, op.today, op.valid).changes);
    }
  }

  /** A deprecated, archived or conflicted record never becomes active again, whatever is proposed or accepted. */
  lemma {:induction false} DeadIsForever(store: Store, ops: seq<Op>, x: string)
    requires x in store && Dead(store[x].status)
    ensures x in Exec(store, ops) && Exec(store, ops)[x].status == store[x].status
    decreases |ops|
  {
    hide After;
    if ops != [] {
      var before := Exec(store, ops[..|ops| - 1]);
      DeadIsForever(store, ops[..|ops| - 1], x);
      StepMoves(before, ops[|ops| - 1]);
    }
  }

  // ----- competing proposals -----

  /** A proposal that wants to replace or change a target. */
  predicate Bids(store: Store, id: string)
    requires id in store
  {
    && store[id].proposal.Some?
    && Replaces(store[id].proposal.value) && store[id].proposal.value.target.Some?
  }

  /** One that retires its target when it is accepted: a plain replacement or a context transition. */
  predicate Retires(store: Store, id: string)
    requires id in store
  {
    Bids(store, id) && store[id].proposal.value.requested in {Plain, ContextTransition}
  }

  /** Whatever acceptance writes is no candidate. */
  lemma ChangesAreClosed(store: Store, id: string, today: string)
    requires Inv(store) && Prepare(store, id, today).Accepted?
    ensures forall k :: 0 <= k < |Prepare(store, id, today).changes| ==>
              Prepare(store, id, today).changes[k].record.status != Candidate
  {
    CandidateFacts(store, id);
    hide Inv; hide MergeUnique; hide SameZone; hide MoveAllowed;
  }

  /** A record that is a candidate, or has been one: as it was, or closed for ever. */
  ghost predicate KeptOrClosed(store: Store, x: string, r: Record) {
    x in store && (store[x] == r || store[x].status !in {Raw, Candidate})
  }

  lemma StepKeptOrClosed(store: Store, op: Op, x: string, r: Record)
    requires Inv(store) && KeptOrClosed(store, x, r) && r.status == Candidate
    ensures KeptOrClosed(After(store, op), x, r)
  {
    StepMoves(store, op);
    if store[x] == r {
      hide Inv; hide Written; hide Prepare; hide TransitionsOk; hide ProposalOk; hide ConflictOk; hide Moves;
      if op.Accept? && AcceptOutcome(store, op.id, op.today, op.valid).Accepted? {
        ChangesAreClosed(store, op.id, op.today);
        WrittenAt(store, Prepare(store, op.id, op.today).changes, x);
      }
    } else {
      hide Inv; hide After;
    }
  }

  lemma {:induction false} RunKeptOrClosed(store: Store, ops: seq<Op>, x: string)
    requires Inv(store) && IsCandidate(store, x)
    ensures Inv(Exec(store, ops)) && KeptOrClosed(Exec(store, ops), x, store[x])
    decreases |ops|
  {
    hide Inv; hide After;
    if ops != [] {
      var before := Exec(store, ops[..|ops| - 1]);
      RunKeptOrClosed(store, ops[..|ops| - 1], x);
      StepKeepsInv(before, ops[|ops| - 1]);
      StepKeptOrClosed(before, ops[|ops| - 1], x, store[x]);
    }
  }

  /**
   Once one proposal has retired a target, every other proposal bound to that target, of whatever kind, is refused for
   ever.
   */
  lemma CompetitorIsStale(store: Store, winner: string, loser: string, today: string, valid: bool, ops: seq<Op>,
                          later: string, again: bool)
    requires Inv(store) && winner != loser && IsCandidate(store, winner) && IsCandidate(store, loser)
    requires Retires(store, winner) && Bids(store, loser)
    requires store[winner].proposal.value.target == store[loser].proposal.value.target
    requires AcceptOutcome(store, winner, today, valid).Accepted?
    ensures AcceptOutcome(Exec(After(store, Accept(winner, today, valid)), ops), loser, later, again).Refused?
  {
    var after := After(store, Accept(winner, today, valid));
    var t := store[winner].proposal.value.target.value;
    CandidateFacts(store, loser);
    WinnerRetires(store, winner, today, valid, loser);
    DeadIsForever(after, ops, t);
    StepKeepsInv(store, Accept(winner, today, valid));
    RunKeptOrClosed(after, ops, loser);
    var now := Exec(after, ops);
    hide Exec; hide After; hide Inv;
    if now[loser] == store[loser] { LoserIsStale(now, loser, later, again, t); }
  }

  lemma WinnerRetires(store: Store, winner: string, today: string, valid: bool, loser: string)
    requires Inv(store) && IsCandidate(store, winner) && IsCandidate(store, loser) && winner != loser
        && Retires(store, winner)
    requires AcceptOutcome(store, winner, today, valid).Accepted?
    ensures var now, t := After(store, Accept(winner, today, valid)), store[winner].proposal.value.target.value;
            && t in store && t in now && now[t].status == Deprecated
            && loser in now && now[loser] == store[loser]
  {
    var p := store[winner].proposal.value;
    CandidateFacts(store, winner);
    ActiveTarget(store, p);
    var changes := Prepare(store, winner, today).changes;
    hide Inv; hide MergeUnique; hide Written; hide SameZone; hide MoveAllowed;
    if p.requested == ContextTransition {
      WrittenThree(store, changes[0], changes[1], changes[2]);
    } else {
      WrittenTwo(store, changes[0], changes[1]);
    }
  }

  lemma LoserIsStale(store: Store, loser: string, today: string, valid: bool, t: string)
    requires IsCandidate(store, loser) && Bids(store, loser) && store[loser].proposal.value.target == Some(t)
    requires t in store && store[t].status == Deprecated && store[loser].proposal.value.expectedStatus == Active
    ensures AcceptOutcome(store, loser, today, valid).Refused?
  {
  }
}
