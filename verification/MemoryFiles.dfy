/** The memory files and the review methods that rewrite them. */
module MemoryFiles {
  import opened Wrappers
  import opened Lifecycle
  import opened Supersession
  import opened SupersessionEffects

  class MemoryFiles {
    var records: Store

    constructor (records: Store)
      ensures this.records == records
    {
      this.records := records;
    }

    /** _apply_candidate_once and context_transition: writes the candidate, bound to its target as it is now. */
    method ProposeCandidate(id: string, r: Record) returns (ok: bool)
      modifies this
      ensures ok == ProposalOk(old(records), id, r) && records == After(old(records), Propose(id, r))
      ensures records == if ok then old(records)[id := r] else old(records)
    {
      ok := ProposalOk(records, id, r);
      if ok { records := records[id := r]; }
    }

    /** The changes of an accepted replacement: the target is retired, the candidate takes its place. */
    method PrepareChanges(id: string, today: string) returns (review: Review)
      ensures review == Prepare(records, id, today)
    {
      if !IsCandidate(records, id) { return Refused(NoCandidate); }
      var c := records[id];
      if c.proposal.None? { return Accepted([Change(id, Reviewed(c, Archived, today))]); }
      var p := c.proposal.value;
      var target := if p.target.Some? && p.target.value in records then Some(records[p.target.value]) else None;
      if p.requested == ContextTransition {
        if target.None? { return Refused(StaleTarget); }
        if !PlannedOk(records, c, p) { return Refused(InvalidTransition); }
      } else if target.Some? && target.value.zone != c.zone {
        return Refused(InvalidTransition);
      }
      if Replaces(p) {
        if target.None? { return Refused(StaleTarget); }
        if target.value.status != p.expectedStatus || p.expected != target { return Refused(StaleTarget); }
      }
      var expected: seq<Change> := [];
      if p.requested == ContextTransition {
        var n := p.planned.value;
        if n.id in records { return Refused(StaleTarget); }
        expected := expected + [Change(p.target.value, Retired(target.value, n.id, today))];
        expected := expected + [Change(n.id,
            n.record.(supersedes := MergeUnique(n.record.supersedes, [p.target.value])))];
        expected := expected + [Change(id, Reviewed(c, Archived, today))];
      } else if p.action == Add {
        expected := [Change(id, Reviewed(c, Active, today))];
      } else if p.requested == Merge || p.requested == Support {
        if target.None? { return Refused(StaleTarget); }
        expected := expected + [Change(p.target.value,
            target.value.(refs := MergeUnique(target.value.refs, c.refs), updated := today))];
        expected := expected + [Change(id, Reviewed(c, Archived, today))];
      } else if Replaces(p) {
        expected := expected + [Change(p.target.value, Retired(target.value, id, today))];
        expected := expected + [Change(id,
            Reviewed(c, Active, today).(supersedes := MergeUnique(c.supersedes, [p.target.value])))];
      } else if p.action == ReviewRequired {
        expected := [Change(id, Reviewed(c, Conflicted, today))];
      } else {
        expected := [Change(id, Reviewed(c, Archived, today))];
      }
      return Accepted(expected);
    }

    method CheckTransitions(changes: seq<Change>) returns (ok: bool)
      ensures ok == TransitionsOk(records, changes)
      ensures ok <==> forall k :: 0 <= k < |changes| ==>
                        var s := if changes[k].id in records then records[changes[k].id].status else Candidate;
                        var t := changes[k].record.status;
                        || s == t || (s == Raw && t == Candidate)
                        || (s == Candidate && (t == Active || t == Archived || t == Conflicted))
                        || (s == Active && (t == Deprecated || t == Conflicted || t == Archived))
    {
      for k := 0 to |changes|
        invariant TransitionsOk(records, changes[..k])
      {
        var source := if changes[k].id in records then records[changes[k].id].status else Candidate;
        if source != changes[k].record.status && !CanTransition(source, changes[k].record.status) {
          return false;
        }
      }
      assert changes[..|changes|] == changes;
      return true;
    }

    method WriteAll(changes: seq<Change>)
      modifies this
      ensures records == Written(old(records), changes)
    {
      for k := 0 to |changes|
        invariant records == Written(old(records), changes[..k])
      {
        assert changes[..k + 1][..k] == changes[..k];
        records := records[changes[k].id := changes[k].record];
      }
      assert changes[..|changes|] == changes;
    }

    /** _accept_candidate_impl, when writing the files and refreshing the index go through. */
    method AcceptCandidate(id: string, today: string, valid: bool) returns (review: Review)
      modifies this
      ensures review == AcceptOutcome(old(records), id, today, valid)
      ensures records == After(old(records), Accept(id, today, valid))
      ensures review == Refused(NoCandidate) <==> !(id in old(records) && old(records)[id].status == Candidate)
      ensures review != Refused(NoCandidate) && old(records)[id].proposal.None? ==>
                && review.Accepted? == valid
                && (review.Accepted? ==>
                      records == old(records)[id := old(records)[id].(status := Archived, updated := today)])
      ensures review != Refused(NoCandidate) && old(records)[id].proposal.Some? ==>
                var p := old(records)[id].proposal.value;
                && (review.Accepted? <==> valid && Acceptable(old(records), id, p))
                && (review == Refused(StaleTarget) <==> Stale(old(records), id, p))
                && (review.Accepted? ==> Effect(old(records), records, id, p, today))
      ensures review.Refused? ==> records == old(records)
    {
      if IsCandidate(records, id) && records[id].proposal.Some? {
        AcceptedProposal(records, id, today, valid);
      } else if IsCandidate(records, id) {
        AcceptedBare(records, id, today, valid);
      }
      hide Effect; hide Acceptable; hide Stale; hide Prepare;
      review := PrepareChanges(id, today);
      if review.Refused? { return; }
      var ok := CheckTransitions(review.changes);
      if !ok || !valid { return Refused(InvalidTransition); }
      WriteAll(review.changes);
    }

    /** _reject_candidate_impl. */
    method RejectCandidate(id: string, today: string) returns (ok: bool)
      modifies this
      ensures ok == IsCandidate(old(records), id) && records == After(old(records), Reject(id, today))
      ensures ok <==> id in old(records) && old(records)[id].status == Candidate
      ensures if ok then records == old(records)[id := old(records)[id].(status := Archived, updated := today)]
              else records == old(records)
    {
      ok := IsCandidate(records, id);
      if ok { records := records[id := Reviewed(records[id], Archived, today)]; }
    }

    /** _conflict_candidate_impl, when its project and context references are found. */
    method ConflictCandidate(id: string, today: string) returns (ok: bool)
      modifies this
      ensures ok == (IsCandidate(old(records), id) && ConflictOk(old(records), id))
      ensures records == After(old(records), Conflict(id, today))
      ensures ok <==>
                && id in old(records) && old(records)[id].status == Candidate
                && (old(records)[id].proposal.Some? && old(records)[id].proposal.value.target.Some? ==>
                      var t := old(records)[id].proposal.value.target.value;
                      t in old(records) && old(records)[t].zone == old(records)[id].zone)
      ensures if ok then records == old(records)[id := old(records)[id].(status := Conflicted, updated := today)]
              else records == old(records)
    {
      if !IsCandidate(records, id) { return false; }
      var p := records[id].proposal;
      if p.Some? && p.value.target.Some? {
        var t := p.value.target.value;
        if t !in records || records[t].zone != records[id].zone { return false; }
      }
      records := records[id := Reviewed(records[id], Conflicted, today)];
      return true;
    }
  }
}
