/** The inbox table as the database holds it. */
module BridgeInbox {
  import opened Wrappers
  import opened BridgeTables
  import opened BridgeMachine

  predicate FirstWith(rows: seq<Row>, k: nat, id: string)
    requires k < |rows|
  {
    rows[k].event.id == id && forall j :: 0 <= j < k ==> rows[j].event.id != id
  }

  /** What becomes of an event whose identifier is in the inbox, with this event and status. */
  function KnownOutcome(current: Event, status: Status, e: Event): Outcome {
    if !(current.source == e.source && current.account == e.account && current.conversation == e.conversation
         && current.branch == e.branch && current.kind == e.kind && current.messageId == e.messageId
         && current.parent == e.parent && current.version == e.version && current.role == e.role) then IdentityChanged
    else if current.content == e.content && !(e.isFinal && !current.isFinal) then Duplicate
    else if !current.isFinal && !status.Processing? && !status.Processed? && !status.Rejected? then Updated
    else Immutable
  }

  /** Queued, and if a message with a parent, behind a processed event of that message in the conversation. */
  predicate Due(rows: seq<Row>, k: nat)
    requires k < |rows|
  {
    var e := rows[k].event;
    && rows[k].status == Queued
    && (e.kind == Message && e.parent.Some? ==>
          exists j :: && 0 <= j < |rows| && rows[j].status == Processed && rows[j].event.messageId == e.parent.value
                      && rows[j].event.source == e.source && rows[j].event.account == e.account
                      && rows[j].event.conversation == e.conversation && rows[j].event.branch == e.branch)
  }

  lemma DueIsClaimable(rows: seq<Row>, k: nat)
    requires k < |rows|
    ensures Due(rows, k) <==> Claimable(rows, k)
  {
    var e := rows[k].event;
    if e.kind == Message && e.parent.Some? {
      if Due(rows, k) {
        var j :| && 0 <= j < |rows| && rows[j].status == Processed && rows[j].event.messageId == e.parent.value
                 && rows[j].event.source == e.source && rows[j].event.account == e.account
                 && rows[j].event.conversation == e.conversation && rows[j].event.branch == e.branch;
        assert IsProcessedParent(rows[j], e);
      }
      if ParentProcessed(rows, e) {
        var j :| 0 <= j < |rows| && IsProcessedParent(rows[j], e);
      }
    }
  }

  /** The slot of an event: the columns of the unique constraint. */
  lemma SlotIsByColumns(a: Event, b: Event)
    ensures SameSlot(a, b) <==>
              (a.source, a.account, a.conversation, a.branch, a.kind, a.messageId, a.version) ==
              (b.source, b.account, b.conversation, b.branch, b.kind, b.messageId, b.version)
  {
  }

  class BridgeEventInbox {
    var rows: seq<Row>

    constructor ()
      ensures rows == []
    {
      rows := [];
    }

    method FindRow(id: string) returns (found: Option<nat>)
      ensures found == Find(rows, id)
    {
      var k := 0;
      while k < |rows| && rows[k].event.id != id
        invariant 0 <= k <= |rows| && FindFrom(rows, id, k) == Find(rows, id)
      {
        k := k + 1;
      }
      found := if k < |rows| then Some(k) else None;
    }

    method SlotTaken(e: Event) returns (taken: bool)
      ensures taken <==> exists k :: 0 <= k < |rows| && SameSlot(rows[k].event, e)
    {
      for k := 0 to |rows|
        invariant forall j :: 0 <= j < k ==> !SameSlot(rows[j].event, e)
      {
        if SameSlot(rows[k].event, e) { return true; }
      }
      return false;
    }

    /** ingest: insert, update, recognise a duplicate, or refuse. */
    method IngestEvent(e: Event) returns (outcome: Outcome)
      modifies this
      ensures outcome == IngestOutcome(old(rows), e) && rows == Ingested(old(rows), e)
      ensures outcome !in {Inserted, Updated} ==> rows == old(rows)
      // a new identifier
      ensures outcome in {Inserted, IdentityExists} <==> forall k :: 0 <= k < |old(rows)| ==>
          old(rows)[k].event.id != e.id
      ensures outcome in {Inserted, IdentityExists} ==>
                (outcome == IdentityExists <==> exists k :: 0 <= k < |old(rows)| && SameSlot(old(rows)[k].event, e))
      ensures outcome == Inserted ==> rows == old(rows) + [Row(e, if e.isFinal then Queued else Captured, 0, 0)]
      // a known one
      ensures forall k :: 0 <= k < |old(rows)| && FirstWith(old(rows), k, e.id) ==>
                outcome == KnownOutcome(old(rows)[k].event, old(rows)[k].status, e)
      ensures outcome == Updated ==>
                exists k :: && 0 <= k < |old(rows)| && FirstWith(old(rows), k, e.id)
                            && rows == old(rows)[k := Row(e, if e.isFinal then Queued else Captured,
                                                          old(rows)[k].attempts, old(rows)[k].recoveries)]
    {
      var found := FindRow(e.id);
      ghost var was := rows;
      forall k | 0 <= k < |was| && FirstWith(was, k, e.id) ensures found == Some(k) {}
      if found.Some? { assert FirstWith(was, found.value, e.id); }
      if found.None? {
        var taken := SlotTaken(e);
        if taken { return IdentityExists; }
        rows := rows + [Row(e, Waiting(e), 0, 0)];
        return Inserted;
      }
      var current := rows[found.value];
      assert forall k :: 0 <= k < |was| && FirstWith(was, k, e.id) ==> was[k] == current;
      if !SameIdentity(current.event, e) { return IdentityChanged; }
      if current.event.content == e.content && (current.event.isFinal || !e.isFinal) { return Duplicate; }
      if current.event.isFinal || current.status in {Processing, Processed, Rejected} { return Immutable; }
      rows := rows[found.value := current.(event := e, status := Waiting(e))];
      return Updated;
    }

    method ParentIsProcessed(e: Event) returns (ok: bool)
      ensures ok == ParentProcessed(rows, e)
    {
      if e.kind != Message || e.parent.None? { return true; }
      for k := 0 to |rows|
        invariant forall j :: 0 <= j < k ==> !IsProcessedParent(rows[j], e)
      {
        if IsProcessedParent(rows[k], e) { return true; }
      }
      return false;
    }

    /** claim_next: the oldest queued event whose parent is through. */
    method ClaimNext() returns (e: Option<Event>)
      modifies this
      ensures var k := ClaimFrom(old(rows), 0);
              if k.None? then e == None && rows == old(rows)
              else e == Some(old(rows)[k.value].event) && rows == ClaimedRows(old(rows), k.value)
      ensures e == None <==> forall k :: 0 <= k < |old(rows)| ==> !Due(old(rows), k)
      ensures e.Some? ==>
                exists k :: && 0 <= k < |old(rows)| && Due(old(rows), k)
                    && (forall j :: 0 <= j < k ==> !Due(old(rows), j))
                            && e.value == old(rows)[k].event
                            && rows == old(rows)[k := Row(e.value, Processing, old(rows)[k].attempts + 1,
                                                          old(rows)[k].recoveries)]
    {
      for k := 0 to |rows|
        invariant rows == old(rows) && ClaimFrom(rows, k) == ClaimFrom(rows, 0)
        invariant forall j :: 0 <= j < k ==> !Due(rows, j)
      {
        DueIsClaimable(rows, k);
        if rows[k].status == Queued {
          var ok := ParentIsProcessed(rows[k].event);
          if ok {
            e := Some(rows[k].event);
            rows := rows[k := rows[k].(status := Processing, attempts := rows[k].attempts + 1)];
            return;
          }
        }
      }
      return None;
    }

    /** mark_processed; refuses a row that is not in process. */
    method MarkAsProcessed(id: string) returns (ok: bool)
      modifies this
      ensures ok == IsProcessing(old(rows), id)
      ensures rows == if ok then SetStatus(old(rows), id, Processed) else old(rows)
      ensures ok <==> exists k ::
          0 <= k < |old(rows)| && FirstWith(old(rows), k, id) && old(rows)[k].status == Processing
      ensures ok ==> exists k :: && 0 <= k < |old(rows)| && FirstWith(old(rows), k, id)
                                 && rows == old(rows)[k := old(rows)[k].(status := Processed)]
    {
      var found := FindRow(id);
      if found.Some? { assert FirstWith(rows, found.value, id); }
      if found.None? || rows[found.value].status != Processing { return false; }
      rows := rows[found.value := rows[found.value].(status := Processed)];
      return true;
    }

    /** mark_failed: returns the new status, or nothing where the original raises. */
    method MarkFailed(id: string, retry: bool) returns (status: Option<Status>)
      modifies this
      ensures status == if IsProcessing(old(rows), id) then Some(Verdict(old(rows), id, retry)) else None
      ensures rows == if status.Some? then SetStatus(old(rows), id, status.value) else old(rows)
      ensures status.Some? <==>
                exists k :: 0 <= k < |old(rows)| && FirstWith(old(rows), k, id) && old(rows)[k].status == Processing
      ensures status.Some? ==>
                exists k :: && 0 <= k < |old(rows)| && FirstWith(old(rows), k, id)
                            && status.value == (if retry && old(rows)[k].attempts < 5 then Queued else Failed)
                            && rows == old(rows)[k := old(rows)[k].(status := status.value)]
    {
      var found := FindRow(id);
      if found.Some? { assert FirstWith(rows, found.value, id); }
      if found.None? || rows[found.value].status != Processing { return None; }
      var next := if retry && rows[found.value].attempts < MAX_ATTEMPTS then Queued else Failed;
      rows := rows[found.value := rows[found.value].(status := next)];
      return Some(next);
    }

    /** recover_processing. */
    method RecoverProcessing() returns (count: nat)
      modifies this
      ensures rows == Recovered(old(rows))
      ensures |rows| == |old(rows)|
      ensures forall k :: 0 <= k < |rows| && old(rows)[k].status != Processing ==> rows[k] == old(rows)[k]
      ensures forall k :: 0 <= k < |rows| && old(rows)[k].status == Processing ==>
                rows[k] == Row(old(rows)[k].event, Queued, old(rows)[k].attempts, old(rows)[k].recoveries + 1)
      ensures count == |set k | 0 <= k < |old(rows)| && old(rows)[k].status == Processing|
    {
      count := 0;
      ghost var before := rows;
      ghost var hits: set<int> := {};
      for k := 0 to |rows|
        invariant |rows| == |before| && count == |hits|
        invariant forall j :: 0 <= j < |rows| ==> rows[j] == if j < k then Requeued(before[j]) else before[j]
        invariant hits == set j | 0 <= j < k && before[j].status == Processing
      {
        if rows[k].status == Processing {
          count := count + 1;
          hits := hits + {k};
        }
        rows := rows[k := Requeued(rows[k])];
      }
    }
  }
}
