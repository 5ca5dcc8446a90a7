/** Every step of the bridge keeps the invariant; and what follows for whole runs. */
module BridgeSafety {
  import opened Wrappers
  import opened BridgeTables
  import opened BridgeMachine

  // ----- changes of the rows that the worker does not notice -----

  ghost predicate Gentle(a: seq<Row>, b: seq<Row>) {
    && Extends(a, b)
    && (forall k :: 0 <= k < |a| ==> GentleRow(a[k], b[k]))
    && (forall k :: |a| <= k < |b| ==> b[k].status != Processed && forall j :: 0 <= j < |a| ==>
       a[j].event.id != b[k].event.id)
  }

  ghost predicate GentleRow(a: Row, b: Row) {
    && (b.status == Processed ==> a.status == Processed && a.event == b.event)
    && (a.event.isFinal ==>
       b.attempts == a.attempts && b.status == if b.recoveries == a.recoveries then a.status else Queued)
    && (b.recoveries != a.recoveries ==> a.status == Processing)
  }

  lemma IngestIsGentle(rows: seq<Row>, e: Event)
    requires RowsOk(rows) && Honest(e)
    ensures RowsOk(Ingested(rows, e)) && Gentle(rows, Ingested(rows, e))
  {
  }

  lemma RecoverIsGentle(rows: seq<Row>)
    requires RowsOk(rows)
    ensures RowsOk(Recovered(rows)) && Gentle(rows, Recovered(rows))
  {
    var b := Recovered(rows);
    forall k | 0 <= k < |rows| ensures RowOk(b[k]) && RowExtends(rows[k], b[k]) && GentleRow(rows[k], b[k]) {
      assert RowOk(rows[k]) && b[k] == Requeued(rows[k]);
    }
  }

  lemma PresentStays(a: seq<Row>, b: seq<Row>, sessions: map<string, Session>)
    requires Gentle(a, b) && ProcessedPresent(a, sessions)
    ensures ProcessedPresent(b, sessions)
  {
    forall k | 0 <= k < |b| && b[k].status == Processed && b[k].event.kind == Message
        ensures Present(sessions, b[k].event) {
      assert k < |a| && GentleRow(a[k], b[k]);
    }
  }

  lemma HeldStays(a: seq<Row>, b: seq<Row>, e: Event)
    requires Gentle(a, b) && Held(a, e)
    ensures Held(b, e)
  {
    var k :| 0 <= k < |a| && a[k].event == e && a[k].status in {Processing, Queued};
    assert RowExtends(a[k], b[k]) && GentleRow(a[k], b[k]);
  }

  lemma WritingStays(a: seq<Row>, b: seq<Row>, e: Event, status: Status)
    requires RowsOk(a) && Gentle(a, b) && Held(a, e) && WritingOk(a, e, status)
    ensures WritingOk(b, e, status)
  {
    var h :| 0 <= h < |a| && a[h].event == e;
    forall k | 0 <= k < |b| && b[k].event.id == e.id && status == Queued ensures b[k].attempts < MAX_ATTEMPTS {
      if k < |a| { assert RowExtends(a[k], b[k]) && GentleRow(a[k], b[k]); }
    }
  }

  lemma GentleKeepsInv(s: State, rows: seq<Row>)
    requires Inv(s) && RowsOk(rows) && Gentle(s.rows, rows)
    ensures Inv(s.(rows := rows))
  {
    hide RowsOk; hide Gentle; hide LogsOk; hide ProcessedPresent; hide Held; hide WritingOk; hide Extends;
    hide ParentProcessed;
    assert Extends(s.rows, rows) by { GentleExtends(s.rows, rows); }
    LogsStay(s.rows, rows, s.sessions);
    PresentStays(s.rows, rows, s.sessions);
    if !s.worker.Idle? {
      HeldStays(s.rows, rows, s.worker.event);
      ProcessedParentStays(s.rows, rows, s.worker.event);
      if s.worker.Writing? { WritingStays(s.rows, rows, s.worker.event, s.worker.status); }
    }
  }

  lemma GentleExtends(a: seq<Row>, b: seq<Row>)
    requires Gentle(a, b)
    ensures Extends(a, b)
  {
  }

  // ----- the worker's own steps -----

  lemma ClaimKeepsInv(s: State)
    requires Inv(s) && Enabled(s, Claim)
    ensures Inv(After(s, Claim)) && Extends(s.rows, After(s, Claim).rows)
  {
    var k := ClaimFrom(s.rows, 0).value;
    var rows, e := ClaimedRows(s.rows, k), s.rows[k].event;
    assert RowOk(s.rows[k]);
    assert RowsOk(rows) && Extends(s.rows, rows);
    assert Held(rows, e) by { assert rows[k].event == e; }
    hide RowsOk; hide LogsOk; hide Extends; hide ParentProcessed; hide Held;
    LogsStay(s.rows, rows, s.sessions);
    ProcessedParentStays(s.rows, rows, e);
  }

  lemma AlreadyIsPresent(rows: seq<Row>, name: string, log: seq<Entry>, e: Event)
    requires RowsOk(rows) && LogOk(rows, name, log) && Known(rows, e) && Already(log, e.id)
    ensures EntryOf(e) in log && e.kind == Message
  {
    var j :| 0 <= j < |log| && Tagged(log[j], e.id);
    assert EntryOk(rows, name, log, j);
    var e' :| Known(rows, e') && e'.kind == Message && log[j] == EntryOf(e');
    var k' :| 0 <= k' < |rows| && rows[k'].event == e';
    var k :| 0 <= k < |rows| && rows[k].event == e;
    assert RowOk(rows[k']);
    TagOf(e');
  }

  lemma HeldIsKnown(rows: seq<Row>, e: Event)
    requires Held(rows, e)
    ensures Known(rows, e)
  {
  }

  lemma OpenKeepsInv(s: State, scope: Scope)
    requires Inv(s) && Enabled(s, Open(scope))
    ensures Inv(After(s, Open(scope)))
  {
    hide RowsOk; hide ParentProcessed; hide Held; hide WritingOk; hide EntryOf; hide EntryOk; hide Already;
    var e := s.worker.event;
    var sessions := Opened(s.sessions, e, scope);
    var log := sessions[SessionId(e)].log;
    assert LogsOk(s.rows, sessions);
    assert ProcessedPresent(s.rows, sessions);
    hide LogOk; hide SessionId;
    if e.kind == Message && Already(log, e.id) {
      HeldIsKnown(s.rows, e);
      AlreadyIsPresent(s.rows, SessionId(e), log, e);
    }
  }

  lemma EntryStays(rows: seq<Row>, name: string, log: seq<Entry>, entry: Entry, j: nat)
    requires j < |log| && EntryOk(rows, name, log, j)
    ensures EntryOk(rows, name, log + [entry], j)
  {
    var e :| Known(rows, e) && e.kind == Message && SessionId(e) == name && log[j] == EntryOf(e)
      && (e.parent.Some? ==> ParentBefore(rows, log, j, e));
    assert (log + [entry])[..j] == log[..j];
    if e.parent.Some? { assert ParentBefore(rows, log + [entry], j, e); }
  }

  lemma SamePlaceSameSession(a: Event, b: Event)
    requires SamePlace(a, b)
    ensures SessionId(a) == SessionId(b)
  {
  }

  lemma NewEntryOk(s: State, e: Event)
    requires Inv(s) && Known(s.rows, e) && e.kind == Message && ParentProcessed(s.rows, e) && SessionId(e) in s.sessions
    ensures var log := s.sessions[SessionId(e)].log; EntryOk(s.rows, SessionId(e), log + [EntryOf(e)], |log|)
  {
    hide RowsOk; hide LogsOk; hide WorkerOk; hide Known; hide EntryOf; hide SessionId;
    var log := s.sessions[SessionId(e)].log;
    var more := log + [EntryOf(e)];
    assert more[..|log|] == log;
    if e.parent.Some? {
      var k :| 0 <= k < |s.rows| && IsProcessedParent(s.rows[k], e);
      SamePlaceSameSession(s.rows[k].event, e);
      assert ParentBefore(s.rows, more, |log|, e);
    }
  }

  lemma AppendedLogOk(s: State, e: Event)
    requires Inv(s) && Known(s.rows, e) && e.kind == Message && ParentProcessed(s.rows, e) && SessionId(e) in s.sessions
    requires !Already(s.sessions[SessionId(e)].log, e.id) && Honest(e)
    ensures LogOk(s.rows, SessionId(e), s.sessions[SessionId(e)].log + [EntryOf(e)])
  {
    var log := s.sessions[SessionId(e)].log;
    var more := log + [EntryOf(e)];
    TagOf(e);
    NewEntryOk(s, e);
    assert LogOk(s.rows, SessionId(e), log);
    assert forall i :: 0 <= i < |log| ==> !Tagged(log[i], e.id);
    hide EntryOf; hide SessionId; hide Inv; hide Known; hide ParentProcessed; hide EntryOk; hide Tagged;
    forall j | 0 <= j < |more| ensures EntryOk(s.rows, SessionId(e), more, j) {
      if j < |log| { EntryStays(s.rows, SessionId(e), log, EntryOf(e), j); }
    }
    forall i, j, id | 0 <= i < j < |more| && Tagged(more[i], id) ensures !Tagged(more[j], id) {
      if j == |log| { assert more[j] == EntryOf(e) && more[i] == log[i]; }
    }
  }

  lemma HonestHeld(rows: seq<Row>, e: Event)
    requires RowsOk(rows) && Held(rows, e)
    ensures Honest(e)
  {
    var k :| 0 <= k < |rows| && rows[k].event == e;
    assert RowOk(rows[k]);
  }

  lemma AppendKeepsInv(s: State)
    requires Inv(s) && Enabled(s, Append)
    ensures Inv(After(s, Append))
  {
    var e := s.worker.event;
    HonestHeld(s.rows, e);
    HeldIsKnown(s.rows, e);
    AppendedLogOk(s, e);
    var name := SessionId(e);
    hide RowsOk; hide ParentProcessed; hide Held; hide EntryOf; hide SessionId; hide LogOk;
    var sessions := Appended(s.sessions, e);
    assert sessions[name].log == s.sessions[name].log + [EntryOf(e)];
    assert forall x :: x in s.sessions && x != name ==> sessions[x] == s.sessions[x];
    assert LogsOk(s.rows, sessions);
    assert Present(sessions, e);
    forall k | 0 <= k < |s.rows| && s.rows[k].status == Processed && s.rows[k].event.kind == Message
      ensures Present(sessions, s.rows[k].event)
    {
      assert Present(s.sessions, s.rows[k].event);
    }
  }

  /** Writing a new status over the worker's row. */
  lemma SetStatusRows(rows: seq<Row>, e: Event, status: Status)
    requires RowsOk(rows) && Held(rows, e) && status in {Queued, Failed, Processed}
    requires status == Queued ==> forall k :: 0 <= k < |rows| && rows[k].event.id == e.id ==>
        rows[k].attempts < MAX_ATTEMPTS
    ensures RowsOk(SetStatus(rows, e.id, status)) && Extends(rows, SetStatus(rows, e.id, status))
    ensures forall k :: 0 <= k < |rows| ==>
      SetStatus(rows, e.id, status)[k] == if rows[k].event.id == e.id
          then rows[k].(event := e, status := status) else rows[k]
  {
    var h :| 0 <= h < |rows| && rows[h].event == e && rows[h].status in {Processing, Queued};
    var f := Find(rows, e.id);
    assert f == Some(h);
    assert RowOk(rows[h]);
  }

  lemma SettleKeepsInv(s: State, status: Status)
    requires Inv(s) && !s.worker.Idle? && status in {Queued, Failed, Processed}
    requires status == Queued ==>
               forall k :: 0 <= k < |s.rows| && s.rows[k].event.id == s.worker.event.id ==>
                   s.rows[k].attempts < MAX_ATTEMPTS
    requires status == Processed && s.worker.event.kind == Message ==> Present(s.sessions, s.worker.event)
    ensures Inv(s.(rows := SetStatus(s.rows, s.worker.event.id, status), worker := Idle))
    ensures Extends(s.rows, SetStatus(s.rows, s.worker.event.id, status))
  {
    hide LogsOk; hide Present;
    var e := s.worker.event;
    var rows := SetStatus(s.rows, e.id, status);
    SetStatusRows(s.rows, e, status);
    hide RowsOk; hide Extends; hide SetStatus; hide Held; hide ParentProcessed;
    LogsStay(s.rows, rows, s.sessions);
    SetStatusLength(s.rows, e.id, status);
    forall k | 0 <= k < |rows| && rows[k].status == Processed && rows[k].event.kind == Message
      ensures Present(s.sessions, rows[k].event)
    {
      if s.rows[k].event.id != e.id { assert rows[k] == s.rows[k]; }
    }
  }

  lemma SetStatusLength(rows: seq<Row>, id: string, status: Status)
    ensures |SetStatus(rows, id, status)| == |rows|
  {
  }

  lemma MarkProcessedKeepsInv(s: State)
    requires Inv(s) && Enabled(s, MarkProcessed)
    ensures Inv(After(s, MarkProcessed)) && Extends(s.rows, After(s, MarkProcessed).rows)
  {
    hide RowsOk; hide LogsOk; hide ProcessedPresent; hide Held; hide ParentProcessed; hide SetStatus;
    SettleKeepsInv(s, Processed);
    ExtendsSelf(s.rows);
  }

  lemma ExtendsSelf(rows: seq<Row>)
    ensures Extends(rows, rows)
  {
  }

  lemma WriteStatusKeepsInv(s: State)
    requires Inv(s) && Enabled(s, WriteStatus)
    ensures Inv(After(s, WriteStatus)) && Extends(s.rows, After(s, WriteStatus).rows)
  {
    hide RowsOk; hide LogsOk; hide ProcessedPresent; hide Held; hide ParentProcessed; hide SetStatus;
    SettleKeepsInv(s, s.worker.status);
  }

  lemma ReadAttemptsKeepsInv(s: State)
    requires Inv(s) && Enabled(s, ReadAttempts)
    ensures Inv(After(s, ReadAttempts))
  {
    hide LogsOk; hide ProcessedPresent; hide Held; hide ParentProcessed;
    var e := s.worker.event;
    var f := Find(s.rows, e.id);
    if f.Some? {
      assert forall k :: 0 <= k < |s.rows| && s.rows[k].event.id == e.id ==> k == f.value;
    }
  }

  // ----- all steps -----

  lemma NextKeepsInv(s: State, step: Step)
    requires Inv(s) && Enabled(s, step) && (step.Ingest? ==> Honest(step.incoming))
    ensures Inv(After(s, step)) && Extends(s.rows, After(s, step).rows)
  {
    ExtendsSelf(s.rows);
    match step {
      case Ingest(e) =>
        hide *;
        assert RowsOk(s.rows) by { InvRows(s); }
        IngestIsGentle(s.rows, e);
        GentleExtends(s.rows, Ingested(s.rows, e));
        GentleKeepsInv(s, Ingested(s.rows, e));
        AfterIngest(s, e);
      case Recover =>
        hide *;
        assert RowsOk(s.rows) by { InvRows(s); }
        RecoverIsGentle(s.rows);
        GentleExtends(s.rows, Recovered(s.rows));
        GentleKeepsInv(s, Recovered(s.rows));
        AfterRecover(s);
      case Claim => ClaimKeepsInv(s);
      case Open(scope) =>
        OpenKeepsInv(s, scope);
        hide Inv; hide Extends;
      case Append =>
        AppendKeepsInv(s);
        hide Inv; hide Extends;
      case MarkProcessed => MarkProcessedKeepsInv(s);
      case ReadAttempts =>
        ReadAttemptsKeepsInv(s);
        hide Inv; hide Extends;
      case WriteStatus => WriteStatusKeepsInv(s);
      case Review => PlainKeepsInv(s, step);
      case Raise(retry) => PlainKeepsInv(s, step);
      case Crash => PlainKeepsInv(s, step);
    }
  }

  lemma InvRows(s: State)
    requires Inv(s)
    ensures RowsOk(s.rows) && LogsOk(s.rows, s.sessions) && ProcessedPresent(s.rows, s.sessions)
  {
  }

  lemma AfterIngest(s: State, e: Event)
    requires Enabled(s, Ingest(e))
    ensures After(s, Ingest(e)) == s.(rows := Ingested(s.rows, e))
  {
  }

  lemma AfterRecover(s: State)
    ensures Enabled(s, Recover) && After(s, Recover) == s.(rows := Recovered(s.rows))
  {
  }

  lemma PlainKeepsInv(s: State, step: Step)
    requires Inv(s) && Enabled(s, step) && (step.Review? || step.Raise? || step.Crash?)
    ensures Inv(After(s, step)) && After(s, step).rows == s.rows
  {
    hide RowsOk; hide LogsOk; hide ProcessedPresent; hide Held; hide ParentProcessed; hide Present;
  }

  lemma StartInv()
    ensures Inv(START)
  {
  }

  lemma ExtendsTransitive(a: seq<Row>, b: seq<Row>, c: seq<Row>)
    requires Extends(a, b) && Extends(b, c)
    ensures Extends(a, c)
  {
    forall k | 0 <= k < |a| ensures RowExtends(a[k], c[k]) {
      assert RowExtends(a[k], b[k]) && RowExtends(b[k], c[k]);
    }
  }

  lemma {:induction false} RunKeepsInv(s: State, steps: seq<Step>)
    requires Inv(s) && Valid(s, steps) && AllHonest(steps)
    ensures Inv(Exec(s, steps)) && Extends(s.rows, Exec(s, steps).rows)
    decreases |steps|
  {
    ExtendsSelf(s.rows);
    if steps != [] {
      var next := After(s, steps[0]);
      HonestParts(steps);
      hide Inv; hide Extends; hide AllHonest; hide After; hide Enabled;
      NextKeepsInv(s, steps[0]);
      RunKeepsInv(next, steps[1..]);
      ExtendsTransitive(s.rows, next.rows, Exec(next, steps[1..]).rows);
    }
  }

  lemma HonestParts(steps: seq<Step>)
    requires AllHonest(steps) && steps != []
    ensures (steps[0].Ingest? ==> Honest(steps[0].incoming)) && AllHonest(steps[1..])
  {
    assert forall i :: 0 <= i < |steps[1..]| ==> steps[1..][i] == steps[i + 1];
  }
}
