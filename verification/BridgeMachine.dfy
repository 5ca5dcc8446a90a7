/**
 The bridge as a state machine: one worker takes events from the inbox to the sessions, one statement at a
 time, while events keep arriving, recovery may run at any moment, and the worker may die anywhere.
 */
module BridgeMachine {
  import opened Wrappers
  import opened BridgeTables

  datatype Worker =
    | Idle
    | Claimed(event: Event)
    | Appending(event: Event)
    | Reviewing(event: Event)
    | Finishing(event: Event)
    | Failing(event: Event, retry: bool)
    | Writing(event: Event, status: Status)

  datatype State = State(rows: seq<Row>, sessions: map<string, Session>, worker: Worker)

  const START := State([], map[], Idle)

  datatype Step =
    | Ingest(incoming: Event)
    | Claim
    | Open(scope: Scope)
    | Append
    | Review
    | Raise(retry: bool)
    | MarkProcessed
    | ReadAttempts
    | WriteStatus
    | Crash
    | Recover

  /** The session the event belongs to does not exist yet or has this scope. */
  predicate ScopeFits(sessions: map<string, Session>, e: Event, scope: Scope) {
    SessionId(e) in sessions ==> sessions[SessionId(e)].scope == scope
  }

  predicate Enabled(s: State, step: Step) {
    match step
    case Ingest(e) => Normalised(e)
    case Claim => s.worker.Idle? && ClaimFrom(s.rows, 0).Some?
    case Open(scope) => s.worker.Claimed? && ScopeFits(s.sessions, s.worker.event, scope)
    case Append => s.worker.Appending? && SessionId(s.worker.event) in s.sessions
    case Review => s.worker.Reviewing?
    case Raise(_) => s.worker.Claimed? || s.worker.Appending? || (s.worker.Reviewing? && Reviewed(s.worker.event))
    case MarkProcessed => s.worker.Finishing?
    case ReadAttempts => s.worker.Failing?
    case WriteStatus => s.worker.Writing?
    case Crash => true
    case Recover => true
  }

  function Opened(sessions: map<string, Session>, e: Event, scope: Scope): (r: map<string, Session>)
    ensures SessionId(e) in r
  {
    if SessionId(e) in sessions then sessions else sessions[SessionId(e) := Session(scope, [])]
  }

  function Appended(sessions: map<string, Session>, e: Event): map<string, Session>
    requires SessionId(e) in sessions
  {
    var session := sessions[SessionId(e)];
    sessions[SessionId(e) := session.(log := session.log + [EntryOf(e)])]
  }

  predicate IsProcessing(rows: seq<Row>, id: string) {
    var k := Find(rows, id);
    k.Some? && rows[k.value].status == Processing
  }

  /** mark_failed: back to the queue while attempts are left. */
  function Verdict(rows: seq<Row>, id: string, retry: bool): Status {
    var k := Find(rows, id);
    if retry && k.Some? && rows[k.value].attempts < MAX_ATTEMPTS then Queued else Failed
  }

  function After(s: State, step: Step): State
    requires Enabled(s, step)
  {
    match step
    case Ingest(e) => s.(rows := Ingested(s.rows, e))
    case Claim =>
      var k := ClaimFrom(s.rows, 0).value;
      s.(rows := ClaimedRows(s.rows, k), worker := Claimed(s.rows[k].event))
    case Open(scope) =>
      var e := s.worker.event;
      var sessions := Opened(s.sessions, e, scope);
      var isNew := e.kind == Message && !Already(sessions[SessionId(e)].log, e.id);
      s.(sessions := sessions, worker := if isNew then Appending(e) else Reviewing(e))
    case Append => s.(sessions := Appended(s.sessions, s.worker.event), worker := Reviewing(s.worker.event))
    case Review => s.(worker := Finishing(s.worker.event))
    case Raise(retry) => s.(worker := Failing(s.worker.event, retry))
    case MarkProcessed =>
      var id := s.worker.event.id;
      s.(rows := if IsProcessing(s.rows, id) then SetStatus(s.rows, id, Processed) else s.rows, worker := Idle)
    case ReadAttempts =>
      var e := s.worker.event;
      s.(worker := if IsProcessing(s.rows, e.id) then Writing(e, Verdict(s.rows, e.id, s.worker.retry)) else Idle)
    case WriteStatus => s.(rows := SetStatus(s.rows, s.worker.event.id, s.worker.status), worker := Idle)
    case Crash => s.(worker := Idle)
    case Recover => s.(rows := Recovered(s.rows))
  }

  ghost predicate Valid(s: State, steps: seq<Step>)
    decreases |steps|
  {
    steps == [] || (Enabled(s, steps[0]) && Valid(After(s, steps[0]), steps[1..]))
  }

  ghost function Exec(s: State, steps: seq<Step>): State
    requires Valid(s, steps)
    decreases |steps|
  {
    if steps == [] then s else Exec(After(s, steps[0]), steps[1..])
  }

  ghost predicate AllHonest(steps: seq<Step>) {
    forall i :: 0 <= i < |steps| && steps[i].Ingest? ==> Honest(steps[i].incoming)
  }

  // ----- the invariant -----

  ghost predicate RowsOk(rows: seq<Row>) {
    && (forall i, j :: 0 <= i < j < |rows| ==> rows[i].event.id != rows[j].event.id)
    && forall k :: 0 <= k < |rows| ==> RowOk(rows[k])
  }

  /** A row waits as `captured` exactly while its event is not final, and its attempts are accounted for. */
  ghost predicate RowOk(row: Row) {
    && Honest(row.event)
    && (row.status == Captured <==> !row.event.isFinal)
    && row.attempts <= MAX_ATTEMPTS + row.recoveries
    && (row.status in {Captured, Queued} ==> row.attempts < MAX_ATTEMPTS + row.recoveries)
  }

  /** The event is in the inbox, in its final form. */
  ghost predicate Known(rows: seq<Row>, e: Event) {
    e.isFinal && exists k :: 0 <= k < |rows| && rows[k].event == e
  }

  ghost predicate Present(sessions: map<string, Session>, e: Event) {
    SessionId(e) in sessions && EntryOf(e) in sessions[SessionId(e)].log
  }

  /** The entry at j is the final form of an event of this session, and comes after its parent. */
  ghost predicate EntryOk(rows: seq<Row>, name: string, log: seq<Entry>, j: nat)
    requires j < |log|
  {
    exists e ::
      && Known(rows, e) && e.kind == Message && SessionId(e) == name && log[j] == EntryOf(e)
      && (e.parent.Some? ==> ParentBefore(rows, log, j, e))
  }

  ghost predicate ParentBefore(rows: seq<Row>, log: seq<Entry>, j: nat, e: Event)
    requires j <= |log|
  {
    exists k ::
      && 0 <= k < |rows| && IsProcessedParent(rows[k], e)
      && (rows[k].event.kind == Message ==> EntryOf(rows[k].event) in log[..j])
  }

  ghost predicate LogOk(rows: seq<Row>, name: string, log: seq<Entry>) {
    && (forall j :: 0 <= j < |log| ==> EntryOk(rows, name, log, j))
    && forall i, j, id :: 0 <= i < j < |log| && Tagged(log[i], id) ==> !Tagged(log[j], id)
  }

  ghost predicate LogsOk(rows: seq<Row>, sessions: map<string, Session>) {
    forall name :: name in sessions ==> LogOk(rows, name, sessions[name].log)
  }

  ghost predicate ProcessedPresent(rows: seq<Row>, sessions: map<string, Session>) {
    forall k :: 0 <= k < |rows| && rows[k].status == Processed && rows[k].event.kind == Message ==>
      Present(sessions, rows[k].event)
  }

  /** The worker's event is still its own: in process, or put back by recovery. */
  ghost predicate Held(rows: seq<Row>, e: Event) {
    e.isFinal && exists k :: 0 <= k < |rows| && rows[k].event == e && rows[k].status in {Processing, Queued}
  }

  ghost predicate WorkerOk(s: State) {
    !s.worker.Idle? ==>
      && Held(s.rows, s.worker.event)
      && ParentProcessed(s.rows, s.worker.event)
      && (s.worker.Appending? ==>
            s.worker.event.kind == Message && SessionId(s.worker.event) in s.sessions
            && !Already(s.sessions[SessionId(s.worker.event)].log, s.worker.event.id))
      && ((s.worker.Reviewing? || s.worker.Finishing?) && s.worker.event.kind == Message ==>
            Present(s.sessions, s.worker.event))
      && (s.worker.Writing? ==> WritingOk(s.rows, s.worker.event, s.worker.status))
  }

  ghost predicate WritingOk(rows: seq<Row>, e: Event, status: Status) {
    && status in {Queued, Failed}
    && forall k :: 0 <= k < |rows| && rows[k].event.id == e.id && status == Queued ==> rows[k].attempts < MAX_ATTEMPTS
  }

  ghost predicate Inv(s: State) {
    RowsOk(s.rows) && LogsOk(s.rows, s.sessions) && ProcessedPresent(s.rows, s.sessions) && WorkerOk(s)
  }

  // ----- what every change of the rows respects -----

  ghost predicate Extends(a: seq<Row>, b: seq<Row>) {
    && |a| <= |b|
    && forall k :: 0 <= k < |a| ==> RowExtends(a[k], b[k])
  }

  ghost predicate RowExtends(a: Row, b: Row) {
    && b.event.id == a.event.id
    && (a.event.isFinal ==> b.event == a.event)
    && (a.status == Processed ==> b.status == Processed)
    && a.attempts <= b.attempts && a.recoveries <= b.recoveries
  }

  lemma KnownStays(a: seq<Row>, b: seq<Row>, e: Event)
    requires Extends(a, b) && Known(a, e)
    ensures Known(b, e)
  {
    var k :| 0 <= k < |a| && a[k].event == e;
    assert RowExtends(a[k], b[k]);
  }

  lemma ParentStays(a: seq<Row>, b: seq<Row>, log: seq<Entry>, j: nat, e: Event)
    requires RowsOk(a) && Extends(a, b) && j <= |log| && ParentBefore(a, log, j, e)
    ensures ParentBefore(b, log, j, e)
  {
    var k :| 0 <= k < |a| && IsProcessedParent(a[k], e)
      && (a[k].event.kind == Message ==> EntryOf(a[k].event) in log[..j]);
    assert RowExtends(a[k], b[k]) && RowOk(a[k]);
    assert IsProcessedParent(b[k], e);
  }

  lemma ProcessedParentStays(a: seq<Row>, b: seq<Row>, e: Event)
    requires RowsOk(a) && Extends(a, b) && ParentProcessed(a, e)
    ensures ParentProcessed(b, e)
  {
    if e.kind == Message && e.parent.Some? {
      var k :| 0 <= k < |a| && IsProcessedParent(a[k], e);
      assert RowExtends(a[k], b[k]) && RowOk(a[k]);
      assert IsProcessedParent(b[k], e);
    }
  }

  lemma LogStays(a: seq<Row>, b: seq<Row>, name: string, log: seq<Entry>)
    requires RowsOk(a) && Extends(a, b) && LogOk(a, name, log)
    ensures LogOk(b, name, log)
  {
    forall j | 0 <= j < |log| ensures EntryOk(b, name, log, j) {
      assert EntryOk(a, name, log, j);
      var e :| Known(a, e) && e.kind == Message && SessionId(e) == name && log[j] == EntryOf(e)
        && (e.parent.Some? ==> ParentBefore(a, log, j, e));
      hide *;
      KnownStays(a, b, e);
      if e.parent.Some? { ParentStays(a, b, log, j, e); }
    }
  }

  lemma LogsStay(a: seq<Row>, b: seq<Row>, sessions: map<string, Session>)
    requires RowsOk(a) && Extends(a, b) && LogsOk(a, sessions)
    ensures LogsOk(b, sessions)
  {
    forall name | name in sessions ensures LogOk(b, name, sessions[name].log) {
      assert LogOk(a, name, sessions[name].log);
      hide *;
      LogStays(a, b, name, sessions[name].log);
    }
  }
}
