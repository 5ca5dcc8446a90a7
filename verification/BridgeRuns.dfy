/** What holds of the inbox and the sessions after any run of the bridge. */
module BridgeRuns {
  import opened Wrappers
  import opened BridgeTables
  import opened BridgeMachine
  import opened BridgeSafety

  /** A state that some run from the empty inbox reaches, with events that do not overwrite their own tag. */
  ghost predicate Reachable(s: State) {
    exists steps :: Valid(START, steps) && AllHonest(steps) && Exec(START, steps) == s
  }

  lemma ReachableInv(s: State)
    requires Reachable(s)
    ensures Inv(s)
  {
    hide Inv; hide Valid; hide Exec;
    var steps :| Valid(START, steps) && AllHonest(steps) && Exec(START, steps) == s;
    StartInv();
    RunKeepsInv(START, steps);
  }

  /** An event is in at most one place of at most one session log. */
  lemma AtMostOnce(s: State, id: string, a: string, i: nat, b: string, j: nat)
    requires Reachable(s) && a in s.sessions && b in s.sessions
    requires i < |s.sessions[a].log| && j < |s.sessions[b].log|
    requires Tagged(s.sessions[a].log[i], id) && Tagged(s.sessions[b].log[j], id)
    ensures a == b && i == j
  {
    ReachableInv(s);
    OnceByInv(s, id, a, i, b, j);
  }

  lemma OnceByInv(s: State, id: string, a: string, i: nat, b: string, j: nat)
    requires Inv(s) && a in s.sessions && b in s.sessions
    requires i < |s.sessions[a].log| && j < |s.sessions[b].log|
    requires Tagged(s.sessions[a].log[i], id) && Tagged(s.sessions[b].log[j], id)
    ensures a == b && i == j
  {
    InvRows(s);
    var e := EventAt(s, a, i, id);
    var f := EventAt(s, b, j, id);
    OneRow(s.rows, e, f);
    assert LogOk(s.rows, a, s.sessions[a].log);
  }

  lemma EventAt(s: State, name: string, j: nat, id: string) returns (e: Event)
    requires RowsOk(s.rows) && LogsOk(s.rows, s.sessions)
    requires name in s.sessions && j < |s.sessions[name].log| && Tagged(s.sessions[name].log[j], id)
    ensures Known(s.rows, e) && e.kind == Message && e.id == id && SessionId(e) == name
    ensures s.sessions[name].log[j] == EntryOf(e)
  {
    var log := s.sessions[name].log;
    assert LogOk(s.rows, name, log) && EntryOk(s.rows, name, log, j);
    e :| Known(s.rows, e) && e.kind == Message && SessionId(e) == name && log[j] == EntryOf(e);
    var k :| 0 <= k < |s.rows| && s.rows[k].event == e;
    assert RowOk(s.rows[k]);
    TagOf(e);
  }

  lemma OneRow(rows: seq<Row>, e: Event, f: Event)
    requires RowsOk(rows) && Known(rows, e) && Known(rows, f) && e.id == f.id
    ensures e == f
  {
    var i :| 0 <= i < |rows| && rows[i].event == e;
    var j :| 0 <= j < |rows| && rows[j].event == f;
  }

  /** A processed message is in its session, in its final form; with AtMostOnce, exactly once. */
  lemma ProcessedIsProjected(s: State, k: nat) returns (j: nat)
    requires Reachable(s) && k < |s.rows| && s.rows[k].status == Processed && s.rows[k].event.kind == Message
    ensures var e := s.rows[k].event;
            && SessionId(e) in s.sessions && j < |s.sessions[SessionId(e)].log|
            && s.sessions[SessionId(e)].log[j] == EntryOf(e) && Tagged(EntryOf(e), e.id)
  {
    ReachableInv(s);
    assert RowOk(s.rows[k]);
    var e := s.rows[k].event;
    TagOf(e);
    assert Present(s.sessions, e);
    j :| 0 <= j < |s.sessions[SessionId(e)].log| && s.sessions[SessionId(e)].log[j] == EntryOf(e);
  }

  /** Whatever is in a log is the final content of an event of that conversation, behind the parent's message. */
  lemma EveryEntryIsAnEvent(s: State, name: string, j: nat) returns (e: Event)
    requires Reachable(s) && name in s.sessions && j < |s.sessions[name].log|
    ensures Known(s.rows, e) && e.kind == Message && SessionId(e) == name && s.sessions[name].log[j] == EntryOf(e)
    ensures e.parent.Some? ==> ParentBefore(s.rows, s.sessions[name].log, j, e)
    ensures var entry := s.sessions[name].log[j];
            && entry.role == e.role && entry.content == e.content
            && EVENT_KEY in entry.metadata && entry.metadata[EVENT_KEY] == Text(e.id)
    ensures name == e.source + ":" + e.account + ":" + e.conversation + ":" + e.branch
  {
    ReachableInv(s);
    var log := s.sessions[name].log;
    assert LogOk(s.rows, name, log) && EntryOk(s.rows, name, log, j);
    e :| Known(s.rows, e) && e.kind == Message && SessionId(e) == name && log[j] == EntryOf(e)
      && (e.parent.Some? ==> ParentBefore(s.rows, log, j, e));
    KnownIsHonest(s.rows, e);
    TagOf(e);
  }

  lemma KnownIsHonest(rows: seq<Row>, e: Event)
    requires RowsOk(rows) && Known(rows, e)
    ensures Honest(e)
  {
    var k :| 0 <= k < |rows| && rows[k].event == e;
    assert RowOk(rows[k]);
  }

  /** What an entry says: role, content, the bridge's seven keys, and over them the event's own metadata. */
  lemma EntryHolds(e: Event)
    ensures EntryOf(e).role == e.role && EntryOf(e).content == e.content
    ensures var m := EntryOf(e).metadata;
            && m.Keys == {"bridge_event_id", "bridge_message_id", "bridge_parent_message_id", "bridge_branch_id",
                          "bridge_version", "bridge_source", "bridge_generated"} + e.metadata.Keys
            && (forall k :: k in e.metadata ==> m[k] == e.metadata[k])
            && ("bridge_event_id" !in e.metadata ==> m["bridge_event_id"] == Text(e.id))
            && ("bridge_message_id" !in e.metadata ==> m["bridge_message_id"] == Text(e.messageId))
            && ("bridge_parent_message_id" !in e.metadata ==>
                  m["bridge_parent_message_id"] == match e.parent case None => Null case Some(p) => Text(p))
            && ("bridge_branch_id" !in e.metadata ==> m["bridge_branch_id"] == Text(e.branch))
            && ("bridge_version" !in e.metadata ==> m["bridge_version"] == Number(e.version))
            && ("bridge_source" !in e.metadata ==> m["bridge_source"] == Text(e.source))
            && ("bridge_generated" !in e.metadata ==> m["bridge_generated"] == Flag(e.role.Assistant?))
  {
    KeysApart();
  }

  /** The bridge's keys differ in length or in a letter. */
  lemma KeysApart()
    ensures var keys := ["bridge_event_id", "bridge_message_id", "bridge_parent_message_id", "bridge_branch_id",
                         "bridge_version", "bridge_source", "bridge_generated"];
            forall i, j :: 0 <= i < j < 7 ==> keys[i] != keys[j]
  {
    assert "bridge_event_id"[7] == 'e' && "bridge_message_id"[7] == 'm' && "bridge_parent_message_id"[7] == 'p';
    assert "bridge_branch_id"[7] == 'b' && "bridge_version"[7] == 'v' && "bridge_source"[7] == 's';
    assert "bridge_generated"[7] == 'g';
  }

  /** At the moment of an append the parent has been processed. */
  lemma AppendAfterParent(s: State)
    requires Reachable(s) && Enabled(s, Append)
    ensures s.worker.event.kind == Message
    ensures var e := s.worker.event;
            e.parent.Some? ==>
            exists k :: && 0 <= k < |s.rows| && s.rows[k].status == Processed
                        && s.rows[k].event.messageId == e.parent.value && s.rows[k].event.source == e.source
                        && s.rows[k].event.account == e.account && s.rows[k].event.conversation == e.conversation
                        && s.rows[k].event.branch == e.branch
  {
    ReachableInv(s);
    if s.worker.event.parent.Some? {
      var k :| 0 <= k < |s.rows| && IsProcessedParent(s.rows[k], s.worker.event);
    }
  }

  lemma AttemptsBounded(s: State, k: nat)
    requires Reachable(s) && k < |s.rows|
    ensures s.rows[k].attempts <= 5 + s.rows[k].recoveries
    ensures s.rows[k].status == Captured <==> !s.rows[k].event.isFinal
  {
    ReachableInv(s);
    assert RowOk(s.rows[k]);
  }

  // ----- monotonicity -----

  ghost predicate Grows(a: map<string, Session>, b: map<string, Session>) {
    forall name :: name in a ==> name in b && a[name].scope == b[name].scope && a[name].log <= b[name].log
  }

  lemma {:induction false} HistoryIsKept(s: State, steps: seq<Step>)
    requires Valid(s, steps)
    ensures Grows(s.sessions, Exec(s, steps).sessions)
    decreases |steps|
  {
    if steps != [] { HistoryIsKept(After(s, steps[0]), steps[1..]); }
  }

  /** Processed is for ever, and a final event never changes again. */
  lemma FinalIsForever(s: State, steps: seq<Step>, k: nat)
    requires Reachable(s) && Valid(s, steps) && AllHonest(steps) && k < |s.rows|
    ensures var rows := Exec(s, steps).rows;
            && k < |rows| && rows[k].event.id == s.rows[k].event.id
            && (s.rows[k].event.isFinal ==> rows[k].event == s.rows[k].event)
            && (s.rows[k].status == Processed ==> rows[k].status == Processed)
  {
    ReachableInv(s);
    RunKeepsInv(s, steps);
    assert RowExtends(s.rows[k], Exec(s, steps).rows[k]);
  }

  /** A final event that the inbox took, or had already, keeps its content there for ever. */
  lemma TakenIsKept(s: State, e: Event, steps: seq<Step>) returns (k: nat)
    requires Reachable(s) && Normalised(e) && Honest(e) && e.isFinal
    requires IngestOutcome(s.rows, e) in {Inserted, Updated, Duplicate}
    requires Valid(After(s, Ingest(e)), steps) && AllHonest(steps)
    ensures var rows := Exec(After(s, Ingest(e)), steps).rows;
            && k < |rows| && rows[k].event.id == e.id && rows[k].event.isFinal && rows[k].event.content == e.content
            && rows[k].event.role == e.role && rows[k].event.parent == e.parent
            && rows[k].event.messageId == e.messageId && rows[k].event.version == e.version
  {
    ReachableInv(s);
    k := TakenNow(s.rows, e);
    hide Valid; hide Exec; hide Inv; hide Ingested; hide IngestOutcome; hide Normalised; hide Honest;
    NextKeepsInv(s, Ingest(e));
    RunKeepsInv(After(s, Ingest(e)), steps);
    assert After(s, Ingest(e)).rows == Ingested(s.rows, e);
    assert RowExtends(Ingested(s.rows, e)[k], Exec(After(s, Ingest(e)), steps).rows[k]);
  }

  lemma TakenNow(rows: seq<Row>, e: Event) returns (k: nat)
    requires e.isFinal && IngestOutcome(rows, e) in {Inserted, Updated, Duplicate}
    ensures var next := Ingested(rows, e);
            && k < |next| && next[k].event.id == e.id && next[k].event.isFinal && next[k].event.content == e.content
            && next[k].event.role == e.role && next[k].event.parent == e.parent
            && next[k].event.messageId == e.messageId && next[k].event.version == e.version
  {
    k := if IngestOutcome(rows, e) == Inserted then |rows| else Find(rows, e.id).value;
  }
}
