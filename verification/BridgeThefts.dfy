/** When a message is processed without being appended: exactly when another event has brought its tag before it. */
module BridgeThefts {
  import opened Wrappers
  import opened BridgeTables
  import opened BridgeMachine
  import opened BridgeTags

  ghost predicate Lost(s: State, e: Event) {
    (exists k :: 0 <= k < |s.rows| && s.rows[k].event == e && s.rows[k].status == Processed) && !Present(s.sessions, e)
  }

  /** A message that carries the tag of e into the session of e, with an entry of its own. */
  ghost predicate Steals(f: Event, e: Event) {
    && f.isFinal && f.kind == Message && SessionId(f) == SessionId(e)
    && f.id != e.id && !SameSlot(f, e)
    && Tagged(EntryOf(f), e.id) && EntryOf(f) != EntryOf(e)
  }

  // ----- what every run keeps, honest or not -----

  /** Rows differ in identifier and slot, hold events that have arrived, and wait as captured while not final. */
  ghost predicate RowsKept(rows: seq<Row>, arrived: set<Event>) {
    && (forall i, j :: 0 <= i < j < |rows| ==>
       rows[i].event.id != rows[j].event.id && !SameSlot(rows[i].event, rows[j].event))
    && (forall k :: 0 <= k < |rows| ==>
       rows[k].event in arrived && (rows[k].status == Captured <==> !rows[k].event.isFinal))
  }

  /** The entry is the final form of a message of this session. */
  ghost predicate FromRow(rows: seq<Row>, name: string, entry: Entry) {
    exists x :: Known(rows, x) && x.kind == Message && SessionId(x) == name && entry == EntryOf(x)
  }

  ghost predicate LogsKept(rows: seq<Row>, sessions: map<string, Session>) {
    forall name, j :: name in sessions && 0 <= j < |sessions[name].log| ==> FromRow(rows, name, sessions[name].log[j])
  }

  /** The event is in its session, or taken to be. */
  ghost predicate Seen(sessions: map<string, Session>, e: Event) {
    SessionId(e) in sessions && (Already(sessions[SessionId(e)].log, e.id) || EntryOf(e) in sessions[SessionId(e)].log)
  }

  ghost predicate ProcessedSeen(rows: seq<Row>, sessions: map<string, Session>, e: Event) {
    forall k :: 0 <= k < |rows| && rows[k].event == e && rows[k].status == Processed ==> Seen(sessions, e)
  }

  ghost predicate WorkerKept(s: State, e: Event) {
    !s.worker.Idle? ==>
      && Known(s.rows, s.worker.event)
      && (s.worker.Appending? ==> s.worker.event.kind == Message)
      && ((s.worker.Reviewing? || s.worker.Finishing?) && s.worker.event == e ==> Seen(s.sessions, e))
      && (s.worker.Writing? ==> s.worker.status in {Queued, Failed})
  }

  ghost predicate Kept(s: State, arrived: set<Event>, e: Event) {
    && RowsKept(s.rows, arrived) && LogsKept(s.rows, s.sessions)
    && ProcessedSeen(s.rows, s.sessions, e) && WorkerKept(s, e)
  }

  /** Nothing known is forgotten. */
  ghost predicate Remembers(a: seq<Row>, b: seq<Row>) {
    forall x :: Known(a, x) ==> Known(b, x)
  }

  lemma LogsRemember(a: seq<Row>, b: seq<Row>, sessions: map<string, Session>)
    requires LogsKept(a, sessions) && Remembers(a, b)
    ensures LogsKept(b, sessions)
  {
    hide Known;
    forall name, j | name in sessions && 0 <= j < |sessions[name].log| ensures FromRow(b, name, sessions[name].log[j]) {
      assert FromRow(a, name, sessions[name].log[j]);
    }
  }

  lemma SameEvents(a: seq<Row>, b: seq<Row>)
    requires |a| == |b| && forall k :: 0 <= k < |a| ==> a[k].event == b[k].event
    ensures Remembers(a, b)
  {
    forall x | Known(a, x) ensures Known(b, x) {
      var k :| 0 <= k < |a| && a[k].event == x;
      assert b[k].event == x;
    }
  }

  lemma IngestKept(rows: seq<Row>, arrived: set<Event>, incoming: Event)
    requires RowsKept(rows, arrived) && incoming in arrived
    ensures RowsKept(Ingested(rows, incoming), arrived) && Remembers(rows, Ingested(rows, incoming))
    ensures forall k :: 0 <= k < |Ingested(rows, incoming)| && Ingested(rows, incoming)[k].status == Processed ==>
              k < |rows| && rows[k] == Ingested(rows, incoming)[k]
  {
    var b := Ingested(rows, incoming);
    if IngestOutcome(rows, incoming) == Updated {
      var k := Find(rows, incoming.id).value;
      forall i, j | 0 <= i < j < |b| ensures b[i].event.id != b[j].event.id && !SameSlot(b[i].event, b[j].event) {
        assert !SameSlot(rows[i].event, rows[j].event);
      }
    }
    forall x | Known(rows, x) ensures Known(b, x) {
      var k :| 0 <= k < |rows| && rows[k].event == x;
      assert b[k].event == x;
    }
  }

  lemma ClaimKept(rows: seq<Row>, arrived: set<Event>)
    requires RowsKept(rows, arrived) && ClaimFrom(rows, 0).Some?
    ensures var k := ClaimFrom(rows, 0).value;
            RowsKept(ClaimedRows(rows, k), arrived) && Remembers(rows, ClaimedRows(rows, k))
                && Known(rows, rows[k].event)
  {
    var k := ClaimFrom(rows, 0).value;
    SameEvents(rows, ClaimedRows(rows, k));
    hide SameSlot; hide ParentProcessed;
  }

  lemma RecoverKept(rows: seq<Row>, arrived: set<Event>)
    requires RowsKept(rows, arrived)
    ensures RowsKept(Recovered(rows), arrived) && Remembers(rows, Recovered(rows))
    ensures forall k :: 0 <= k < |rows| ==> (Recovered(rows)[k].status == Processed <==> rows[k].status == Processed)
  {
    SameEvents(rows, Recovered(rows));
    hide SameSlot;
  }

  lemma SettleKept(rows: seq<Row>, arrived: set<Event>, w: Event, status: Status)
    requires RowsKept(rows, arrived) && Known(rows, w) && status != Captured
    ensures RowsKept(SetStatus(rows, w.id, status), arrived) && Remembers(rows, SetStatus(rows, w.id, status))
    ensures var b := SetStatus(rows, w.id, status);
            |b| == |rows| && forall k :: 0 <= k < |b| ==>
                b[k].event == rows[k].event && (b[k] == rows[k] || b[k].event == w)
  {
    SameEvents(rows, SetStatus(rows, w.id, status));
    hide SameSlot;
  }

  lemma SeenGrows(sessions: map<string, Session>, w: Event, e: Event)
    requires SessionId(w) in sessions
    ensures Seen(sessions, e) ==> Seen(Appended(sessions, w), e)
    ensures Seen(Appended(sessions, w), w)
  {
    hide EntryOf; hide Tagged;
    var name := SessionId(w);
    var before, after := sessions[name].log, Appended(sessions, w)[name].log;
    assert after == before + [EntryOf(w)] && after[|before|] == EntryOf(w);
    if Seen(sessions, e) && SessionId(e) == name {
      if Already(before, e.id) {
        var j :| 0 <= j < |before| && Tagged(before[j], e.id);
        assert Tagged(after[j], e.id);
      }
    }
  }

  lemma AppendKept(rows: seq<Row>, sessions: map<string, Session>, w: Event)
    requires LogsKept(rows, sessions) && Known(rows, w) && w.kind == Message && SessionId(w) in sessions
    ensures LogsKept(rows, Appended(sessions, w))
  {
    hide Known; hide EntryOf;
    var next := Appended(sessions, w);
    forall name, j | name in next && 0 <= j < |next[name].log| ensures FromRow(rows, name, next[name].log[j]) {
      if name == SessionId(w) && j == |sessions[name].log| {
        assert next[name].log[j] == EntryOf(w);
      } else {
        assert FromRow(rows, name, sessions[name].log[j]);
      }
    }
  }

  lemma OpenKept(s: State, scope: Scope, arrived: set<Event>, e: Event)
    requires Kept(s, arrived, e) && Enabled(s, Open(scope)) && e.kind == Message
    ensures Kept(After(s, Open(scope)), arrived, e)
  {
    hide RowsKept; hide Known; hide EntryOf; hide FromRow; hide Tagged;
    var w := s.worker.event;
    var sessions := Opened(s.sessions, w, scope);
    assert Seen(s.sessions, e) ==> Seen(sessions, e);
    assert LogsKept(s.rows, sessions);
  }

  lemma RowStepKept(s: State, rows: seq<Row>, worker: Worker, arrived: set<Event>, e: Event)
    requires Kept(s, arrived, e) && RowsKept(rows, arrived) && Remembers(s.rows, rows)
    requires forall k :: 0 <= k < |rows| && rows[k].event == e && rows[k].status == Processed ==> Seen(s.sessions, e)
    requires WorkerKept(State(rows, s.sessions, worker), e)
    ensures Kept(State(rows, s.sessions, worker), arrived, e)
  {
    hide RowsKept; hide WorkerKept; hide Seen; hide Remembers; hide LogsKept;
    LogsRemember(s.rows, rows, s.sessions);
  }

  /** The worker's own step on the rows: the verdict on its event. */
  lemma VerdictKept(s: State, step: Step, arrived: set<Event>, e: Event)
    requires Kept(s, arrived, e) && Enabled(s, step) && (step.MarkProcessed? || step.WriteStatus?)
    ensures Kept(After(s, step), arrived, e)
  {
    var w := s.worker.event;
    var status := if step.MarkProcessed? then Processed else s.worker.status;
    SettleKept(s.rows, arrived, w, status);
    var rows := After(s, step).rows;
    hide RowsKept; hide Seen; hide Known; hide SetStatus; hide IsProcessing;
    assert rows == s.rows || rows == SetStatus(s.rows, w.id, status);
    forall k | 0 <= k < |rows| && rows[k].event == e && rows[k].status == Processed ensures Seen(s.sessions, e) {
      if rows != s.rows && rows[k] != s.rows[k] { assert w == e; }
    }
    hide After;
    RowStepKept(s, rows, Idle, arrived, e);
  }

  lemma StepKept(s: State, step: Step, arrived: set<Event>, e: Event)
    requires Kept(s, arrived, e) && Enabled(s, step) && (step.Ingest? ==> step.incoming in arrived) && e.kind == Message
    ensures Kept(After(s, step), arrived, e)
  {
    hide RowsKept; hide LogsKept; hide Seen; hide Known; hide Verdict; hide Ingested; hide ClaimFrom; hide Recovered;
    hide Opened; hide Already; hide Appended; hide Remembers;
    match step
    case Ingest(x) =>
      IngestKept(s.rows, arrived, x);
      assert !s.worker.Idle? ==> Known(After(s, step).rows, s.worker.event) by {
        Remembered(s.rows, Ingested(s.rows, x));
      }
      RowStepKept(s, Ingested(s.rows, x), s.worker, arrived, e);
    case Claim =>
      ClaimKept(s.rows, arrived);
      var k := ClaimFrom(s.rows, 0).value;
      Remembered(s.rows, ClaimedRows(s.rows, k));
      RowStepKept(s, ClaimedRows(s.rows, k), Claimed(s.rows[k].event), arrived, e);
    case Open(scope) => OpenKept(s, scope, arrived, e);
    case Append =>
      AppendKept(s.rows, s.sessions, s.worker.event);
      SeenGrows(s.sessions, s.worker.event, e);
    case Recover =>
      RecoverKept(s.rows, arrived);
      Remembered(s.rows, Recovered(s.rows));
      RowStepKept(s, Recovered(s.rows), s.worker, arrived, e);
    case MarkProcessed => VerdictKept(s, step, arrived, e);
    case WriteStatus => VerdictKept(s, step, arrived, e);
    case ReadAttempts => VerdictIs(s.rows, s.worker.event.id, s.worker.retry);
    case _ =>
  }

  lemma Remembered(a: seq<Row>, b: seq<Row>)
    requires Remembers(a, b)
    ensures forall x :: Known(a, x) ==> Known(b, x)
  {
  }

  lemma VerdictIs(rows: seq<Row>, id: string, retry: bool)
    ensures Verdict(rows, id, retry) in {Queued, Failed}
  {
  }

  lemma {:induction false} RunKept(s: State, steps: seq<Step>, arrived: set<Event>, e: Event)
    requires Kept(s, arrived, e) && Valid(s, steps) && Arrivals(steps) <= arrived && e.kind == Message
    ensures Kept(Exec(s, steps), arrived, e)
    decreases |steps|
  {
    hide Kept; hide Enabled; hide After;
    if steps != [] {
      if steps[0].Ingest? { assert steps[0].incoming in Arrivals(steps); }
      forall x | x in Arrivals(steps[1..]) ensures x in arrived {
        var i :| 0 <= i < |steps[1..]| && steps[1..][i].Ingest? && steps[1..][i].incoming == x;
        assert steps[i + 1].incoming == x && x in Arrivals(steps);
      }
      StepKept(s, steps[0], arrived, e);
      RunKept(After(s, steps[0]), steps[1..], arrived, e);
    }
  }

  /** Whatever arrives, a lost message had its tag stolen by an event that arrived. */
  lemma LostWasStolen(steps: seq<Step>, e: Event) returns (f: Event)
    requires Valid(START, steps) && e.isFinal && e.kind == Message && Lost(Exec(START, steps), e)
    ensures f in Arrivals(steps) && Steals(f, e)
  {
    hide Valid; hide Exec; hide Arrivals;
    RunKept(START, steps, Arrivals(steps), e);
    f := ThiefIn(Exec(START, steps), Arrivals(steps), e);
  }

  lemma ThiefIn(s: State, arrived: set<Event>, e: Event) returns (f: Event)
    requires Kept(s, arrived, e) && Lost(s, e) && e.isFinal
    ensures f in arrived && Steals(f, e)
  {
    hide EntryOf; hide SessionId; hide Tagged; hide SameSlot;
    var i :| 0 <= i < |s.rows| && s.rows[i].event == e && s.rows[i].status == Processed;
    var log := s.sessions[SessionId(e)].log;
    assert Already(log, e.id);
    var j :| 0 <= j < |log| && Tagged(log[j], e.id);
    assert FromRow(s.rows, SessionId(e), log[j]);
    f :| Known(s.rows, f) && f.kind == Message && SessionId(f) == SessionId(e) && log[j] == EntryOf(f);
    var k :| 0 <= k < |s.rows| && s.rows[k].event == f;
    assert i != k;
    assert SameSlot(f, e) == SameSlot(e, f) by { SlotIsSymmetric(f, e); }
  }

  lemma SlotIsSymmetric(a: Event, b: Event)
    ensures SameSlot(a, b) <==> SameSlot(b, a)
  {
  }

  // ----- and every such event can do it -----

  /** x passes, behind its parent if it needs one. */
  lemma PassesWithParent(base: seq<Row>, sessions: map<string, Session>, x: Event, log: seq<Entry>, h: Event)
    returns (steps: seq<Step>, after: map<string, Session>)
    requires Normalised(x) && Apart(base, x) && x.isFinal && x.kind == Message && Logs(sessions, SessionId(x), log)
    requires x.parent.Some? ==> Helps(h, x) && Apart(base, h) && !Already(log, h.id)
    ensures var seen := LogWith(log, x, h);
            && Goes(State(base, sessions, Idle), steps,
                    State(RowsWith(base, x, h) + [Row(x, Processed, 1, 0)], after, Idle))
            && (forall y :: y in Arrivals(steps) ==> y == x || Honest(y))
            && SessionId(x) in after
            && Logs(after, SessionId(x), if Already(seen, x.id) then seen else seen + [EntryOf(x)])
  {
    var first, open := ParentPasses(base, sessions, x, log, h);
    hide Settled; hide Goes; hide Apart; hide SessionId; hide EntryOf; hide Already; hide Helps; hide Normalised;
    var middle := RowsWith(base, x, h);
    var last := Passes(middle, open, x);
    after := Projected(open, x);
    var end := State(middle + [Row(x, Processed, 1, 0)], after, Idle);
    hide RowsWith; hide LogWith;
    Then(State(base, sessions, Idle), first, State(middle, open, Idle), last, end);
    ArrivalsOf(first, last);
    steps := first + last;
  }

  /** The parents that the two may need, apart from both and longer than e. */
  function HelperOf(x: Event, e: Event, f: Event, mark: string): Event {
    Helper(x, e.id + f.id + mark, e.version + f.version + |mark|, e.content + mark)
  }

  lemma HelperOfHelps(x: Event, e: Event, f: Event, mark: string)
    requires Normalised(e) && Normalised(f) && x in {e, f} && mark in {"p", "pp"} && x.kind == Message
    requires e.kind == Message && f.kind == Message
    ensures var h := HelperOf(x, e, f, mark);
            && (x.parent.Some? ==> Helps(h, x)) && Honest(h)
            && h.id != e.id && h.id != f.id && !SameSlot(h, e) && !SameSlot(h, f) && EntryOf(h) != EntryOf(e)
  {
    var id := e.id + f.id + mark;
    assert |id| > |e.id| && |id| > |f.id| && id[0] == e.id[0] && id[|id| - 1] == 'p';
    HelperHelps(x, id, e.version + f.version + |mark|, e.content + mark);
    assert |(e.content + mark)| > |e.content|;
    hide Normalised; hide OwnMetadata;
  }

  /** e arrives behind the thief. */
  lemma TheftSucceeds(e: Event, f: Event) returns (steps: seq<Step>)
    requires Normalised(e) && Normalised(f) && e.isFinal && e.kind == Message && Steals(f, e)
    ensures Valid(START, steps) && Lost(Exec(START, steps), e)
    ensures forall y :: y in Arrivals(steps) ==> y == e || y == f || Honest(y)
  {
    var g, h := HelperOf(f, e, f, "p"), HelperOf(e, e, f, "pp");
    HelperOfHelps(f, e, f, "p");
    HelperOfHelps(e, e, f, "pp");
    HelpersDiffer(e, f);
    ThiefIsAppended(e, f, g, h);
    ApartFromThief(e, f, g, h);
    steps := Theft(e, f, g, h);
  }

  lemma HelpersDiffer(e: Event, f: Event)
    ensures HelperOf(f, e, f, "p").id != HelperOf(e, e, f, "pp").id
  {
    assert |HelperOf(f, e, f, "p").id| != |HelperOf(e, e, f, "pp").id|;
  }

  lemma Theft(e: Event, f: Event, g: Event, h: Event) returns (steps: seq<Step>)
    requires Normalised(e) && Normalised(f) && e.isFinal && e.kind == Message && Steals(f, e)
    requires (f.parent.Some? ==> Helps(g, f)) && (e.parent.Some? ==> Helps(h, e))
    requires Apart([], f) && Apart([], g) && !Already([], g.id) && !Already(LogWith([], f, g), f.id)
    requires var rows := RowsWith([], f, g) + [Row(f, Processed, 1, 0)]; Apart(rows, e) && Apart(rows, h)
    requires var log := LogWith([], f, g) + [EntryOf(f)];
             !Already(log, h.id) && Already(LogWith(log, e, h), e.id) && EntryOf(e) !in LogWith(log, e, h)
    ensures Valid(START, steps) && Lost(Exec(START, steps), e)
    ensures forall y :: y in Arrivals(steps) ==> y == e || y == f || Honest(y)
  {
    assert f.isFinal && f.kind == Message && SessionId(f) == SessionId(e);
    var log, rows := LogWith([], f, g) + [EntryOf(f)], RowsWith([], f, g) + [Row(f, Processed, 1, 0)];
    assert Logs(map[], SessionId(f), []);
    hide Steals; hide Helps; hide Apart; hide LogWith; hide RowsWith; hide Normalised; hide Already; hide EntryOf;
    hide SessionId; hide Honest; hide Arrivals;
    var before, sessions := PassesWithParent([], map[], f, [], g);
    assert Logs(sessions, SessionId(e), log);
    var after, end := PassesWithParent(rows, sessions, e, log, h);
    var last := State(RowsWith(rows, e, h) + [Row(e, Processed, 1, 0)], end, Idle);
    assert START == State([], map[], Idle);
    Then(START, before, State(rows, sessions, Idle), after, last);
    ArrivalsOf(before, after);
    steps := before + after;
    LostAtEnd(last, e, LogWith(log, e, h));
  }

  lemma LostAtEnd(s: State, e: Event, log: seq<Entry>)
    requires s.rows != [] && s.rows[|s.rows| - 1] == Row(e, Processed, 1, 0)
    requires SessionId(e) in s.sessions && s.sessions[SessionId(e)].log == log && EntryOf(e) !in log
    ensures Lost(s, e)
  {
    hide SessionId; hide EntryOf;
  }

  /** What the logs hold on the way: the thief is not recognised and appended, e is recognised and not in them. */
  lemma ThiefIsAppended(e: Event, f: Event, g: Event, h: Event)
    requires Tagged(EntryOf(f), e.id) && Honest(g) && Honest(h) && g.id != f.id && h.id != e.id && g.id != h.id
    requires EntryOf(f) != EntryOf(e) && EntryOf(g) != EntryOf(e) && EntryOf(h) != EntryOf(e)
    ensures !Already([], g.id) && !Already(LogWith([], f, g), f.id)
    ensures var log := LogWith([], f, g) + [EntryOf(f)];
            !Already(log, h.id) && Already(LogWith(log, e, h), e.id) && EntryOf(e) !in LogWith(log, e, h)
  {
    HonestTag(g, f.id);
    HonestTag(g, h.id);
    OneTag(EntryOf(f), h.id, e.id);
    hide EntryOf; hide Tagged; hide Already; hide Honest;
    var first := LogWith([], f, g);
    var log := first + [EntryOf(f)];
    NothingSeen(g.id);
    AfterParent(f, g, f.id);
    AfterParent(f, g, h.id);
    SeenMore(first, EntryOf(f), h.id);
    SeenMore(first, EntryOf(f), e.id);
    SeenMore(log, EntryOf(h), e.id);
    NotAmong(e, f, g, h);
  }

  lemma AfterParent(f: Event, g: Event, id: string)
    requires !Tagged(EntryOf(g), id)
    ensures !Already(LogWith([], f, g), id)
  {
    hide EntryOf; hide Tagged; hide Already;
    NothingSeen(id);
    SeenMore([], EntryOf(g), id);
  }

  lemma NotAmong(e: Event, f: Event, g: Event, h: Event)
    requires EntryOf(f) != EntryOf(e) && EntryOf(g) != EntryOf(e) && EntryOf(h) != EntryOf(e)
    ensures EntryOf(e) !in LogWith(LogWith([], f, g) + [EntryOf(f)], e, h)
  {
    hide EntryOf;
  }

  lemma HonestTag(g: Event, id: string)
    requires Honest(g)
    ensures Tagged(EntryOf(g), id) ==> id == g.id
  {
    TagOf(g);
  }

  lemma OneTag(entry: Entry, a: string, b: string)
    ensures Tagged(entry, a) && Tagged(entry, b) ==> a == b
  {
  }

  lemma NothingSeen(id: string)
    ensures !Already([], id)
  {
  }

  lemma SeenMore(log: seq<Entry>, entry: Entry, id: string)
    ensures Already(log + [entry], id) <==> Already(log, id) || Tagged(entry, id)
  {
    hide Tagged;
    var more := log + [entry];
    assert more[|log|] == entry;
    if Already(log, id) {
      var j :| 0 <= j < |log| && Tagged(log[j], id);
      assert Tagged(more[j], id);
    }
  }

  lemma ApartFromThief(e: Event, f: Event, g: Event, h: Event)
    requires Steals(f, e) && g == HelperOf(f, e, f, "p") && h == HelperOf(e, e, f, "pp")
    requires g.id != e.id && h.id != f.id && !SameSlot(g, e) && !SameSlot(h, f)
    ensures Apart([], f) && Apart([], g)
    ensures var rows := RowsWith([], f, g) + [Row(f, Processed, 1, 0)]; Apart(rows, e) && Apart(rows, h)
  {
    assert |g.id| != |h.id|;
    hide EntryOf; hide Tagged; hide SessionId;
    assert !SameSlot(f, h) by { SlotIsSymmetric(f, h); }
  }

  /**
   Of e and f, with honest events beside them, e can be processed without being appended exactly if f steals its tag.
   */
  lemma LostIffStolen(e: Event, f: Event)
    requires Normalised(e) && Normalised(f) && e.isFinal && e.kind == Message
    ensures (exists steps :: LosesBetween(steps, e, f)) <==> Steals(f, e)
  {
    if Steals(f, e) {
      var steps := TheftSucceeds(e, f);
      assert LosesBetween(steps, e, f);
    }
    if steps :| LosesBetween(steps, e, f) {
      hide Valid; hide Exec; hide Lost; hide Arrivals;
      var thief := LostWasStolen(steps, e);
      HonestStealsNothing(thief, e);
    }
  }

  /** A run among honest events, e and f perhaps excepted, that loses e. */
  ghost predicate LosesBetween(steps: seq<Step>, e: Event, f: Event) {
    && Valid(START, steps) && Lost(Exec(START, steps), e)
    && forall y :: y in Arrivals(steps) ==> y == e || y == f || Honest(y)
  }

  lemma HonestStealsNothing(f: Event, e: Event)
    ensures Steals(f, e) ==> !Honest(f) && f != e
  {
    if Honest(f) { TagOf(f); }
  }

  /** Every message has such a thief, however well it behaves itself. */
  lemma EveryTagCanBeStolen(e: Event)
    requires Normalised(e) && e.kind == Message
    ensures exists f :: Normalised(f) && Steals(f, e)
  {
    var f := Event(e.id + "t", Message, e.source, e.account, e.conversation, e.branch, e.messageId, None, e.version + 1,
                   e.role, e.content + "t", true, map[EVENT_KEY := Text(e.id)]);
    assert |f.content| != |e.content| && |f.id| != |e.id|;
    assert Normalised(f) && Steals(f, e);
  }
}
