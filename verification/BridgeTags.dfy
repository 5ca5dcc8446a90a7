/** What goes wrong when the metadata of an event overwrites the tag by which a projected event is recognised. */
module BridgeTags {
  import opened Wrappers
  import opened BridgeTables
  import opened BridgeMachine
  import opened BridgeProjector
  import opened BridgeRuns

  ghost predicate Twice(s: State, e: Event) {
    exists name, i, j :: name in s.sessions && 0 <= i < j < |s.sessions[name].log|
                         && s.sessions[name].log[i] == EntryOf(e) && s.sessions[name].log[j] == EntryOf(e)
  }

  /** Every event that arrives is honest, e itself perhaps not. */
  ghost predicate OthersHonest(steps: seq<Step>, e: Event) {
    forall i :: 0 <= i < |steps| && steps[i].Ingest? ==> steps[i].incoming == e || Honest(steps[i].incoming)
  }

  /**
   A final message is appended at most once in every run among honest events exactly if it does not overwrite its own
   tag.
   */
  lemma OnceIffHonest(e: Event)
    requires Normalised(e) && e.isFinal && e.kind == Message
    ensures Honest(e) <==> forall steps :: Valid(START, steps) && OthersHonest(steps, e) ==>
        !Twice(Exec(START, steps), e)
  {
    hide Twice; hide Honest; hide Valid; hide Exec;
    if Honest(e) {
      forall steps | Valid(START, steps) && OthersHonest(steps, e) ensures !Twice(Exec(START, steps), e) {
        HonestOnce(e, steps);
      }
    } else {
      var steps := Replay(e);
    }
  }

  lemma HonestOnce(e: Event, steps: seq<Step>)
    requires Honest(e) && Valid(START, steps) && OthersHonest(steps, e)
    ensures !Twice(Exec(START, steps), e)
  {
    hide Valid; hide Exec; hide Honest; hide Inv; hide Twice;
    var s := Exec(START, steps);
    assert AllHonest(steps);
    assert Reachable(s);
    ReachableInv(s);
    OnceInState(s, e);
  }

  lemma OnceInState(s: State, e: Event)
    requires Inv(s) && Honest(e)
    ensures !Twice(s, e)
  {
    hide Inv;
    TagOf(e);
    hide Tagged; hide EntryOf; hide Honest;
    forall name, i: nat, j: nat | name in s.sessions && 0 <= i < j < |s.sessions[name].log|
      ensures !(s.sessions[name].log[i] == EntryOf(e) && s.sessions[name].log[j] == EntryOf(e))
    {
      if s.sessions[name].log[i] == EntryOf(e) && s.sessions[name].log[j] == EntryOf(e) {
        OnceByInv(s, e.id, name, i, name, j);
      }
    }
  }

  // ----- runs from block to block -----

  ghost predicate Goes(s: State, steps: seq<Step>, next: State) {
    Valid(s, steps) && Exec(s, steps) == next
  }

  lemma One(s: State, step: Step)
    requires Enabled(s, step)
    ensures Goes(s, [step], After(s, step))
  {
    hide Enabled; hide After;
    var next := After(s, step);
    assert [step][1..] == [] && Valid(next, []) && Exec(next, []) == next;
    assert Valid(s, [step]) && Exec(s, [step]) == next;
  }

  lemma Then(s: State, a: seq<Step>, mid: State, b: seq<Step>, next: State)
    requires Goes(s, a, mid) && Goes(mid, b, next)
    ensures Goes(s, a + b, next)
  {
    Concatenate(s, a, b);
  }

  lemma Two(s: State, a: Step, mid: State, b: Step)
    requires Enabled(s, a) && After(s, a) == mid && Enabled(mid, b)
    ensures Goes(s, [a, b], After(mid, b))
  {
    hide Enabled; hide After; hide Goes;
    One(s, a);
    One(mid, b);
    Then(s, [a], mid, [b], After(mid, b));
    assert [a] + [b] == [a, b];
  }

  const SCOPE := Scope("", None)

  /** The rows before e are done and are no obstacle to it. */
  ghost predicate Settled(base: seq<Row>, e: Event) {
    && (forall k :: 0 <= k < |base| ==>
       base[k].status == Processed && base[k].event.id != e.id && !SameSlot(base[k].event, e))
    && ParentProcessed(base, e)
  }

  lemma NextIsClaimed(base: seq<Row>, row: Row)
    requires Settled(base, row.event) && row.status == Queued
    ensures ClaimFrom(base + [row], 0) == Some(|base|) && Find(base + [row], row.event.id) == Some(|base|)
  {
    var rows := base + [row];
    var e := row.event;
    if e.kind == Message && e.parent.Some? {
      var k :| 0 <= k < |base| && IsProcessedParent(base[k], e);
      assert IsProcessedParent(rows[k], e);
    }
    assert Claimable(rows, |base|);
    hide ParentProcessed;
    forall k | 0 <= k < |base| ensures !Claimable(rows, k) && rows[k].event.id != e.id { assert rows[k] == base[k]; }
    hide Settled;
  }

  lemma NotFound(base: seq<Row>, e: Event)
    requires Settled(base, e)
    ensures IngestOutcome(base, e) == Inserted
  {
    hide ParentProcessed; hide SameSlot;
    assert Find(base, e.id).None?;
  }

  /** The event arrives and is claimed. */
  lemma Arrives(base: seq<Row>, sessions: map<string, Session>, e: Event)
    requires Settled(base, e) && e.isFinal && Normalised(e)
    ensures Goes(State(base, sessions, Idle), [Ingest(e), Claim],
                 State(base + [Row(e, Processing, 1, 0)], sessions, Claimed(e)))
  {
    var s := State(base, sessions, Idle);
    NotFound(base, e);
    var mid := After(s, Ingest(e));
    assert mid == State(base + [Row(e, Queued, 0, 0)], sessions, Idle);
    NextIsClaimed(base, Row(e, Queued, 0, 0));
    hide Settled; hide ClaimFrom; hide Ingested; hide Normalised;
    assert After(mid, Claim) == State(base + [Row(e, Processing, 1, 0)], sessions, Claimed(e));
    Two(s, Ingest(e), mid, Claim);
  }

  /** Not recognised, the event is appended. */
  lemma IsAppended(rows: seq<Row>, sessions: map<string, Session>, e: Event, scope: Scope, log: seq<Entry>)
    requires e.kind == Message && ScopeFits(sessions, e, scope)
    requires Opened(sessions, e, scope)[SessionId(e)] == Session(scope, log) && !Already(log, e.id)
    ensures Goes(State(rows, sessions, Claimed(e)), [Open(scope), Append],
                 State(rows, Opened(sessions, e, scope)[SessionId(e) := Session(scope, log + [EntryOf(e)])],
                       Reviewing(e)))
  {
    hide SessionId; hide EntryOf; hide Already;
    var s := State(rows, sessions, Claimed(e));
    var mid := After(s, Open(scope));
    Two(s, Open(scope), mid, Append);
  }

  /** A crash, a recovery, and the event is claimed again. */
  lemma ComesBack(base: seq<Row>, sessions: map<string, Session>, e: Event, attempts: nat, recoveries: nat)
    requires Settled(base, e)
    ensures Goes(State(base + [Row(e, Processing, attempts, recoveries)], sessions, Reviewing(e)),
                 [Crash, Recover] + [Claim],
                 State(base + [Row(e, Processing, attempts + 1, recoveries + 1)], sessions, Claimed(e)))
  {
    var rows := base + [Row(e, Processing, attempts, recoveries)];
    var back := base + [Row(e, Queued, attempts, recoveries + 1)];
    var s := State(rows, sessions, Reviewing(e));
    var s1, s2 := State(rows, sessions, Idle), State(back, sessions, Idle);
    assert Recovered(rows) == back;
    NextIsClaimed(base, Row(e, Queued, attempts, recoveries + 1));
    hide Settled; hide ClaimFrom; hide Recovered;
    var last := State(base + [Row(e, Processing, attempts + 1, recoveries + 1)], sessions, Claimed(e));
    assert After(s2, Claim) == last;
    Two(s, Crash, s1, Recover);
    One(s2, Claim);
    Then(s, [Crash, Recover], s2, [Claim], last);
  }

  lemma Finishes(base: seq<Row>, sessions: map<string, Session>, e: Event)
    requires Settled(base, e)
    ensures Goes(State(base + [Row(e, Processing, 1, 0)], sessions, Reviewing(e)), [Review, MarkProcessed],
                 State(base + [Row(e, Processed, 1, 0)], sessions, Idle))
  {
    var rows := base + [Row(e, Processing, 1, 0)];
    var s, mid := State(rows, sessions, Reviewing(e)), State(rows, sessions, Finishing(e));
    assert Find(rows, e.id) == Some(|base|) by {
      forall k | 0 <= k < |base| ensures rows[k].event.id != e.id { assert rows[k] == base[k]; }
      assert rows[|base|].event.id == e.id;
    }
    hide Settled; hide Find;
    assert rows[|base| := Row(e, Processed, 1, 0)] == base + [Row(e, Processed, 1, 0)];
    Two(s, Review, mid, MarkProcessed);
  }

  // ----- one event after the other -----

  function Arrivals(steps: seq<Step>): set<Event> {
    set i | 0 <= i < |steps| && steps[i].Ingest? :: steps[i].incoming
  }

  lemma OneArrival(steps: seq<Step>, x: Event)
    requires |steps| > 0 && steps[0] == Ingest(x) && forall i :: 0 < i < |steps| ==> !steps[i].Ingest?
    ensures Arrivals(steps) == {x}
  {
    assert steps[0].incoming in Arrivals(steps);
  }

  lemma NoArrivals()
    ensures Arrivals([]) == {}
  {
  }

  lemma ArrivalsOf(a: seq<Step>, b: seq<Step>)
    ensures Arrivals(a + b) == Arrivals(a) + Arrivals(b)
  {
    var steps := a + b;
    forall x | x in Arrivals(a) + Arrivals(b) ensures x in Arrivals(steps) {
      if x in Arrivals(a) {
        var i :| 0 <= i < |a| && a[i].Ingest? && a[i].incoming == x;
        assert steps[i].incoming == x;
      } else {
        var i :| 0 <= i < |b| && b[i].Ingest? && b[i].incoming == x;
        assert steps[|a| + i].incoming == x;
      }
    }
  }

  lemma ArrivalsAreHonest(steps: seq<Step>, e: Event)
    requires forall y :: y in Arrivals(steps) ==> y == e || Honest(y)
    ensures OthersHonest(steps, e)
  {
    forall i | 0 <= i < |steps| && steps[i].Ingest? ensures steps[i].incoming == e || Honest(steps[i].incoming) {
      assert steps[i].incoming in Arrivals(steps);
    }
  }

  /** The sessions after an event has been projected. */
  function Projected(sessions: map<string, Session>, x: Event): map<string, Session> {
    var open := Opened(sessions, x, SCOPE);
    if x.kind == Message && !Already(open[SessionId(x)].log, x.id) then
      open[SessionId(x) := Session(SCOPE, open[SessionId(x)].log + [EntryOf(x)])]
    else open
  }

  /** The event arrives, is claimed, projected and marked processed. */
  lemma Passes(base: seq<Row>, sessions: map<string, Session>, x: Event) returns (steps: seq<Step>)
    requires Settled(base, x) && x.isFinal && Normalised(x) && ScopeFits(sessions, x, SCOPE)
    ensures Goes(State(base, sessions, Idle), steps,
                 State(base + [Row(x, Processed, 1, 0)], Projected(sessions, x), Idle))
    ensures Arrivals(steps) == {x}
  {
    hide Settled; hide SessionId; hide Goes; hide Already; hide EntryOf; hide Normalised;
    var s0, rows := State(base, sessions, Idle), base + [Row(x, Processing, 1, 0)];
    var claimed, reviewing := State(rows, sessions, Claimed(x)), State(rows, Projected(sessions, x), Reviewing(x));
    Arrives(base, sessions, x);
    var log := Opened(sessions, x, SCOPE)[SessionId(x)].log;
    var middle;
    if x.kind == Message && !Already(log, x.id) {
      middle := [Open(SCOPE), Append];
      IsAppended(rows, sessions, x, SCOPE, log);
    } else {
      middle := [Open(SCOPE)];
      One(claimed, Open(SCOPE));
    }
    Finishes(base, Projected(sessions, x), x);
    hide Projected;
    Then(s0, [Ingest(x), Claim], claimed, middle, reviewing);
    Then(s0, [Ingest(x), Claim] + middle, reviewing, [Review, MarkProcessed],
         State(base + [Row(x, Processed, 1, 0)], Projected(sessions, x), Idle));
    steps := [Ingest(x), Claim] + middle + [Review, MarkProcessed];
    OneArrival(steps, x);
  }

  /** The rows so far are processed and no obstacle to x, but for its parent perhaps. */
  ghost predicate Apart(base: seq<Row>, x: Event) {
    forall k :: 0 <= k < |base| ==>
      base[k].status == Processed && base[k].event.id != x.id && !SameSlot(base[k].event, x)
  }

  /** The session with this log, or none yet and the empty log. */
  ghost predicate Logs(sessions: map<string, Session>, name: string, log: seq<Entry>) {
    && (name in sessions ==> sessions[name] == Session(SCOPE, log))
    && (name !in sessions ==> log == [])
  }

  /** An honest message that x can have for its parent. */
  ghost predicate Helps(h: Event, x: Event) {
    && Normalised(h) && h.isFinal && h.kind == Message && h.parent.None? && h.metadata == map[]
    && SamePlace(h, x) && x.parent == Some(h.messageId) && h.id != x.id && !SameSlot(h, x)
  }

  /** The parent that x may need. */
  function Helper(x: Event, id: string, version: int, content: string): Event {
    Event(id, Message, x.source, x.account, x.conversation, x.branch,
          if x.parent.Some? then x.parent.value else x.messageId, None, version, User, content, true, map[])
  }

  /** The rows and the log once the parent, if x needs one, has passed. */
  function RowsWith(base: seq<Row>, x: Event, h: Event): seq<Row> {
    if x.parent.Some? then base + [Row(h, Processed, 1, 0)] else base
  }

  function LogWith(log: seq<Entry>, x: Event, h: Event): seq<Entry> {
    if x.parent.Some? then log + [EntryOf(h)] else log
  }

  /** Whatever x needs for its parent passes first. */
  lemma ParentPasses(base: seq<Row>, sessions: map<string, Session>, x: Event, log: seq<Entry>, h: Event)
    returns (steps: seq<Step>, after: map<string, Session>)
    requires Apart(base, x) && x.kind == Message && Logs(sessions, SessionId(x), log)
    requires x.parent.Some? ==> Helps(h, x) && Apart(base, h) && !Already(log, h.id)
    ensures Goes(State(base, sessions, Idle), steps, State(RowsWith(base, x, h), after, Idle))
    ensures forall y :: y in Arrivals(steps) ==> Honest(y)
    ensures Settled(RowsWith(base, x, h), x) && Logs(after, SessionId(x), LogWith(log, x, h))
  {
    if x.parent.None? {
      steps, after := [], sessions;
      Nothing(State(base, sessions, Idle));
      NoArrivals();
      assert Settled(base, x);
    } else {
      assert Settled(base, h) && SessionId(h) == SessionId(x) && Honest(h);
      ParentSettles(base, x, h);
      hide Settled; hide SessionId; hide EntryOf; hide Already; hide Normalised; hide Honest; hide Goes; hide Apart;
      steps := Passes(base, sessions, h);
      after := Projected(sessions, h);
    }
  }

  lemma Nothing(s: State)
    ensures Goes(s, [], s)
  {
  }

  lemma ParentSettles(base: seq<Row>, x: Event, h: Event)
    requires Apart(base, x) && Helps(h, x) && x.kind == Message
    ensures Settled(base + [Row(h, Processed, 1, 0)], x)
  {
    var rows := base + [Row(h, Processed, 1, 0)];
    assert IsProcessedParent(rows[|base|], x);
    forall k | 0 <= k < |rows|
      ensures rows[k].status == Processed && rows[k].event.id != x.id && !SameSlot(rows[k].event, x)
    {
      if k < |base| { assert rows[k] == base[k]; }
    }
  }

  // ----- a dishonest event is appended twice -----

  /** Claimed, appended, crashed, recovered, claimed and appended again. */
  lemma ReplayFrom(base: seq<Row>, sessions: map<string, Session>, e: Event, log: seq<Entry>)
    returns (steps: seq<Step>, s: State)
    requires Normalised(e) && e.isFinal && e.kind == Message && !Honest(e) && Settled(base, e)
    requires Logs(sessions, SessionId(e), log) && !Already(log, e.id)
    ensures Goes(State(base, sessions, Idle), steps, s) && Arrivals(steps) == {e}
    ensures SessionId(e) in s.sessions && s.sessions[SessionId(e)].log == log + [EntryOf(e)] + [EntryOf(e)]
  {
    StillNotSeen(log, e);
    hide Settled; hide SessionId; hide EntryOf; hide Honest; hide Already; hide Goes; hide Normalised;
    var once := Opened(sessions, e, SCOPE)[SessionId(e) := Session(SCOPE, log + [EntryOf(e)])];
    var twice := once[SessionId(e) := Session(SCOPE, log + [EntryOf(e)] + [EntryOf(e)])];
    var s0, r1 := State(base, sessions, Idle), base + [Row(e, Processing, 1, 0)];
    var r2 := base + [Row(e, Processing, 2, 1)];
    assert Opened(once, e, SCOPE) == once;
    Arrives(base, sessions, e);
    IsAppended(r1, sessions, e, SCOPE, log);
    ComesBack(base, once, e, 1, 0);
    IsAppended(r2, once, e, SCOPE, log + [EntryOf(e)]);
    var a, b, c := [Ingest(e), Claim], [Open(SCOPE), Append], [Crash, Recover] + [Claim];
    s := State(r2, twice, Reviewing(e));
    Then(s0, a, State(r1, sessions, Claimed(e)), b, State(r1, once, Reviewing(e)));
    Then(s0, a + b, State(r1, once, Reviewing(e)), c, State(r2, once, Claimed(e)));
    Then(s0, a + b + c, State(r2, once, Claimed(e)), b, s);
    steps := a + b + c + b;
    OneArrival(steps, e);
  }

  lemma StillNotSeen(log: seq<Entry>, e: Event)
    requires !Honest(e) && !Already(log, e.id)
    ensures !Already(log + [EntryOf(e)], e.id)
  {
    assert !Tagged(EntryOf(e), e.id);
    hide EntryOf; hide Tagged;
  }

  lemma Replay(e: Event) returns (steps: seq<Step>)
    requires Normalised(e) && e.isFinal && e.kind == Message && !Honest(e)
    ensures Valid(START, steps) && OthersHonest(steps, e) && Twice(Exec(START, steps), e)
  {
    var h := HelperFor(e);
    hide Settled; hide Honest; hide SessionId; hide EntryOf; hide Already; hide Normalised; hide Arrivals; hide Apart;
    hide Helps;
    NoLogs(SessionId(e));
    var before, sessions := ParentPasses([], map[], e, [], h);
    var base, log := RowsWith([], e, h), LogWith([], e, h);
    var more, s := ReplayFrom(base, sessions, e, log);
    Then(START, before, State(base, sessions, Idle), more, s);
    ArrivalsOf(before, more);
    steps := before + more;
    ArrivalsAreHonest(steps, e);
    var end := s.sessions[SessionId(e)].log;
    assert end[|log|] == EntryOf(e) && end[|log| + 1] == EntryOf(e);
  }

  lemma NoLogs(name: string)
    ensures Logs(map[], name, [])
  {
  }

  /** A parent for e, if it needs one, that does not hide it. */
  lemma HelperFor(e: Event) returns (h: Event)
    requires Normalised(e) && e.kind == Message
    ensures Apart([], e) && Apart([], h) && !Already([], h.id) && (e.parent.Some? ==> Helps(h, e))
    ensures !Already(LogWith([], e, h), e.id)
  {
    h := Helper(e, e.id + "p", e.version + 1, "");
    HelperHelps(e, e.id + "p", e.version + 1, "");
    TagOf(h);
    assert |h.id| != |e.id|;
    hide Normalised; hide EntryOf; hide Tagged;
  }

  lemma HelperHelps(x: Event, id: string, version: int, content: string)
    requires Normalised(x) && Trimmed(id) && id != x.id && version > x.version && x.kind == Message
    ensures x.parent.Some? ==> Helps(Helper(x, id, version, content), x)
    ensures Honest(Helper(x, id, version, content)) && Normalised(Helper(x, id, version, content))
  {
  }
}
