/** Several workers on one inbox: when a recovery may run. */
module BridgePool {
  import opened Wrappers
  import opened BridgeTables
  import opened BridgeMachine
  import opened BridgeSafety
  import opened BridgeTags

  datatype Pool = Pool(rows: seq<Row>, sessions: map<string, Session>, workers: seq<Worker>)

  /** A statement of one of the workers, or an arrival or a recovery. */
  datatype Act = Act(worker: nat, step: Step)

  function View(s: Pool, i: nat): State
    requires i < |s.workers|
  {
    State(s.rows, s.sessions, s.workers[i])
  }

  predicate CanAct(s: Pool, act: Act) {
    act.worker < |s.workers| && Enabled(View(s, act.worker), act.step)
  }

  function Next(s: Pool, act: Act): Pool
    requires CanAct(s, act)
  {
    var v := After(View(s, act.worker), act.step);
    Pool(v.rows, v.sessions, s.workers[act.worker := v.worker])
  }

  ghost predicate Valid(s: Pool, acts: seq<Act>)
    decreases |acts|
  {
    acts == [] || (CanAct(s, acts[0]) && Valid(Next(s, acts[0]), acts[1..]))
  }

  ghost function Exec(s: Pool, acts: seq<Act>): Pool
    requires Valid(s, acts)
    decreases |acts|
  {
    if acts == [] then s else Exec(Next(s, acts[0]), acts[1..])
  }

  function Start(n: nat): Pool {
    Pool([], map[], seq(n, _ => Idle))
  }

  predicate InFlight(s: Pool, i: nat)
    requires i < |s.workers|
  {
    !s.workers[i].Idle? && IsProcessing(s.rows, s.workers[i].event.id)
  }

  /** A recovery that puts back the event of a worker that is still at it. */
  ghost predicate Snatches(s: Pool, act: Act) {
    act.step.Recover? && exists i: nat :: i < |s.workers| && InFlight(s, i)
  }

  ghost predicate NeverSnatches(s: Pool, acts: seq<Act>)
    requires Valid(s, acts)
    decreases |acts|
  {
    acts == [] || (!Snatches(s, acts[0]) && NeverSnatches(Next(s, acts[0]), acts[1..]))
  }

  ghost predicate Honestly(acts: seq<Act>) {
    forall i :: 0 <= i < |acts| && acts[i].step.Ingest? ==> Honest(acts[i].step.incoming)
  }

  // ----- the invariant -----

  /** The event is being processed. */
  ghost predicate Owned(rows: seq<Row>, e: Event) {
    e.isFinal && exists k :: 0 <= k < |rows| && rows[k].event == e && rows[k].status == Processing
  }

  /** Every worker is as it would be alone, and no two are on the same event. */
  ghost predicate PoolInv(s: Pool) {
    && |s.workers| > 0
    && (forall i :: 0 <= i < |s.workers| ==> Inv(View(s, i)))
    && (forall i :: 0 <= i < |s.workers| && !s.workers[i].Idle? ==> Owned(s.rows, s.workers[i].event))
    && forall i, j :: 0 <= i < j < |s.workers| && !s.workers[i].Idle? && !s.workers[j].Idle? ==>
         s.workers[i].event.id != s.workers[j].event.id
  }

  /** Nothing changes for the event in the rows and the logs. */
  ghost predicate Calm(a: State, b: State, e: Event) {
    && |a.rows| == |b.rows| && Extends(a.rows, b.rows)
    && (forall k :: 0 <= k < |a.rows| && a.rows[k].event.id == e.id ==> b.rows[k] == a.rows[k])
    && (forall k :: 0 <= k < |a.rows| ==> a.rows[k].event.id == b.rows[k].event.id)
    && forall name :: name in a.sessions ==>
         name in b.sessions && CalmLog(a.sessions[name].log, b.sessions[name].log, e)
  }

  ghost predicate CalmLog(a: seq<Entry>, b: seq<Entry>, e: Event) {
    a <= b && (Already(b, e.id) ==> Already(a, e.id))
  }

  lemma OwnedStays(a: State, b: State, e: Event)
    requires Calm(a, b, e) && Owned(a.rows, e)
    ensures Owned(b.rows, e)
  {
    hide Extends; hide CalmLog;
  }

  lemma PresentInMore(a: State, b: State, e: Event)
    requires Calm(a, b, e) && Present(a.sessions, e)
    ensures Present(b.sessions, e)
  {
    hide EntryOf; hide SessionId; hide Extends;
    var name := SessionId(e);
    assert CalmLog(a.sessions[name].log, b.sessions[name].log, e);
  }

  /** A worker does not notice what others do. */
  lemma WorkerStays(a: State, b: State, w: Worker)
    requires RowsOk(a.rows) && !w.Idle? && Calm(a, b, w.event) && WorkerOk(a.(worker := w)) && Owned(a.rows, w.event)
    ensures WorkerOk(b.(worker := w))
  {
    var e := w.event;
    OwnedStays(a, b, e);
    ProcessedParentStays(a.rows, b.rows, e);
    if w.Reviewing? || w.Finishing? { if e.kind == Message { PresentInMore(a, b, e); } }
    if w.Appending? {
      var name := SessionId(e);
      assert CalmLog(a.sessions[name].log, b.sessions[name].log, e);
    }
    hide RowsOk; hide ParentProcessed; hide Extends; hide Already; hide Present; hide SessionId; hide CalmLog;
  }

  // ----- the steps of one worker are calm for the others -----

  lemma NoChange(a: State, b: State, e: Event)
    requires a.rows == b.rows && a.sessions == b.sessions
    ensures Calm(a, b, e)
  {
    ExtendsSelf(a.rows);
    hide Extends;
  }

  lemma ClaimIsCalm(v: State, e: Event)
    requires Inv(v) && Enabled(v, Claim) && Owned(v.rows, e)
    ensures Calm(v, After(v, Claim), e)
    ensures After(v, Claim).worker.event.id != e.id && Owned(After(v, Claim).rows, After(v, Claim).worker.event)
  {
    NextKeepsInv(v, Claim);
    var c := ClaimFrom(v.rows, 0).value;
    assert RowOk(v.rows[c]);
    hide LogsOk; hide ProcessedPresent; hide WorkerOk; hide Extends; hide ParentProcessed;
    assert forall name :: name in v.sessions ==> CalmLog(v.sessions[name].log, v.sessions[name].log, e);
  }

  lemma AppendIsCalm(v: State, e: Event)
    requires Inv(v) && Enabled(v, Append) && v.worker.event.id != e.id
    ensures Calm(v, After(v, Append), e)
  {
    var w := v.worker.event;
    HonestHeld(v.rows, w);
    TagOf(w);
    ExtendsSelf(v.rows);
    var b := After(v, Append);
    hide Inv; hide EntryOf; hide SessionId; hide Tagged; hide Extends; hide Honest;
    forall name | name in v.sessions ensures CalmLog(v.sessions[name].log, b.sessions[name].log, e) {
      if name == SessionId(w) { AppendedOther(v.sessions[name].log, w, e); }
    }
  }

  lemma AppendedOther(log: seq<Entry>, w: Event, e: Event)
    requires !Tagged(EntryOf(w), e.id)
    ensures CalmLog(log, log + [EntryOf(w)], e)
  {
    hide Tagged; hide EntryOf;
    var more := log + [EntryOf(w)];
    if Already(more, e.id) {
      var j :| 0 <= j < |more| && Tagged(more[j], e.id);
      assert more[j] == log[j];
    }
  }

  lemma SettleIsCalm(v: State, step: Step, e: Event)
    requires Inv(v) && Enabled(v, step) && (step.MarkProcessed? || step.WriteStatus?) && v.worker.event.id != e.id
    ensures Calm(v, After(v, step), e)
  {
    NextKeepsInv(v, step);
    var b := After(v, step);
    hide Inv; hide Extends;
    assert forall name :: name in v.sessions ==> CalmLog(v.sessions[name].log, b.sessions[name].log, e);
  }

  lemma OpenIsCalm(v: State, scope: Scope, e: Event)
    requires Enabled(v, Open(scope))
    ensures Calm(v, After(v, Open(scope)), e)
  {
    ExtendsSelf(v.rows);
    hide Extends; hide SessionId; hide Already;
  }

  /** The worker's own event stays its own until it is done with it. */
  lemma StepIsCalm(v: State, step: Step, e: Event)
    requires Inv(v) && Enabled(v, step) && !step.Ingest? && !step.Recover? && Owned(v.rows, e)
    requires v.worker.Idle? || v.worker.event.id != e.id
    ensures Calm(v, After(v, step), e)
  {
    match step {
      case Claim => ClaimIsCalm(v, e);
      case Open(scope) => OpenIsCalm(v, scope, e);
      case Append => AppendIsCalm(v, e);
      case MarkProcessed => SettleIsCalm(v, step, e);
      case WriteStatus => SettleIsCalm(v, step, e);
      case ReadAttempts => NoChange(v, After(v, step), e);
      case Review => NoChange(v, After(v, step), e);
      case Raise(retry) => NoChange(v, After(v, step), e);
      case Crash => NoChange(v, After(v, step), e);
    }
  }

  lemma OwnStep(v: State, step: Step)
    requires Inv(v) && Enabled(v, step) && !step.Ingest? && !step.Recover?
    requires !v.worker.Idle? ==> Owned(v.rows, v.worker.event)
    ensures var b := After(v, step);
            !b.worker.Idle? ==>
              && Owned(b.rows, b.worker.event)
              && (!step.Claim? ==> !v.worker.Idle? && b.worker.event == v.worker.event)
  {
    if step.Claim? {
      var c := ClaimFrom(v.rows, 0).value;
      assert RowOk(v.rows[c]);
      assert ClaimedRows(v.rows, c)[c].status == Processing;
    }
    hide Inv; hide Held; hide SetStatus; hide Find; hide ParentProcessed; hide ClaimFrom;
  }

  // ----- arrivals and recoveries -----

  lemma IngestKeepsOwned(rows: seq<Row>, x: Event, e: Event)
    requires Owned(rows, e)
    ensures Owned(Ingested(rows, x), e)
  {
    var k :| 0 <= k < |rows| && rows[k].event == e && rows[k].status == Processing;
    assert Ingested(rows, x)[k] == rows[k];
  }

  lemma IngestKeepsPool(s: Pool, act: Act)
    requires PoolInv(s) && CanAct(s, act) && act.step.Ingest? && Honest(act.step.incoming)
    ensures PoolInv(Next(s, act))
  {
    var next := Next(s, act);
    hide Inv; hide Owned; hide Ingested; hide Normalised; hide Honest;
    assert next.workers == s.workers;
    forall i | 0 <= i < |s.workers| ensures Inv(View(next, i)) {
      NextKeepsInv(View(s, i), act.step);
    }
    forall i | 0 <= i < |s.workers| && !s.workers[i].Idle? ensures Owned(next.rows, s.workers[i].event) {
      IngestKeepsOwned(s.rows, act.step.incoming, s.workers[i].event);
    }
  }

  lemma OwnedIsInFlight(s: Pool, i: nat)
    requires PoolInv(s) && i < |s.workers| && !s.workers[i].Idle?
    ensures InFlight(s, i)
  {
    var e := s.workers[i].event;
    assert Inv(View(s, i)) && Owned(s.rows, e);
    var k :| 0 <= k < |s.rows| && s.rows[k].event == e && s.rows[k].status == Processing;
    assert Find(s.rows, e.id) == Some(k);
  }

  lemma RecoverKeepsPool(s: Pool, act: Act)
    requires PoolInv(s) && CanAct(s, act) && act.step.Recover? && !Snatches(s, act)
    ensures PoolInv(Next(s, act))
  {
    var next := Next(s, act);
    forall i | 0 <= i < |s.workers| ensures s.workers[i].Idle? {
      if !s.workers[i].Idle? { OwnedIsInFlight(s, i); }
    }
    hide Inv; hide Owned; hide Recovered;
    assert next.workers == s.workers;
    forall i | 0 <= i < |s.workers| ensures Inv(View(next, i)) {
      NextKeepsInv(View(s, i), act.step);
    }
  }

  // ----- a step of one worker -----

  lemma OthersKeepInv(s: Pool, act: Act, i: nat)
    requires PoolInv(s) && CanAct(s, act) && !act.step.Ingest? && !act.step.Recover?
    requires i < |s.workers| && i != act.worker
    ensures Inv(View(Next(s, act), i))
    ensures !s.workers[i].Idle? ==> Owned(Next(s, act).rows, s.workers[i].event)
    ensures !s.workers[i].Idle? && !Next(s, act).workers[act.worker].Idle? ==>
              s.workers[i].event.id != Next(s, act).workers[act.worker].event.id
  {
    var v, w := View(s, act.worker), s.workers[i];
    var b := After(v, act.step);
    assert Inv(v) && Inv(View(s, i));
    NextKeepsInv(v, act.step);
    InvRows(b);
    if !w.Idle? {
      assert v.worker.Idle? || v.worker.event.id != w.event.id;
      assert WorkerOk(v.(worker := w)) by { WorkerPart(View(s, i)); }
      InvRows(v);
      StepIsCalm(v, act.step, w.event);
      WorkerStays(v, b, w);
      OwnedStays(v, b, w.event);
      OwnStep(v, act.step);
      if act.step.Claim? { ClaimIsCalm(v, w.event); }
    }
    hide RowsOk; hide LogsOk; hide ProcessedPresent; hide Owned; hide After; hide Enabled; hide Calm;
  }

  lemma WorkerPart(s: State)
    requires Inv(s)
    ensures WorkerOk(s)
  {
  }

  lemma WorkKeepsPool(s: Pool, act: Act)
    requires PoolInv(s) && CanAct(s, act) && !act.step.Ingest? && !act.step.Recover?
    ensures PoolInv(Next(s, act))
  {
    var next := Next(s, act);
    var k := act.worker;
    NextKeepsInv(View(s, k), act.step);
    OwnStep(View(s, k), act.step);
    forall i | 0 <= i < |s.workers| && i != k
      ensures Inv(View(next, i)) && (!s.workers[i].Idle? ==> Owned(next.rows, s.workers[i].event))
      ensures !s.workers[i].Idle? && !next.workers[k].Idle? ==> s.workers[i].event.id != next.workers[k].event.id
    {
      OthersKeepInv(s, act, i);
    }
    assert View(next, k) == After(View(s, k), act.step);
    hide Inv; hide Owned; hide After; hide Enabled;
  }

  lemma ActKeepsPool(s: Pool, act: Act)
    requires PoolInv(s) && CanAct(s, act) && (act.step.Ingest? ==> Honest(act.step.incoming)) && !Snatches(s, act)
    ensures PoolInv(Next(s, act))
  {
    hide PoolInv; hide CanAct; hide Honest; hide Snatches;
    if act.step.Ingest? { IngestKeepsPool(s, act); }
    else if act.step.Recover? { RecoverKeepsPool(s, act); }
    else { WorkKeepsPool(s, act); }
  }

  lemma {:induction false} PoolKeepsInv(s: Pool, acts: seq<Act>)
    requires PoolInv(s) && Valid(s, acts) && Honestly(acts) && NeverSnatches(s, acts)
    ensures PoolInv(Exec(s, acts))
    decreases |acts|
  {
    hide PoolInv; hide CanAct; hide Honest; hide Snatches; hide Next;
    if acts != [] {
      forall i | 0 <= i < |acts[1..]| ensures acts[1..][i] == acts[i + 1] {}
      assert acts[0].step.Ingest? ==> Honest(acts[0].step.incoming);
      ActKeepsPool(s, acts[0]);
      PoolKeepsInv(Next(s, acts[0]), acts[1..]);
    }
  }

  lemma StartPool(n: nat)
    requires n > 0
    ensures PoolInv(Start(n))
  {
    var s := Start(n);
    forall i | 0 <= i < n ensures Inv(View(s, i)) {
      StartInv();
      assert View(s, i) == START;
    }
    hide Inv;
  }

  ghost predicate TwiceIn(s: Pool, e: Event) {
    Twice(State(s.rows, s.sessions, Idle), e)
  }

  /** Any number of workers: as long as no recovery puts back an event that a worker is still at, at most once. */
  lemma OnceWithoutSnatching(n: nat, acts: seq<Act>, e: Event)
    requires Valid(Start(n), acts) && Honestly(acts) && NeverSnatches(Start(n), acts) && Honest(e)
    ensures !TwiceIn(Exec(Start(n), acts), e)
  {
    hide PoolInv; hide Honest; hide Inv; hide Twice; hide NeverSnatches; hide Start;
    if n == 0 {
      NobodyActs(acts);
    } else {
      StartPool(n);
      PoolKeepsInv(Start(n), acts);
      var s := Exec(Start(n), acts);
      SomeView(s);
      OnceInState(View(s, 0), e);
      SameTwice(View(s, 0), e);
    }
  }

  lemma SomeView(s: Pool)
    requires PoolInv(s)
    ensures |s.workers| > 0 && Inv(View(s, 0))
  {
    hide Inv;
  }

  lemma SameTwice(s: State, e: Event)
    ensures Twice(s, e) <==> Twice(s.(worker := Idle), e)
  {
  }

  lemma ActsNeedWorkers(s: Pool, acts: seq<Act>)
    requires Valid(s, acts)
    ensures acts == [] || |s.workers| > 0
  {
  }

  lemma NobodyActs(acts: seq<Act>)
    requires Valid(Start(0), acts)
    ensures forall e :: !TwiceIn(Exec(Start(0), acts), e)
  {
    ActsNeedWorkers(Start(0), acts);
  }

  // ----- and with one such recovery, twice -----

  ghost predicate Leads(s: Pool, acts: seq<Act>, next: Pool) {
    Valid(s, acts) && Exec(s, acts) == next
  }

  lemma Single(s: Pool, act: Act)
    requires CanAct(s, act)
    ensures Leads(s, [act], Next(s, act))
  {
    hide CanAct; hide Next;
    var next := Next(s, act);
    assert [act][1..] == [] && Valid(next, []) && Exec(next, []) == next;
    assert Valid(s, [act]) && Exec(s, [act]) == next;
  }

  lemma {:induction false} Chain(s: Pool, a: seq<Act>, mid: Pool, b: seq<Act>, next: Pool)
    requires Leads(s, a, mid) && Leads(mid, b, next)
    ensures Leads(s, a + b, next)
    decreases |a|
  {
    hide CanAct; hide Next;
    if a == [] {
      assert a + b == b;
    } else {
      assert (a + b)[0] == a[0] && (a + b)[1..] == a[1..] + b;
      Chain(Next(s, a[0]), a[1..], mid, b, next);
    }
  }

  /** The first of two workers acts alone. */
  function Alone(steps: seq<Step>): (acts: seq<Act>)
    ensures |acts| == |steps| && forall i :: 0 <= i < |steps| ==> acts[i] == Act(0, steps[i])
  {
    seq(|steps|, i requires 0 <= i < |steps| => Act(0, steps[i]))
  }

  function Both(v: State, other: Worker): Pool {
    Pool(v.rows, v.sessions, [v.worker, other])
  }

  lemma {:induction false} AloneLeads(v: State, steps: seq<Step>, end: State, other: Worker)
    requires Goes(v, steps, end)
    ensures Leads(Both(v, other), Alone(steps), Both(end, other))
    decreases |steps|
  {
    var s, acts := Both(v, other), Alone(steps);
    if steps == [] {
      assert acts == [];
    } else {
      var next := After(v, steps[0]);
      assert View(s, 0) == v && acts[0] == Act(0, steps[0]) && acts[1..] == Alone(steps[1..]);
      assert Next(s, acts[0]) == Both(next, other);
      hide Enabled; hide After;
      assert Goes(next, steps[1..], end);
      AloneLeads(next, steps[1..], end, other);
    }
  }

  lemma SecondActs(v: State, other: Worker, step: Step)
    requires Enabled(v.(worker := other), step)
    ensures var b := After(v.(worker := other), step);
            Leads(Both(v, other), [Act(1, step)], Both(b.(worker := v.worker), b.worker))
  {
    var s, act := Both(v, other), Act(1, step);
    assert View(s, 1) == v.(worker := other);
    Single(s, act);
    hide Enabled; hide After;
    var b := After(v.(worker := other), step);
    assert Next(s, act) == Both(b.(worker := v.worker), b.worker);
  }

  /** The event is put back while the first worker is about to append it. */
  lemma PutBackTooEarly(base: seq<Row>, sessions: map<string, Session>, e: Event) returns (acts: seq<Act>)
    requires Normalised(e) && e.isFinal && e.kind == Message && Settled(base, e) && ScopeFits(sessions, e, SCOPE)
    requires !Already(Opened(sessions, e, SCOPE)[SessionId(e)].log, e.id)
    ensures Leads(Both(State(base, sessions, Idle), Idle), acts,
                  Both(State(base + [Row(e, Queued, 1, 1)], Opened(sessions, e, SCOPE), Appending(e)), Idle))
    ensures forall i :: 0 <= i < |acts| && acts[i].step.Ingest? ==> acts[i].step.incoming == e
  {
    Arrives(base, sessions, e);
    PutBack(base, e);
    hide Settled; hide SessionId; hide Already; hide Goes; hide Normalised; hide Leads; hide Recovered;
    var open, rows := Opened(sessions, e, SCOPE), base + [Row(e, Processing, 1, 0)];
    var s0, claimed := State(base, sessions, Idle), State(rows, sessions, Claimed(e));
    var ready := State(rows, open, Appending(e));
    var back := State(base + [Row(e, Queued, 1, 1)], open, Appending(e));
    Two(claimed, Open(SCOPE), ready, Recover);
    Then(s0, [Ingest(e), Claim], claimed, [Open(SCOPE), Recover], back);
    var steps := [Ingest(e), Claim] + [Open(SCOPE), Recover];
    AloneLeads(s0, steps, back, Idle);
    acts := Alone(steps);
  }

  lemma PutBack(base: seq<Row>, e: Event)
    requires Settled(base, e)
    ensures Recovered(base + [Row(e, Processing, 1, 0)]) == base + [Row(e, Queued, 1, 1)]
  {
    hide ParentProcessed; hide SameSlot;
    var rows := base + [Row(e, Processing, 1, 0)];
    assert forall k :: 0 <= k < |base| ==> rows[k] == base[k] && Requeued(rows[k]) == base[k];
    assert Requeued(rows[|base|]) == Row(e, Queued, 1, 1);
    hide Settled; hide Requeued;
  }

  lemma TakenAgain(base: seq<Row>, open: map<string, Session>, e: Event)
    requires Settled(base, e)
    ensures var v := State(base + [Row(e, Queued, 1, 1)], open, Idle);
            Enabled(v, Claim) && After(v, Claim) == State(base + [Row(e, Processing, 2, 1)], open, Claimed(e))
  {
    NextIsClaimed(base, Row(e, Queued, 1, 1));
    hide Settled; hide ClaimFrom;
    var rows := base + [Row(e, Queued, 1, 1)];
    assert ClaimedRows(rows, |base|) == base + [Row(e, Processing, 2, 1)];
  }

  /** Then the second worker takes it, and both append it. */
  lemma BothAppend(base: seq<Row>, open: map<string, Session>, e: Event, log: seq<Entry>)
    returns (acts: seq<Act>, s: Pool)
    requires e.kind == Message && Settled(base, e)
    requires SessionId(e) in open && open[SessionId(e)] == Session(SCOPE, log) && !Already(log, e.id)
    ensures Leads(Both(State(base + [Row(e, Queued, 1, 1)], open, Appending(e)), Idle), acts, s)
    ensures SessionId(e) in s.sessions && s.sessions[SessionId(e)].log == log + [EntryOf(e)] + [EntryOf(e)]
    ensures forall i :: 0 <= i < |acts| ==> !acts[i].step.Ingest?
  {
    TakenAgain(base, open, e);
    hide Settled; hide EntryOf; hide SessionId; hide Already; hide Goes; hide Leads; hide ClaimFrom; hide ClaimedRows;
    var back := State(base + [Row(e, Queued, 1, 1)], open, Appending(e));
    var taken := State(base + [Row(e, Processing, 2, 1)], open, Appending(e));
    SecondActs(back, Idle, Claim);
    SecondActs(taken, Claimed(e), Open(SCOPE));
    Chain(Both(back, Idle), [Act(1, Claim)], Both(taken, Claimed(e)), [Act(1, Open(SCOPE))], Both(taken, Appending(e)));
    var more;
    more, s := AppendAppend(taken, e, log);
    acts := [Act(1, Claim)] + [Act(1, Open(SCOPE))] + more;
    Chain(Both(back, Idle), [Act(1, Claim)] + [Act(1, Open(SCOPE))], Both(taken, Appending(e)), more, s);
  }

  lemma AppendAppend(v: State, e: Event, log: seq<Entry>) returns (acts: seq<Act>, s: Pool)
    requires v.worker == Appending(e) && SessionId(e) in v.sessions && v.sessions[SessionId(e)] == Session(SCOPE, log)
    ensures Leads(Both(v, Appending(e)), acts, s)
    ensures SessionId(e) in s.sessions && s.sessions[SessionId(e)].log == log + [EntryOf(e)] + [EntryOf(e)]
    ensures forall i :: 0 <= i < |acts| ==> !acts[i].step.Ingest?
  {
    hide EntryOf; hide SessionId; hide Goes; hide Leads;
    var once := After(v, Append);
    One(v, Append);
    AloneLeads(v, [Append], once, Appending(e));
    SecondActs(once, Appending(e), Append);
    s := Both(After(once.(worker := Appending(e)), Append).(worker := once.worker), Reviewing(e));
    Chain(Both(v, Appending(e)), Alone([Append]), Both(once, Appending(e)), [Act(1, Append)], s);
    acts := Alone([Append]) + [Act(1, Append)];
  }

  lemma AppendedByBoth(base: seq<Row>, sessions: map<string, Session>, e: Event, log: seq<Entry>)
    returns (acts: seq<Act>, s: Pool)
    requires Normalised(e) && e.isFinal && e.kind == Message && Settled(base, e)
    requires Logs(sessions, SessionId(e), log) && !Already(log, e.id)
    ensures Leads(Both(State(base, sessions, Idle), Idle), acts, s)
    ensures SessionId(e) in s.sessions && s.sessions[SessionId(e)].log == log + [EntryOf(e)] + [EntryOf(e)]
    ensures forall i :: 0 <= i < |acts| && acts[i].step.Ingest? ==> acts[i].step.incoming == e
  {
    hide Settled; hide EntryOf; hide SessionId; hide Already; hide Leads; hide Normalised;
    var open := Opened(sessions, e, SCOPE);
    assert open[SessionId(e)] == Session(SCOPE, log);
    var first := PutBackTooEarly(base, sessions, e);
    var second, end := BothAppend(base, open, e, log);
    var mid := Both(State(base + [Row(e, Queued, 1, 1)], open, Appending(e)), Idle);
    s := end;
    Chain(Both(State(base, sessions, Idle), Idle), first, mid, second, s);
    acts := first + second;
  }

  lemma BothStart()
    ensures Start(2) == Both(START, Idle)
  {
    assert Start(2).workers == [Idle, Idle];
  }

  /** Every final message can be appended twice by two workers, among honest events, with one recovery. */
  lemma SnatchedTwice(e: Event) returns (acts: seq<Act>)
    requires Normalised(e) && e.isFinal && e.kind == Message && Honest(e)
    ensures Valid(Start(2), acts) && Honestly(acts) && TwiceIn(Exec(Start(2), acts), e)
  {
    var h := HelperFor(e);
    hide Settled; hide Honest; hide SessionId; hide EntryOf; hide Already; hide Normalised; hide Goes; hide Apart;
    hide Helps; hide Arrivals; hide Honestly;
    NoLogs(SessionId(e));
    var before, sessions := ParentPasses([], map[], e, [], h);
    var base, log := RowsWith([], e, h), LogWith([], e, h);
    AloneLeads(START, before, State(base, sessions, Idle), Idle);
    var more, s := AppendedByBoth(base, sessions, e, log);
    BothStart();
    Chain(Start(2), Alone(before), Both(State(base, sessions, Idle), Idle), more, s);
    acts := Alone(before) + more;
    AllHonestly(before, more, e);
    var end := s.sessions[SessionId(e)].log;
    assert end[|log|] == EntryOf(e) && end[|log| + 1] == EntryOf(e);
    assert Twice(State(s.rows, s.sessions, Idle), e);
  }

  lemma AllHonestly(before: seq<Step>, more: seq<Act>, e: Event)
    requires Honest(e) && forall y :: y in Arrivals(before) ==> Honest(y)
    requires forall i :: 0 <= i < |more| && more[i].step.Ingest? ==> more[i].step.incoming == e
    ensures Honestly(Alone(before) + more)
  {
    hide Honest;
    var acts := Alone(before) + more;
    forall i | 0 <= i < |acts| && acts[i].step.Ingest? ensures Honest(acts[i].step.incoming) {
      if i < |before| { assert before[i].incoming in Arrivals(before); }
    }
  }

  /**
   With several workers an honest message is appended at most once in every run in which no recovery puts back an event
   that a worker is still at; without that condition two workers append it twice.
   */
  lemma RecoveryMustWait(e: Event)
    requires Normalised(e) && e.isFinal && e.kind == Message && Honest(e)
    ensures forall n: nat, acts ::
              Valid(Start(n), acts) && Honestly(acts) && NeverSnatches(Start(n), acts) ==>
                !TwiceIn(Exec(Start(n), acts), e)
    ensures exists acts :: Valid(Start(2), acts) && Honestly(acts) && TwiceIn(Exec(Start(2), acts), e)
  {
    hide Valid; hide Exec; hide Honestly; hide NeverSnatches; hide TwiceIn; hide Start; hide Honest; hide Normalised;
    forall n: nat, acts | Valid(Start(n), acts) && Honestly(acts) && NeverSnatches(Start(n), acts)
      ensures !TwiceIn(Exec(Start(n), acts), e)
    {
      OnceWithoutSnatching(n, acts, e);
    }
    var acts := SnatchedTwice(e);
  }
}
