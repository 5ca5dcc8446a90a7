/** What a caller gets that runs without interruption: the answer of `decide`, a published request, a listing. */
module DecisionAlone {
  import opened Wrappers
  import opened DecisionStore
  import opened DecisionSafety
  import opened DecisionRuns

  /** `count` steps of one process, with nothing in between. */
  function Turns(st: State, pid: nat, t: string, count: nat): State
    decreases count
  {
    if count == 0 then st else Turns(Next(st, Advance(pid, t)), pid, t, count - 1)
  }

  lemma {:induction false} TurnsAdd(st: State, pid: nat, t: string, m: nat, n: nat)
    ensures Turns(st, pid, t, m + n) == Turns(Turns(st, pid, t, m), pid, t, n)
    decreases m
  {
    hide Next;
    if m > 0 { TurnsAdd(Next(st, Advance(pid, t)), pid, t, m - 1, n); }
  }

  lemma OneTurn(st: State, pid: nat, t: string)
    ensures Turns(st, pid, t, 1) == Next(st, Advance(pid, t))
  {
    hide Next;
    assert Turns(Next(st, Advance(pid, t)), pid, t, 0) == Next(st, Advance(pid, t));
  }

  /** What `decide` answers, from the decisions that stand. */
  function Answer(d: Disk, c: Command, t: string): Outcome {
    var one, two := Slot(c.rq, 1), Slot(c.rq, 2);
    if !d.queue || c.rq !in d.requests then
      Error("request_not_found")
    else if two in d.files && !(one in d.files && d.files[one].command.action.Defer?) then Error("malformed_decision")
    else if Slot(c.rq, c.ordinal) in d.files then
      var stands := d.files[Slot(c.rq, c.ordinal)];
      if stands.command == c then Idempotent(stands) else Error("decision_slot_conflict")
    else if c.ordinal == 1 then Published(Event(c, t))
    else if one in d.files && d.files[one].command.action.Defer? && !c.action.Defer? then Published(Event(c, t))
    else Error("invalid_state_transition")
  }

  /** The process stands at `at`; nothing has been decided or answered since `base`. */
  ghost predicate Stands(base: State, st: State, pid: nat, c: Command, at: DecideAt) {
    && Inv(st) && pid in st.processes && st.processes[pid] == Deciding(c, at)
    && st.log == base.log && st.disk.files == base.disk.files
  }

  /** The process has answered. */
  ghost predicate Answered(base: State, st: State, pid: nat, c: Command, outcome: Outcome) {
    && pid !in st.processes && |st.log| == |base.log| + 1 && st.log[..|base.log|] == base.log
    && st.log[|base.log|].pid == pid && st.log[|base.log|].outcome == outcome
    && st.disk.files ==
         (if outcome.Published? then base.disk.files[Slot(c.rq, c.ordinal) := outcome.event] else base.disk.files)
    && (outcome.Published? || outcome.Idempotent? ==> Slot(c.rq, c.ordinal) in st.disk.filesDurable)
  }

  /** One step that goes on. */
  lemma GoesOn(base: State, st: State, pid: nat, c: Command, at: DecideAt, t: string, next: DecideAt)
    requires Stands(base, st, pid, c, at)
    requires var move := DecideMove(st.disk, c, at, t);
             move.To? && move.process == Deciding(c, next) && move.disk.files == st.disk.files
    ensures Stands(base, Turns(st, pid, t, 1), pid, c, next)
    ensures Turns(st, pid, t, 1).disk == DecideMove(st.disk, c, at, t).disk
  {
    OneTurn(st, pid, t);
    StepInv(st, Advance(pid, t));
    hide Inv; hide DecideMove;
  }

  /** One step that answers. */
  lemma Answers(base: State, st: State, pid: nat, c: Command, at: DecideAt, t: string)
    requires Stands(base, st, pid, c, at)
    requires var move := DecideMove(st.disk, c, at, t);
             && move.Finish? && move.disk.files == st.disk.files && !move.outcome.Published?
             && (move.outcome.Idempotent? ==> SlotOf(c) in move.disk.filesDurable)
    ensures Answered(base, Turns(st, pid, t, 1), pid, c, DecideMove(st.disk, c, at, t).outcome)
  {
    OneTurn(st, pid, t);
    hide Inv; hide DecideMove;
  }

  lemma MissingAnswers(st: State, pid: nat, c: Command, t: string)
    requires Stands(st, st, pid, c, Validate) && !(st.disk.queue && c.rq in st.disk.requests)
    ensures Answered(st, Turns(st, pid, t, 2), pid, c, Answer(st.disk, c, t))
  {
    GoesOn(st, st, pid, c, Validate, t, MissingRequest);
    var s1 := Turns(st, pid, t, 1);
    assert DiskOk(st.disk);
    NoFiles(st.disk, c.rq);
    NoEvents(s1.disk.files, c.rq);
    hide Inv; hide Reduce;
    Answers(st, s1, pid, c, MissingRequest, t);
    TurnsAdd(st, pid, t, 1, 1);
  }

  lemma NoFiles(d: Disk, rq: string)
    requires DiskOk(d) && !(d.queue && rq in d.requests)
    ensures Slot(rq, 1) !in d.files && Slot(rq, 2) !in d.files
  {
    assert Slot(rq, 1) in d.files ==> FileOk(d, Slot(rq, 1));
    assert Slot(rq, 2) in d.files ==> FileOk(d, Slot(rq, 2));
  }

  lemma NoEvents(files: map<Slot, Event>, rq: string)
    ensures EventsOf(files, rq) != map[] <==> Slot(rq, 1) in files || Slot(rq, 2) in files
    ensures 1 in EventsOf(files, rq) <==> Slot(rq, 1) in files
    ensures 2 in EventsOf(files, rq) <==> Slot(rq, 2) in files
  {
    var events := EventsOf(files, rq);
    assert 1 in events <==> Slot(rq, 1) in files;
    assert 2 in events <==> Slot(rq, 2) in files;
  }

  /** Up to the inspection only durability changes. */
  lemma ReachesInspect(st: State, pid: nat, c: Command, t: string) returns (n: nat)
    requires Stands(st, st, pid, c, Validate) && st.disk.queue && c.rq in st.disk.requests
    ensures Stands(st, Turns(st, pid, t, n), pid, c, Inspect(st.disk.decisions))
    ensures Turns(st, pid, t, n).disk.decisions == st.disk.decisions
  {
    GoesOn(st, st, pid, c, Validate, t, Namespace);
    var s1 := Turns(st, pid, t, 1);
    GoesOn(st, s1, pid, c, Namespace, t, BarrierQueue(st.disk.decisions));
    var s2 := Turns(s1, pid, t, 1);
    TurnsAdd(st, pid, t, 1, 1);
    if st.disk.decisions {
      GoesOn(st, s2, pid, c, BarrierQueue(true), t, BarrierDecisions);
      var s3 := Turns(s2, pid, t, 1);
      TurnsAdd(st, pid, t, 2, 1);
      GoesOn(st, s3, pid, c, BarrierDecisions, t, Inspect(true));
      TurnsAdd(st, pid, t, 3, 1);
      n := 4;
    } else {
      GoesOn(st, s2, pid, c, BarrierQueue(false), t, Inspect(false));
      TurnsAdd(st, pid, t, 2, 1);
      n := 3;
    }
  }

  /** What the inspection makes of the files. */
  lemma InspectIs(d: Disk, c: Command, t: string)
    requires DiskOk(d) && ValidCommand(c)
    ensures var move := DecideMove(d, c, Inspect(d.decisions), t);
            var one, two := Slot(c.rq, 1), Slot(c.rq, 2);
            && move.disk == d && !move.Linked?
            && (two in d.files && !(one in d.files && d.files[one].command.action.Defer?) ==>
                  move == Finish(d, Error("malformed_decision")))
            && (two in d.files && one in d.files && d.files[one].command.action.Defer? ==>
                  move == To(d, Deciding(c, CompareExisting(d.files[SlotOf(c)]))))
            && (two !in d.files && one in d.files && c.ordinal == 1 ==>
                  move == To(d, Deciding(c, CompareExisting(d.files[one]))))
            && (two !in d.files && one !in d.files && c.ordinal == 1 ==> move == To(d, Deciding(c, MakeDirectory(t))))
            && (two !in d.files && c.ordinal == 2 ==>
                  move == if one in d.files && d.files[one].command.action.Defer? && !c.action.Defer?
                          then To(d, Deciding(c, MakeDirectory(t))) else Finish(d, Error("invalid_state_transition")))
  {
    assert FileOk(d, Slot(c.rq, 1)) && FileOk(d, Slot(c.rq, 2));
    NoEvents(d.files, c.rq);
    assert Reduce(map[]) == Some(Pending);
    if !d.decisions { assert EventsOf(d.files, c.rq) == map[]; }
    var events := EventsOf(d.files, c.rq);
    assert forall k :: k in events ==> k == 1 || k == 2;
  }

  /** From the mkdir on everything goes through. */
  lemma PublishesFrom(base: State, st: State, pid: nat, c: Command, t: string) returns (n: nat)
    requires Stands(base, st, pid, c, MakeDirectory(t)) && SlotOf(c) !in st.disk.files
    ensures Answered(base, Turns(st, pid, t, n), pid, c, Published(Event(c, t)))
  {
    GoesOn(base, st, pid, c, MakeDirectory(t), t, BarrierRoot(t));
    var s1 := Turns(st, pid, t, 1);
    GoesOn(base, s1, pid, c, BarrierRoot(t), t, BarrierPublish(t));
    var s2 := Turns(s1, pid, t, 1);
    TurnsAdd(st, pid, t, 1, 1);
    GoesOn(base, s2, pid, c, BarrierPublish(t), t, Link(t));
    var s3 := Turns(s2, pid, t, 1);
    TurnsAdd(st, pid, t, 2, 1);
    LinksAndReports(base, s3, pid, c, t);
    TurnsAdd(st, pid, t, 3, 3);
    n := 6;
  }

  lemma LinksAndReports(base: State, st: State, pid: nat, c: Command, t: string)
    requires Stands(base, st, pid, c, Link(t)) && SlotOf(c) !in st.disk.files
    ensures Answered(base, Turns(st, pid, t, 3), pid, c, Published(Event(c, t)))
  {
    hide Inv; hide Reduce; hide EventsOf;
    var s1 := Next(st, Advance(pid, t));
    assert s1.processes[pid] == Deciding(c, SyncLinked(t)) && s1.disk.files == st.disk.files[SlotOf(c) := Event(c, t)];
    var s2 := Next(s1, Advance(pid, t));
    assert s2.processes[pid] == Deciding(c, ReadBack(t)) && s2.disk == SyncDecisions(s1.disk) && s2.log == st.log;
    var s3 := Next(s2, Advance(pid, t));
    hide Next;
    OneTurn(st, pid, t);
    OneTurn(s1, pid, t);
    OneTurn(s2, pid, t);
    TurnsAdd(st, pid, t, 1, 1);
    TurnsAdd(st, pid, t, 2, 1);
  }

  lemma InspectAnswers(base: State, st: State, pid: nat, c: Command, t: string) returns (n: nat)
    requires Stands(base, st, pid, c, Inspect(st.disk.decisions)) && ValidCommand(c)
    requires st.disk.queue && c.rq in st.disk.requests
    ensures Answered(base, Turns(st, pid, t, n), pid, c, Answer(st.disk, c, t))
  {
    var d := st.disk;
    assert DiskOk(d);
    InspectIs(d, c, t);
    var at := Inspect(d.decisions);
    var move := DecideMove(d, c, at, t);
    hide DiskOk; hide Inv; hide Reduce; hide EventsOf;
    if move.Finish? {
      Answers(base, st, pid, c, at, t);
      n := 1;
    } else if SlotOf(c) in d.files {
      var e := d.files[SlotOf(c)];
      GoesOn(base, st, pid, c, at, t, CompareExisting(e));
      var s1 := Turns(st, pid, t, 1);
      Answers(base, s1, pid, c, CompareExisting(e), t);
      TurnsAdd(st, pid, t, 1, 1);
      n := 2;
    } else {
      GoesOn(base, st, pid, c, at, t, MakeDirectory(t));
      var more := PublishesFrom(base, Turns(st, pid, t, 1), pid, c, t);
      TurnsAdd(st, pid, t, 1, more);
      n := 1 + more;
    }
  }

  /**
   In every reachable state, a valid call of `decide` that runs alone gets the answer that the standing decisions call
   for; published means that its file, and nothing else, has been added, durably.
   */
  lemma DecideAlone(st: State, pid: nat, c: Command, t: string) returns (n: nat)
    requires Inv(st) && pid in st.processes && st.processes[pid] == Deciding(c, Validate)
    ensures Answered(st, Turns(st, pid, t, n), pid, c, Answer(st.disk, c, t))
  {
    assert ProcessOk(st.disk, st.linker, pid, st.processes[pid]);
    if !(st.disk.queue && c.rq in st.disk.requests) {
      MissingAnswers(st, pid, c, t);
      n := 2;
    } else {
      var m := ReachesInspect(st, pid, c, t);
      var mid := Turns(st, pid, t, m);
      KeepsRequest(st, pid, t, m);
      hide Inv; hide Answered; hide ProcessOk; hide DecideMove;
      AnswerByFiles(st.disk, mid.disk, c, t);
      var k := InspectAnswers(st, mid, pid, c, t);
      TurnsAdd(st, pid, t, m, k);
      n := m + k;
    }
  }

  lemma {:induction false} KeepsRequest(st: State, pid: nat, t: string, n: nat)
    requires Inv(st)
    ensures Inv(Turns(st, pid, t, n)) && Grows(st.disk, Turns(st, pid, t, n).disk)
    decreases n
  {
    hide Inv; hide Next;
    if n > 0 {
      TurnsAdd(st, pid, t, n - 1, 1);
      var before := Turns(st, pid, t, n - 1);
      OneTurn(before, pid, t);
      KeepsRequest(st, pid, t, n - 1);
      StepInv(before, Advance(pid, t));
    }
  }

  lemma AnswerByFiles(a: Disk, b: Disk, c: Command, t: string)
    requires a.files == b.files && a.queue && b.queue && c.rq in a.requests && c.rq in b.requests
    ensures Answer(a, c, t) == Answer(b, c, t)
  {
  }

  /** A request that is published without interruption is there, durably. */
  lemma PublishAlone(st: State, pid: nat, rq: string, t: string)
    requires Inv(st) && pid in st.processes && st.processes[pid] == Publishing(rq, MakeQueue)
    ensures var end := Turns(st, pid, t, 4);
            && end.disk.queue && end.disk.queueDurable && rq in end.disk.requests && rq in end.disk.requestsDurable
            && end.disk.files == st.disk.files && end.disk.requests == st.disk.requests + {rq}
            && pid !in end.processes && end.log == st.log + [Return(pid, Publishing(rq, SyncRequest), Done)]
  {
    var s1 := Next(st, Advance(pid, t));
    assert s1.processes[pid] == Publishing(rq, SyncQueueEntry);
    var s2 := Next(s1, Advance(pid, t));
    assert s2.processes[pid] == Publishing(rq, LinkRequest) && s2.disk.queue && s2.disk.queueDurable;
    var s3 := Next(s2, Advance(pid, t));
    assert s3.processes[pid] == Publishing(rq, SyncRequest) && s3.disk.queue && s3.disk.queueDurable;
    var s4 := Next(s3, Advance(pid, t));
    hide Next; hide Inv;
    OneTurn(st, pid, t);
    OneTurn(s1, pid, t);
    OneTurn(s2, pid, t);
    OneTurn(s3, pid, t);
    TurnsAdd(st, pid, t, 1, 1);
    TurnsAdd(st, pid, t, 2, 1);
    TurnsAdd(st, pid, t, 3, 1);
  }

  /** A listing that runs alone over legal decisions comes through. */
  lemma ListAlone(st: State, pid: nat, t: string)
    requires Inv(st) && Legal(st.disk.files) && pid in st.processes && st.processes[pid] == Listing(1, GateQueue)
    ensures var end := Turns(st, pid, t, 5);
            && end.disk.files == st.disk.files && end.disk.requests == st.disk.requests
            && pid !in end.processes && |end.log| == |st.log| + 1 && end.log[|st.log|].outcome == Done
  {
    assert DiskOk(st.disk);
    ReduceIffLegal(st.disk.files);
    NoOrphans(st.disk);
    var d := st.disk;
    var d' := if d.queue then SyncQueue(d) else d;
    var d'' := if d.decisions then SyncDecisions(d') else d';
    assert d''.files == d.files && d''.requests == d.requests;
    hide Inv; hide Legal; hide DiskOk; hide Reduce; hide EventsOf; hide Orphans; hide Next; hide Turns;
    ListGoesOn(st, pid, t, GateQueue, GateDecisions(d.queue), d);
    ListGoesOn(Turns(st, pid, t, 1), pid, t, GateDecisions(d.queue), ReaderBarrier(d.queue, d.decisions), d);
    TurnsAdd(st, pid, t, 1, 1);
    ListGoesOn(Turns(st, pid, t, 2), pid, t, ReaderBarrier(d.queue, d.decisions),
               ScanDecisions(d.queue, d.decisions), d'');
    TurnsAdd(st, pid, t, 2, 1);
    var seen := if d.decisions then d.files else map[];
    ListGoesOn(Turns(st, pid, t, 3), pid, t, ScanDecisions(d.queue, d.decisions), ScanRequests(d.queue, seen), d'');
    TurnsAdd(st, pid, t, 3, 1);
    ListEnds(Turns(st, pid, t, 4), pid, t, d.queue, seen);
    TurnsAdd(st, pid, t, 4, 1);
  }

  lemma ListGoesOn(st: State, pid: nat, t: string, at: ListAt, next: ListAt, d: Disk)
    requires pid in st.processes && st.processes[pid] == Listing(1, at)
    requires ListMove(st.disk, 1, at) == To(d, Listing(1, next))
    ensures var then' := Turns(st, pid, t, 1);
            then'.disk == d && then'.log == st.log && pid in then'.processes && then'.processes[pid] == Listing(1, next)
  {
    OneTurn(st, pid, t);
    hide ListMove;
  }

  lemma ListEnds(st: State, pid: nat, t: string, queue: bool, seen: map<Slot, Event>)
    requires pid in st.processes && st.processes[pid] == Listing(1, ScanRequests(queue, seen))
    requires ListMove(st.disk, 1, ScanRequests(queue, seen)) == Finish(st.disk, Done)
    ensures var end := Turns(st, pid, t, 1);
            && end.disk == st.disk && pid !in end.processes && |end.log| == |st.log| + 1
            && end.log[|st.log|].outcome == Done
  {
    OneTurn(st, pid, t);
    hide ListMove;
  }

  lemma NoOrphans(d: Disk)
    requires DiskOk(d)
    ensures Orphans(if d.decisions then d.files else map[], if d.queue then d.requests else {}) == {}
    ensures !d.decisions ==> d.files == map[]
  {
    forall s | s in d.files ensures d.decisions && d.queue && s.rq in d.requests { assert FileOk(d, s); }
  }

  /** A call of decide starts exactly with a known ordinal, a claim and a reason; otherwise nothing happens. */
  lemma StartsIff(st: State, pid: nat, c: Command)
    ensures var next := Next(st, Begin(pid, Deciding(c, Validate)));
            && (pid !in st.started && c.ordinal in {1, 2} && |c.operatorClaim| > 0 && |c.reason| > 0 ==>
                  pid in next.processes && next.processes[pid] == Deciding(c, Validate))
            && (pid in st.started || c.ordinal !in {1, 2} || c.operatorClaim == "" || c.reason == "" ==> next == st)
            && next.disk == st.disk && next.log == st.log
  {
  }
}
