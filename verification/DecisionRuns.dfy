/** The decision store over whole runs. */
module DecisionRuns {
  import opened Wrappers
  import opened DecisionStore
  import opened DecisionSafety

  lemma EmptyInv()
    ensures Inv(Empty)
  {
  }

  predicate Succeeded(o: Outcome) {
    o.Published? || o.Idempotent?
  }

  lemma {:induction false} LogGrows(st: State, steps: seq<Step>)
    ensures |st.log| <= |Run(st, steps).log| && Run(st, steps).log[..|st.log|] == st.log
    decreases |steps|
  {
    if steps != [] { LogGrows(st, steps[..|steps| - 1]); }
  }

  // ----- any interleaving, any mix of failures, kills and power losses -----

  /** Whoever was told "published" or "idempotent" has a durable file, and no later step of anybody, power losses
      included, takes it away or changes it. */
  lemma SuccessIsForever(before: seq<Step>, after: seq<Step>, i: nat)
    requires i < |Run(Empty, before).log| && Succeeded(Run(Empty, before).log[i].outcome)
    ensures var r := Run(Empty, before).log[i]; var later := Run(Run(Empty, before), after);
            && r.process.Deciding? && r.process.command == r.outcome.event.command
            && SlotOf(r.process.command) in later.disk.filesDurable
            && HasFile(later.disk, r.outcome.event)
            && r.process.command.rq in later.disk.requestsDurable
  {
    var st := Run(Empty, before);
    RunInv(Empty, before);
    RunInv(st, after);
    LogGrows(st, after);
    var later := Run(st, after);
    var r := st.log[i];
    assert later.log[i] == later.log[..|st.log|][i] == r;
    assert ReturnOk(later.disk, later.linker, r);
    assert FileOk(later.disk, SlotOf(r.process.command));
  }

  /** For each slot at most one caller is ever told "published". */
  lemma PublishedOnce(steps: seq<Step>, i: nat, j: nat)
    requires i < |Run(Empty, steps).log| && j < |Run(Empty, steps).log|
    requires Run(Empty, steps).log[i].outcome.Published? && Run(Empty, steps).log[j].outcome.Published?
    requires SlotOf(Run(Empty, steps).log[i].outcome.event.command) ==
        SlotOf(Run(Empty, steps).log[j].outcome.event.command)
    ensures i == j
  {
    RunInv(Empty, steps);
    var st := Run(Empty, steps);
    assert ReturnOk(st.disk, st.linker, st.log[i]) && ReturnOk(st.disk, st.linker, st.log[j]);
  }

  /** Every caller that succeeds on a slot submitted the same command and got the same event back. */
  lemma SuccessesAgree(steps: seq<Step>, i: nat, j: nat)
    requires i < |Run(Empty, steps).log| && j < |Run(Empty, steps).log|
    requires Succeeded(Run(Empty, steps).log[i].outcome) && Succeeded(Run(Empty, steps).log[j].outcome)
    requires SlotOf(Run(Empty, steps).log[i].outcome.event.command) ==
        SlotOf(Run(Empty, steps).log[j].outcome.event.command)
    ensures Run(Empty, steps).log[i].process.Deciding? && Run(Empty, steps).log[j].process.Deciding?
    ensures Run(Empty, steps).log[i].process.command == Run(Empty, steps).log[j].process.command
    ensures Run(Empty, steps).log[i].outcome.event == Run(Empty, steps).log[j].outcome.event
  {
    RunInv(Empty, steps);
    var st := Run(Empty, steps);
    assert ReturnOk(st.disk, st.linker, st.log[i]) && ReturnOk(st.disk, st.linker, st.log[j]);
  }

  /** A visible decision has a durable request, whatever happened. */
  lemma DecisionHasDurableRequest(steps: seq<Step>, s: Slot)
    requires s in Run(Empty, steps).disk.files
    ensures s.rq in Run(Empty, steps).disk.requestsDurable
  {
    RunInv(Empty, steps);
    assert FileOk(Run(Empty, steps).disk, s);
  }

  /** `list` never reports an orphan. */
  lemma ListNeverReportsOrphan(steps: seq<Step>, i: nat)
    requires i < |Run(Empty, steps).log| && Run(Empty, steps).log[i].process.Listing?
    ensures Run(Empty, steps).log[i].outcome != Error("orphan_decision")
  {
    RunInv(Empty, steps);
    var st := Run(Empty, steps);
    assert ReturnOk(st.disk, st.linker, st.log[i]);
  }

  // ----- without power losses: any interleaving keeps the two slots of a request legal -----

  ghost predicate Legal(files: map<Slot, Event>) {
    forall rq :: Slot(rq, 2) in files ==> FirstDefers(files, rq) && files[Slot(rq, 2)].command.action != Defer
  }

  ghost predicate FirstDefers(files: map<Slot, Event>, rq: string) {
    Slot(rq, 1) in files && files[Slot(rq, 1)].command.action == Defer
  }

  /** reduce_state succeeds on a listing exactly when the two slots of the request are legal. */
  lemma ReduceIffLegal(files: map<Slot, Event>)
    ensures Legal(files) <==> forall rq :: Reduce(EventsOf(files, rq)).Some?
  {
    forall rq
      ensures Reduce(EventsOf(files, rq)).Some? <==>
                (Slot(rq, 2) in files ==> FirstDefers(files, rq) && files[Slot(rq, 2)].command.action != Defer)
    {
      var events := EventsOf(files, rq);
      assert 1 in events <==> Slot(rq, 1) in files;
      assert 2 in events <==> Slot(rq, 2) in files;
      assert events == map[] <==> 1 !in events && 2 !in events;
    }
  }

  predicate AboutToLink(at: DecideAt) {
    at.MakeDirectory? || at.BarrierRoot? || at.BarrierPublish? || at.Link?
  }

  ghost predicate OrderedProcess(d: Disk, p: Process) {
    && (p.Deciding? && AboutToLink(p.decide) && p.command.ordinal == 2 ==> FirstDefers(d.files, p.command.rq))
    && (p.Listing? && p.list.ScanRequests? ==> Legal(p.list.files))
  }

  ghost predicate Ordered(st: State) {
    && Inv(st)
    && Legal(st.disk.files)
    && (forall pid :: pid in st.processes ==> OrderedProcess(st.disk, st.processes[pid]))
    && (forall i :: 0 <= i < |st.log| ==> st.log[i].outcome != Error("malformed_decision"))
  }

  ghost predicate OrderedMoveOk(move: Move) {
    && Legal(move.disk.files)
    && match move
       case To(d', p') => OrderedProcess(d', p')
       case Linked(d', p', _) => OrderedProcess(d', p')
       case Finish(_, outcome) => outcome != Error("malformed_decision")
  }

  lemma OrderedDecide(d: Disk, linker: map<Slot, nat>, pid: nat, c: Command, at: DecideAt, stamp: string)
    requires DiskOk(d) && DecidingOk(d, linker, pid, c, at) && Legal(d.files) && OrderedProcess(d, Deciding(c, at))
    ensures OrderedMoveOk(DecideMove(d, c, at, stamp))
  {
    ReduceIffLegal(d.files);
    assert FileOk(d, Slot(c.rq, 1));
    if at.Inspect? { InspectAllows(d, c, if at.exists' then EventsOf(d.files, c.rq) else map[]); }
    assert Reduce(map[]) == Some(Pending);
  }

  /** A second decision is allowed only when the listing shows a first one that defers. */
  lemma InspectAllows(d: Disk, c: Command, events: map<nat, Event>)
    requires events == EventsOf(d.files, c.rq) || events == map[]
    requires ValidCommand(c)
    ensures Reduce(events).Some? && c.ordinal !in events && Allowed(Reduce(events).value, c) && c.ordinal == 2 ==>
              FirstDefers(d.files, c.rq)
  {
  }

  lemma OrderedList(d: Disk, pass: nat, at: ListAt)
    requires Legal(d.files) && OrderedProcess(d, Listing(pass, at))
    ensures OrderedMoveOk(ListMove(d, pass, at))
  {
    if at.ScanRequests? { ReduceIffLegal(at.files); }
    assert Legal(map[]);
  }

  lemma OrderedMove(d: Disk, linker: map<Slot, nat>, pid: nat, p: Process, stamp: string)
    requires DiskOk(d) && ProcessOk(d, linker, pid, p) && Legal(d.files) && OrderedProcess(d, p)
    ensures OrderedMoveOk(ProcessMove(d, p, stamp))
  {
    match p
    case Deciding(c, at) => OrderedDecide(d, linker, pid, c, at, stamp);
    case Publishing(rq, at) =>
    case Listing(pass, at) => OrderedList(d, pass, at);
  }

  lemma OrderedStep(st: State, step: Step)
    requires Ordered(st) && !step.PowerLoss?
    ensures Ordered(Next(st, step))
  {
    StepInv(st, step);
    if step.Advance? && step.pid in st.processes {
      OrderedMove(st.disk, st.linker, step.pid, st.processes[step.pid], step.stamp);
    }
    hide Inv; hide Legal;
  }

  predicate NoPowerLoss(steps: seq<Step>) {
    forall i :: 0 <= i < |steps| ==> !steps[i].PowerLoss?
  }

  lemma {:induction false} OrderedRun(steps: seq<Step>)
    requires NoPowerLoss(steps)
    ensures Ordered(Run(Empty, steps))
    decreases |steps|
  {
    if steps != [] {
      OrderedRun(steps[..|steps| - 1]);
      OrderedStep(Run(Empty, steps[..|steps| - 1]), steps[|steps| - 1]);
    }
  }

  /** Any number of concurrent deciders, without power loss: a second decision exists only on top of a deferral,
      reduce_state succeeds on every request, and nobody is told the store is malformed. */
  lemma ConcurrentDecidersStayLegal(steps: seq<Step>)
    requires NoPowerLoss(steps)
    ensures var st := Run(Empty, steps);
            && Legal(st.disk.files)
            && (forall rq :: Reduce(EventsOf(st.disk.files, rq)).Some?)
            && (forall i :: 0 <= i < |st.log| ==> st.log[i].outcome != Error("malformed_decision"))
  {
    OrderedRun(steps);
    ReduceIffLegal(Run(Empty, steps).disk.files);
  }

  // ----- what a published decision says -----

  /**
   The command of a published decision names the state of its request from
       then on, as long as the two slots are legal: a
   settling one for ever, a deferral until a second decision stands.
   */
  lemma PublishedNamesTheState(steps: seq<Step>, i: nat)
    requires i < |Run(Empty, steps).log| && Run(Empty, steps).log[i].outcome.Published?
    requires Legal(Run(Empty, steps).disk.files)
    ensures var c := Run(Empty, steps).log[i].outcome.event.command;
            var files := Run(Empty, steps).disk.files;
            && (c.action == Accept ==> Reduce(EventsOf(files, c.rq)) == Some(Accepted))
            && (c.action == Reject ==> Reduce(EventsOf(files, c.rq)) == Some(Rejected))
            && (c.action == Revise ==> Reduce(EventsOf(files, c.rq)) == Some(Revised))
            && (c.action == Defer && Slot(c.rq, 2) !in files ==> Reduce(EventsOf(files, c.rq)) == Some(Deferred))
            && (c.action == Defer && Slot(c.rq, 2) in files ==>
                  Reduce(EventsOf(files, c.rq)) == Some(Named(files[Slot(c.rq, 2)].command.action)))
  {
    RunInv(Empty, steps) by { EmptyInv(); }
    var st := Run(Empty, steps);
    var e := st.log[i].outcome.event;
    assert ReturnOk(st.disk, st.linker, st.log[i]) && FileOk(st.disk, SlotOf(e.command));
    StateOfFiles(st.disk.files, e.command.rq);
  }

  /** The state of a request, from its files. */
  lemma StateOfFiles(files: map<Slot, Event>, rq: string)
    requires Legal(files)
    ensures var one, two := Slot(rq, 1), Slot(rq, 2);
            Reduce(EventsOf(files, rq)) ==
              if two in files then Some(Named(files[two].command.action))
              else if one in files then Some(Named(files[one].command.action)) else Some(Pending)
  {
    var events := EventsOf(files, rq);
    assert 1 in events <==> Slot(rq, 1) in files;
    assert 2 in events <==> Slot(rq, 2) in files;
    assert events == map[] <==> 1 !in events && 2 !in events;
    if Slot(rq, 2) in files { assert FirstDefers(files, rq); }
  }

  // ----- exactly one caller per slot hears "published" -----

  /** The process has linked the slot's file and is on its way to report it. */
  predicate Reporting(p: Process, s: Slot) {
    p.Deciding? && SlotOf(p.command) == s && (p.decide.SyncLinked? || p.decide.ReadBack?)
  }

  predicate Publishes(r: Return, s: Slot) {
    r.outcome.Published? && SlotOf(r.outcome.event.command) == s
  }

  ghost predicate Told(st: State, pid: nat, s: Slot) {
    exists i :: 0 <= i < |st.log| && st.log[i].pid == pid && Publishes(st.log[i], s)
  }

  /** The step ends the process before its time. */
  predicate Strikes(st: State, step: Step, pid: nat) {
    pid in st.processes && (step == Fail(pid) || step == Kill(pid) || step.PowerLoss?)
  }

  ghost predicate Struck(steps: seq<Step>, pid: nat) {
    exists k :: 0 <= k < |steps| && Strikes(Run(Empty, steps[..k]), steps[k], pid)
  }

  ghost predicate Followed(st: State, s: Slot, pid: nat) {
    (pid in st.processes && Reporting(st.processes[pid], s)) || Told(st, pid, s)
  }

  lemma ReportingMove(d: Disk, linker: map<Slot, nat>, pid: nat, p: Process, s: Slot, stamp: string)
    requires ProcessOk(d, linker, pid, p) && Reporting(p, s)
    ensures var move := ProcessMove(d, p, stamp);
            if move.Finish? then Publishes(Return(pid, p, move.outcome), s) else move.To? && Reporting(move.process, s)
  {
  }

  lemma FollowedStep(st: State, step: Step, s: Slot, pid: nat)
    requires Inv(st) && Followed(st, s, pid) && !Strikes(st, step, pid)
    ensures Followed(Next(st, step), s, pid)
  {
    var next := Next(st, step);
    if Told(st, pid, s) {
      var i :| 0 <= i < |st.log| && st.log[i].pid == pid && Publishes(st.log[i], s);
      assert next.log[i] == st.log[i];
    } else if step.Advance? && step.pid == pid {
      ReportingMove(st.disk, st.linker, pid, st.processes[pid], s, step.stamp);
      hide ProcessMove;
      if pid !in next.processes { assert next.log[|st.log|].pid == pid; }
    }
  }

  /** The linker of a file is remembered, and a new file is followed by its linker. */
  lemma LinkerStep(st: State, step: Step, s: Slot)
    requires Inv(st) && s in Next(st, step).linker
    ensures var pid := Next(st, step).linker[s];
            if s in st.linker then st.linker[s] == pid else Followed(Next(st, step), s, pid)
  {
    if step.Advance? && step.pid in st.processes {
      ProcessMoveOk(st, step.pid, step.stamp);
      MoveFiles(st.disk, st.processes[step.pid], step.stamp);
      LinkMove(st.disk, st.processes[step.pid], step.stamp);
      hide ProcessMove;
    }
  }

  lemma LinkMove(d: Disk, p: Process, stamp: string)
    ensures var move := ProcessMove(d, p, stamp); move.Linked? ==> Reporting(move.process, move.slot)
  {
  }

  lemma {:induction false} LinkerIsFollowed(steps: seq<Step>, s: Slot)
    requires s in Run(Empty, steps).linker
    ensures Struck(steps, Run(Empty, steps).linker[s]) || Followed(Run(Empty, steps), s, Run(Empty, steps).linker[s])
    decreases |steps|
  {
    hide Next; hide Inv; hide Followed; hide Strikes;
    if steps != [] {
      var front, last := steps[..|steps| - 1], steps[|steps| - 1];
      var st, pid := Run(Empty, front), Run(Empty, steps).linker[s];
      EmptyInv();
      RunInv(Empty, front);
      LinkerStep(st, last, s);
      if s in st.linker {
        LinkerIsFollowed(front, s);
        if Struck(front, pid) {
          var k :| 0 <= k < |front| && Strikes(Run(Empty, front[..k]), front[k], pid);
          assert steps[..k] == front[..k] && steps[k] == front[k];
        } else if !Strikes(st, last, pid) {
          FollowedStep(st, last, s, pid);
        } else {
          assert Strikes(Run(Empty, steps[..|front|]), steps[|front|], pid);
        }
      }
    }
  }

  /** Every file has its linker. */
  lemma EveryFileHasALinker(steps: seq<Step>, s: Slot)
    ensures s in Run(Empty, steps).disk.files <==> s in Run(Empty, steps).linker
  {
    EmptyInv();
    RunInv(Empty, steps);
  }

  /**
   For every file that is there, exactly one caller, the one that linked it, has been told "published", unless it is
   still about to report or was ended by a failure, a kill or a power loss while it ran.
   */
  lemma PublishedExactlyOnce(steps: seq<Step>, s: Slot) returns (linker: nat, i: nat)
    requires s in Run(Empty, steps).disk.files
    ensures var st := Run(Empty, steps);
            && s in st.linker && st.linker[s] == linker
            && (linker !in st.processes && !Struck(steps, linker) ==>
                  && i < |st.log| && st.log[i].pid == linker
                  && forall j :: 0 <= j < |st.log| ==> (Publishes(st.log[j], s) <==> j == i))
  {
    EveryFileHasALinker(steps, s);
    var st := Run(Empty, steps);
    linker, i := st.linker[s], 0;
    LinkerIsFollowed(steps, s);
    if linker !in st.processes && !Struck(steps, linker) {
      i :| 0 <= i < |st.log| && st.log[i].pid == linker && Publishes(st.log[i], s);
      forall j | 0 <= j < |st.log| && Publishes(st.log[j], s) ensures j == i { PublishedOnce(steps, i, j); }
    }
  }

  // ----- power losses: harmless exactly while every second decision stands on a durable deferral -----

  ghost predicate DurablyDeferred(d: Disk, rq: string) {
    FirstDefers(d.files, rq) && Slot(rq, 1) in d.filesDurable
  }

  ghost predicate SealedDisk(d: Disk) {
    forall rq :: Slot(rq, 2) in d.files ==> DurablyDeferred(d, rq)
  }

  /** Every power loss leaves legal slots exactly if each second decision stands on a durable deferral. */
  lemma LossIsHarmlessIff(d: Disk)
    requires DiskOk(d)
    ensures (forall keep: Loss :: Legal(AfterLoss(d, keep).files)) <==> SealedDisk(d)
  {
    if SealedDisk(d) {
      forall keep: Loss ensures Legal(AfterLoss(d, keep).files) { SealedLoss(d, keep); }
    } else {
      var rq :| Slot(rq, 2) in d.files && !DurablyDeferred(d, rq);
      var keep := HarmfulLoss(d, rq);
    }
  }

  lemma SealedLoss(d: Disk, keep: Loss)
    requires DiskOk(d) && SealedDisk(d)
    ensures Legal(AfterLoss(d, keep).files) && SealedDisk(AfterLoss(d, keep))
  {
    var left := AfterLoss(d, keep);
    forall rq | Slot(rq, 2) in left.files
      ensures DurablyDeferred(left, rq) && left.files[Slot(rq, 2)].command.action != Defer
    {
      assert DurablyDeferred(d, rq) && FileOk(d, Slot(rq, 2)) && FileOk(d, Slot(rq, 1));
    }
  }

  /** The loss that keeps the second decision and, if the first one does not defer, that one too. */
  lemma HarmfulLoss(d: Disk, rq: string) returns (keep: Loss)
    requires DiskOk(d) && Slot(rq, 2) in d.files && !DurablyDeferred(d, rq)
    ensures !Legal(AfterLoss(d, keep).files)
  {
    assert FileOk(d, Slot(rq, 2)) && FileOk(d, Slot(rq, 1));
    keep := Loss(true, true, {}, if FirstDefers(d.files, rq) then {Slot(rq, 2)} else d.files.Keys);
    var left := AfterLoss(d, keep);
    assert Slot(rq, 2) in left.files;
    assert !FirstDefers(left.files, rq);
  }

  /** A decider links a second decision while the first one is not durably a deferral. */
  ghost predicate EarlyLink(st: State, step: Step) {
    && step.Advance? && step.pid in st.processes && st.processes[step.pid].Deciding?
    && var p := st.processes[step.pid];
       p.decide.Link? && p.command.ordinal == 2 && SlotOf(p.command) !in st.disk.files
           && !DurablyDeferred(st.disk, p.command.rq)
  }

  /** What the moves of a process do to the decisions: nothing, or the one file it links. */
  lemma MoveFiles(d: Disk, p: Process, stamp: string)
    requires DiskOk(d)
    ensures var move := ProcessMove(d, p, stamp);
            && d.filesDurable <= move.disk.filesDurable
            && (move.Linked? <==> p.Deciding? && p.decide.Link? && SlotOf(p.command) !in d.files)
            && (move.Linked? ==>
                  && move.slot == SlotOf(p.command) && move.disk.filesDurable == d.filesDurable
                  && move.disk.files == d.files[move.slot := Event(p.command, p.decide.recordedAt)])
            && (!move.Linked? ==> move.disk.files == d.files)
  {
    hide DecideMove; hide PublishMove; hide ListMove; hide DiskOk;
    match p
    case Deciding(c, at) =>
      if at.Link? { LinkFiles(d, c, at, stamp); } else { OtherFiles(d, c, at, stamp); }
    case Publishing(rq, at) => PublishFiles(d, rq, at);
    case Listing(pass, at) => ListFiles(d, pass, at);
  }

  lemma LinkFiles(d: Disk, c: Command, at: DecideAt, stamp: string)
    requires at.Link?
    ensures var move := DecideMove(d, c, at, stamp);
            && move.disk.filesDurable == d.filesDurable
            && (move.Linked? <==> SlotOf(c) !in d.files)
            && (move.Linked? ==>
                  move.slot == SlotOf(c) && move.disk.files == d.files[move.slot := Event(c, at.recordedAt)])
            && (!move.Linked? ==> move.disk.files == d.files)
  {
  }

  lemma OtherFiles(d: Disk, c: Command, at: DecideAt, stamp: string)
    requires DiskOk(d) && !at.Link?
    ensures var move := DecideMove(d, c, at, stamp);
            !move.Linked? && move.disk.files == d.files && d.filesDurable <= move.disk.filesDurable
  {
    hide EventsOf; hide Reduce; hide Allowed;
  }

  lemma PublishFiles(d: Disk, rq: string, at: PublishAt)
    ensures var move := PublishMove(d, rq, at);
            !move.Linked? && move.disk.files == d.files && move.disk.filesDurable == d.filesDurable
  {
  }

  lemma ListFiles(d: Disk, pass: nat, at: ListAt)
    requires DiskOk(d)
    ensures var move := ListMove(d, pass, at);
            !move.Linked? && move.disk.files == d.files && d.filesDurable <= move.disk.filesDurable
  {
    hide EventsOf; hide Reduce; hide Orphans;
  }

  /** An early link is the one step that takes the seal away. */
  lemma SealBreaksIff(st: State, step: Step)
    requires Inv(st) && SealedDisk(st.disk)
    ensures SealedDisk(Next(st, step).disk) <==> !EarlyLink(st, step)
  {
    match step
    case Advance(pid, stamp) =>
      if pid in st.processes { AdvanceSeal(st.disk, st.processes[pid], stamp); }
    case PowerLoss(keep) => SealedLoss(st.disk, keep);
    case _ =>
  }

  lemma AdvanceSeal(d: Disk, p: Process, stamp: string)
    requires DiskOk(d) && SealedDisk(d)
    ensures SealedDisk(ProcessMove(d, p, stamp).disk) <==>
            !(p.Deciding? && p.decide.Link? && p.command.ordinal == 2 && SlotOf(p.command) !in d.files
              && !DurablyDeferred(d, p.command.rq))
  {
    MoveFiles(d, p, stamp);
    hide ProcessMove;
    var next := ProcessMove(d, p, stamp).disk;
    forall rq | DurablyDeferred(d, rq) ensures DurablyDeferred(next, rq) {}
    if p.Deciding? && p.decide.Link? && p.command.ordinal == 2 && SlotOf(p.command) !in d.files {
      assert Slot(p.command.rq, 2) in next.files;
    }
  }

  ghost predicate NoEarlyLink(steps: seq<Step>) {
    forall k :: 0 <= k < |steps| ==> !EarlyLink(Run(Empty, steps[..k]), steps[k])
  }

  lemma RunTo(steps: seq<Step>, k: nat)
    requires k < |steps|
    ensures Run(Empty, steps[..k + 1]) == Next(Run(Empty, steps[..k]), steps[k])
  {
    assert steps[..k + 1][..k] == steps[..k];
  }

  lemma {:induction false} SealedTo(steps: seq<Step>, k: nat)
    requires NoEarlyLink(steps) && k <= |steps|
    ensures SealedDisk(Run(Empty, steps[..k]).disk)
    decreases k
  {
    hide SealedDisk; hide EarlyLink; hide Inv;
    if k == 0 {
      EmptyIsSealed();
      assert steps[..0] == [];
    } else {
      SealedTo(steps, k - 1);
      EmptyInv();
      RunInv(Empty, steps[..k - 1]);
      SealBreaksIff(Run(Empty, steps[..k - 1]), steps[k - 1]);
      RunTo(steps, k - 1);
    }
  }

  lemma EmptyIsSealed()
    ensures SealedDisk(Empty.disk)
  {
  }

  /** The power goes off after the first k steps. */
  ghost predicate LegalAfterLoss(steps: seq<Step>, k: nat, keep: Loss)
    requires k <= |steps|
  {
    Legal(Run(Empty, steps[..k] + [PowerLoss(keep)]).disk.files)
  }

  lemma LossAt(steps: seq<Step>, k: nat)
    requires k <= |steps|
    ensures (forall keep :: LegalAfterLoss(steps, k, keep)) <==> SealedDisk(Run(Empty, steps[..k]).disk)
  {
    EmptyInv();
    RunInv(Empty, steps[..k]);
    var st := Run(Empty, steps[..k]);
    LossIsHarmlessIff(st.disk);
    forall keep ensures LegalAfterLoss(steps, k, keep) <==> Legal(AfterLoss(st.disk, keep).files) {
      var all := steps[..k] + [PowerLoss(keep)];
      assert all[..|all| - 1] == steps[..k];
      assert Run(Empty, all) == Next(st, PowerLoss(keep));
    }
  }

  /**
   Any interleaving, with any failures, kills and earlier power losses: no power loss at any moment leaves a store
   that reduce_state refuses, exactly if no second decision was linked before its deferral was durable.
   */
  lemma PowerLossIsHarmlessIff(steps: seq<Step>)
    ensures (forall k, keep :: 0 <= k <= |steps| ==> LegalAfterLoss(steps, k, keep)) <==> NoEarlyLink(steps)
  {
    hide LegalAfterLoss; hide SealedDisk; hide EarlyLink; hide Inv;
    if NoEarlyLink(steps) {
      forall k, keep | 0 <= k <= |steps| ensures LegalAfterLoss(steps, k, keep) {
        SealedTo(steps, k);
        LossAt(steps, k);
      }
    }
    if forall k, keep :: 0 <= k <= |steps| ==> LegalAfterLoss(steps, k, keep) {
      forall k | 0 <= k < |steps| ensures !EarlyLink(Run(Empty, steps[..k]), steps[k]) {
        forall keep ensures LegalAfterLoss(steps, k, keep) && LegalAfterLoss(steps, k + 1, keep) {}
        LossAt(steps, k);
        LossAt(steps, k + 1);
        RunTo(steps, k);
        EmptyInv();
        RunInv(Empty, steps[..k]);
        SealBreaksIff(Run(Empty, steps[..k]), steps[k]);
      }
    }
  }

  // ----- one decider at a time for each request -----

  predicate Decides(p: Process, rq: string) {
    p.Deciding? && p.command.rq == rq
  }

  ghost predicate NoDecider(st: State, rq: string) {
    forall pid :: pid in st.processes ==> !Decides(st.processes[pid], rq)
  }

  /** Each call of `decide` starts when no other call of `decide` for the same request is running. */
  ghost predicate OneAtATime(steps: seq<Step>) {
    forall k :: 0 <= k < |steps| && steps[k].Begin? && steps[k].process.Deciding? ==>
      NoDecider(Run(Empty, steps[..k]), steps[k].process.command.rq)
  }

  ghost predicate SealedProcess(d: Disk, p: Process) {
    p.Deciding? ==>
      && (p.decide == Inspect(true) && Slot(p.command.rq, 1) in d.files ==> Slot(p.command.rq, 1) in d.filesDurable)
      && (AboutToLink(p.decide) && p.command.ordinal == 2 ==> DurablyDeferred(d, p.command.rq))
  }

  ghost predicate OneDecider(processes: map<nat, Process>) {
    forall p, q ::
      p in processes && q in processes && processes[p].Deciding? && Decides(processes[q], processes[p].command.rq) ==>
        p == q
  }

  ghost predicate Sealed(st: State) {
    && Inv(st)
    && SealedDisk(st.disk)
    && (forall pid :: pid in st.processes ==> SealedProcess(st.disk, st.processes[pid]))
    && OneDecider(st.processes)
  }

  lemma SealedDecide(d: Disk, linker: map<Slot, nat>, pid: nat, c: Command, at: DecideAt, stamp: string)
    requires DiskOk(d) && DecidingOk(d, linker, pid, c, at) && SealedDisk(d) && SealedProcess(d, Deciding(c, at))
    ensures var move := DecideMove(d, c, at, stamp);
            && SealedDisk(move.disk)
            && (!move.Finish? ==>
               move.process.Deciding? && move.process.command == c && SealedProcess(move.disk, move.process))
  {
    if at.Inspect? { InspectAllows(d, c, if at.exists' then EventsOf(d.files, c.rq) else map[]); }
    assert Reduce(map[]) == Some(Pending);
  }

  /** The processes for other requests do not touch what a decider relies on. */
  lemma OthersKeepSeal(d: Disk, p: Process, stamp: string, other: Process)
    requires DiskOk(d) && SealedProcess(d, other) && (other.Deciding? ==> !Decides(p, other.command.rq))
    ensures SealedProcess(ProcessMove(d, p, stamp).disk, other)
  {
    MoveFiles(d, p, stamp);
    hide ProcessMove;
  }

  /** Publishers and readers stay what they are, and keep the seal. */
  lemma OthersSeal(d: Disk, p: Process, stamp: string)
    requires DiskOk(d) && SealedDisk(d) && !p.Deciding?
    ensures var move := ProcessMove(d, p, stamp); SealedDisk(move.disk) && (!move.Finish? ==> !move.process.Deciding?)
  {
    AdvanceSeal(d, p, stamp);
  }

  lemma SealedMove(d: Disk, linker: map<Slot, nat>, pid: nat, p: Process, stamp: string)
    requires DiskOk(d) && ProcessOk(d, linker, pid, p) && SealedDisk(d) && SealedProcess(d, p)
    ensures var move := ProcessMove(d, p, stamp);
            && SealedDisk(move.disk)
            && (!move.Finish? ==> SealedProcess(move.disk, move.process)
                                  && forall rq :: Decides(move.process, rq) ==> Decides(p, rq))
  {
    if p.Deciding? { SealedDecide(d, linker, pid, p.command, p.decide, stamp); } else { OthersSeal(d, p, stamp); }
  }

  lemma SealedAdvance(st: State, pid: nat, stamp: string)
    requires Sealed(st) && pid in st.processes
    ensures Sealed(Next(st, Advance(pid, stamp)))
  {
    StepInv(st, Advance(pid, stamp));
    var p := st.processes[pid];
    SealedMove(st.disk, st.linker, pid, p, stamp);
    forall q | q in st.processes && q != pid
        ensures SealedProcess(ProcessMove(st.disk, p, stamp).disk, st.processes[q]) {
      OthersKeepSeal(st.disk, p, stamp, st.processes[q]);
    }
    hide Inv; hide ProcessMove; hide SealedProcess; hide SealedDisk;
  }

  lemma SealedStep(st: State, step: Step)
    requires Sealed(st)
    requires step.Begin? && step.process.Deciding? ==> NoDecider(st, step.process.command.rq)
    ensures Sealed(Next(st, step))
  {
    StepInv(st, step);
    match step
    case Advance(pid, stamp) => if pid in st.processes { SealedAdvance(st, pid, stamp); }
    case PowerLoss(keep) => SealedLoss(st.disk, keep);
    case _ => hide Inv; hide SealedDisk;
  }

  lemma {:induction false} SealedRun(steps: seq<Step>)
    requires OneAtATime(steps)
    ensures Sealed(Run(Empty, steps))
    decreases |steps|
  {
    if steps != [] {
      var front := steps[..|steps| - 1];
      forall k | 0 <= k < |front| ensures steps[k] == front[k] && steps[..k] == front[..k] {}
      SealedRun(front);
      var last := steps[|steps| - 1];
      assert last.Begin? && last.process.Deciding? ==> NoDecider(Run(Empty, front), last.process.command.rq);
      SealedStep(Run(Empty, front), last);
    }
  }

  /**
   With one decider at a time for each request, a second decision, durable or not, always stands on a durable
   deferral, and the store stays legal through every mix of kills and power losses.
   */
  lemma SequentialDecidersSurvivePowerLoss(steps: seq<Step>)
    requires OneAtATime(steps)
    ensures var d := Run(Empty, steps).disk;
            && (forall rq :: Slot(rq, 2) in d.files ==> Slot(rq, 1) in d.filesDurable)
            && (forall rq :: Reduce(EventsOf(d.files, rq)).Some?)
  {
    SealedRun(steps);
    var d := Run(Empty, steps).disk;
    forall rq | Slot(rq, 2) in d.files
      ensures FirstDefers(d.files, rq) && d.files[Slot(rq, 2)].command.action != Defer
    {
      assert DurablyDeferred(d, rq) && FileOk(d, Slot(rq, 2));
    }
    ReduceIffLegal(d.files);
  }
}
