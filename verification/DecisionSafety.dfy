/** What every reachable state of the decision store satisfies, power losses included. */
module DecisionSafety {
  import opened DecisionStore

  ghost predicate FileOk(d: Disk, s: Slot) {
    s in d.files ==>
      && d.decisions && d.decisionsDurable
      && s.rq in d.requestsDurable
      && SlotOf(d.files[s].command) == s
      && ValidCommand(d.files[s].command)
      && (s.ordinal == 2 ==> d.files[s].command.action != Defer)
  }

  ghost predicate DiskOk(d: Disk) {
    && (d.queueDurable ==> d.queue)
    && (d.decisionsDurable ==> d.decisions)
    && d.requestsDurable <= d.requests
    && d.filesDurable <= d.files.Keys
    && (d.requests != {} ==> d.queue && d.queueDurable)
    && forall s :: FileOk(d, s)
  }

  ghost predicate HasFile(d: Disk, e: Event) {
    SlotOf(e.command) in d.files && d.files[SlotOf(e.command)] == e
  }

  ghost predicate LinkedBy(linker: map<Slot, nat>, s: Slot, pid: nat) {
    s in linker && linker[s] == pid
  }

  ghost predicate DecidingOk(d: Disk, linker: map<Slot, nat>, pid: nat, c: Command, at: DecideAt) {
    && ValidCommand(c)
    && match at
       case Validate => true
       case MissingRequest => true
       case Namespace => c.rq in d.requests
       case BarrierQueue(exists') => c.rq in d.requests && (exists' ==> d.decisions)
       case BarrierDecisions => c.rq in d.requestsDurable && d.decisions
       case Inspect(exists') => c.rq in d.requestsDurable && (exists' ==> d.decisions)
       case CompareExisting(e) => HasFile(d, e) && SlotOf(e.command) == SlotOf(c)
       case MakeDirectory(t) => Permitted(d, c)
       case BarrierRoot(t) => Permitted(d, c) && d.decisions
       case BarrierPublish(t) => Permitted(d, c) && d.decisions && d.decisionsDurable
       case Link(t) => Permitted(d, c) && d.decisions && d.decisionsDurable
       case ReadRace => SlotOf(c) in d.files
       case SyncLinked(t) => HasFile(d, Event(c, t)) && LinkedBy(linker, SlotOf(c), pid)
       case ReadBack(t) => HasFile(d, Event(c, t)) && LinkedBy(linker, SlotOf(c), pid) && SlotOf(c) in d.filesDurable
  }

  ghost predicate Permitted(d: Disk, c: Command) {
    c.rq in d.requestsDurable && (c.ordinal == 2 ==> c.action != Defer)
  }

  /** The second pass starts after a decision was seen, hence with the queue directory in place. */
  ghost predicate ListingOk(d: Disk, pass: nat, at: ListAt) {
    && (pass == 1 || pass == 2)
    && (pass == 2 ==> d.queue && (at.GateQueue? || at.queue))
    && (at.ScanRequests? ==> forall s :: s in at.files ==> s in d.files && d.files[s] == at.files[s])
  }

  ghost predicate PublishingOk(d: Disk, at: PublishAt) {
    && (at.SyncQueueEntry? ==> d.queue)
    && (at.LinkRequest? ==> d.queue && d.queueDurable)
  }

  ghost predicate ProcessOk(d: Disk, linker: map<Slot, nat>, pid: nat, p: Process) {
    match p
    case Deciding(c, at) => DecidingOk(d, linker, pid, c, at)
    case Publishing(_, at) => PublishingOk(d, at)
    case Listing(pass, at) => ListingOk(d, pass, at)
  }

  /** A caller that hears "published" or "idempotent" holds a durable file with its own command in it. */
  ghost predicate OutcomeOk(d: Disk, linker: map<Slot, nat>, pid: nat, p: Process, outcome: Outcome) {
    match outcome
    case Published(e) =>
      && p.Deciding? && p.command == e.command && HasFile(d, e) && SlotOf(e.command) in d.filesDurable
      && LinkedBy(linker, SlotOf(e.command), pid)
    case Idempotent(e) => p.Deciding? && p.command == e.command && HasFile(d, e) && SlotOf(e.command) in d.filesDurable
    case Done => true
    case Error(code) => p.Listing? ==> code != "orphan_decision"
  }

  ghost predicate ReturnOk(d: Disk, linker: map<Slot, nat>, r: Return) {
    OutcomeOk(d, linker, r.pid, r.process, r.outcome)
  }

  ghost predicate Inv(st: State) {
    && DiskOk(st.disk)
    && st.linker.Keys == st.disk.files.Keys
    && st.processes.Keys <= st.started
    && (forall pid :: pid in st.processes ==> ProcessOk(st.disk, st.linker, pid, st.processes[pid]))
    && LogOk(st)
  }

  ghost predicate LogOk(st: State) {
    && (forall i :: 0 <= i < |st.log| ==> ReturnOk(st.disk, st.linker, st.log[i]))
    && (forall i :: 0 <= i < |st.log| ==> st.log[i].pid in st.started && st.log[i].pid !in st.processes)
    && (forall i, j :: 0 <= i < j < |st.log| ==> st.log[i].pid != st.log[j].pid)
  }

  /** Everything but a power loss only adds to the disk. */
  ghost predicate Grows(d: Disk, d': Disk) {
    && (d.queue ==> d'.queue) && (d.queueDurable ==> d'.queueDurable)
    && (d.decisions ==> d'.decisions) && (d.decisionsDurable ==> d'.decisionsDurable)
    && d.requests <= d'.requests && d.requestsDurable <= d'.requestsDurable
    && d.filesDurable <= d'.filesDurable
    && forall s :: s in d.files ==> s in d'.files && d'.files[s] == d.files[s]
  }

  ghost predicate Extends(linker: map<Slot, nat>, linker': map<Slot, nat>) {
    forall s :: s in linker ==> s in linker' && linker'[s] == linker[s]
  }

  lemma GrowthKeepsProcess(d: Disk, linker: map<Slot, nat>, d': Disk, linker': map<Slot, nat>, pid: nat, p: Process)
    requires Grows(d, d') && Extends(linker, linker') && ProcessOk(d, linker, pid, p)
    ensures ProcessOk(d', linker', pid, p)
  {
  }

  lemma DiskGrowth(d: Disk, d': Disk)
    requires DiskOk(d) && Grows(d, d')
    requires (d'.queueDurable ==> d'.queue) && (d'.decisionsDurable ==> d'.decisions)
    requires d'.requestsDurable <= d'.requests && d'.filesDurable <= d'.files.Keys
    requires d'.requests != {} ==> d'.queue && d'.queueDurable
    requires forall s :: s in d'.files && s !in d.files ==> FileOk(d', s)
    ensures DiskOk(d')
  {
    forall s ensures FileOk(d', s) { assert FileOk(d, s); }
  }

  // ----- one move of one process -----

  ghost predicate MoveOk(d: Disk, linker: map<Slot, nat>, pid: nat, p: Process, move: Move) {
    var linker' := LinkerAfter(linker, move, pid);
    && Grows(d, move.disk) && DiskOk(move.disk)
    && (if move.Linked? then move.slot !in d.files && move.disk.files.Keys == d.files.Keys + {move.slot}
        else move.disk.files.Keys == d.files.Keys)
    && match move
       case To(d', p') => ProcessOk(d', linker', pid, p')
       case Linked(d', p', _) => ProcessOk(d', linker', pid, p')
       case Finish(d', outcome) => OutcomeOk(d', linker', pid, p, outcome)
  }

  lemma DecideMoveOk(d: Disk, linker: map<Slot, nat>, pid: nat, c: Command, at: DecideAt, stamp: string)
    requires DiskOk(d) && linker.Keys == d.files.Keys && DecidingOk(d, linker, pid, c, at)
    ensures MoveOk(d, linker, pid, Deciding(c, at), DecideMove(d, c, at, stamp))
  {
    hide DiskOk; hide DecidingOk; hide DecideMove; hide MoveOk;
    if at.Inspect? || at.CompareExisting? || at.ReadRace? { ReadMoveOk(d, linker, pid, c, at, stamp); }
    else if at.Link? || at.SyncLinked? || at.ReadBack? { LinkMoveOk(d, linker, pid, c, at, stamp); }
    else if at.MissingRequest? { MissingMoveOk(d, linker, pid, c, stamp); }
    else { GateMoveOk(d, linker, pid, c, at, stamp); }
  }

  lemma ReadMoveOk(d: Disk, linker: map<Slot, nat>, pid: nat, c: Command, at: DecideAt, stamp: string)
    requires DiskOk(d) && linker.Keys == d.files.Keys && DecidingOk(d, linker, pid, c, at)
    requires at.Inspect? || at.CompareExisting? || at.ReadRace?
    ensures MoveOk(d, linker, pid, Deciding(c, at), DecideMove(d, c, at, stamp))
  {
    assert FileOk(d, SlotOf(c));
    DiskGrowth(d, DecideMove(d, c, at, stamp).disk);
  }

  lemma LinkMoveOk(d: Disk, linker: map<Slot, nat>, pid: nat, c: Command, at: DecideAt, stamp: string)
    requires DiskOk(d) && linker.Keys == d.files.Keys && DecidingOk(d, linker, pid, c, at)
    requires at.Link? || at.SyncLinked? || at.ReadBack?
    ensures MoveOk(d, linker, pid, Deciding(c, at), DecideMove(d, c, at, stamp))
  {
    assert FileOk(d, SlotOf(c));
    DiskGrowth(d, DecideMove(d, c, at, stamp).disk);
  }

  lemma GateMoveOk(d: Disk, linker: map<Slot, nat>, pid: nat, c: Command, at: DecideAt, stamp: string)
    requires DiskOk(d) && linker.Keys == d.files.Keys && DecidingOk(d, linker, pid, c, at)
    requires at.Validate? || at.Namespace? || at.BarrierQueue? || at.BarrierDecisions?
             || at.MakeDirectory? || at.BarrierRoot? || at.BarrierPublish?
    ensures MoveOk(d, linker, pid, Deciding(c, at), DecideMove(d, c, at, stamp))
  {
    DiskGrowth(d, DecideMove(d, c, at, stamp).disk);
  }

  lemma MissingMoveOk(d: Disk, linker: map<Slot, nat>, pid: nat, c: Command, stamp: string)
    requires DiskOk(d) && linker.Keys == d.files.Keys && DecidingOk(d, linker, pid, c, MissingRequest)
    ensures MoveOk(d, linker, pid, Deciding(c, MissingRequest), DecideMove(d, c, MissingRequest, stamp))
  {
    hide Reduce; hide EventsOf;
    assert Grows(d, d) && Grows(d, SyncDecisions(d));
    DiskGrowth(d, SyncDecisions(d));
    hide DiskOk; hide Grows; hide SyncDecisions;
  }

  lemma PublishMoveOk(d: Disk, linker: map<Slot, nat>, pid: nat, rq: string, at: PublishAt)
    requires DiskOk(d) && PublishingOk(d, at)
    ensures MoveOk(d, linker, pid, Publishing(rq, at), PublishMove(d, rq, at))
  {
    DiskGrowth(d, PublishMove(d, rq, at).disk);
  }

  /** The decisions a reader has listed belong to requests that are visible by the time it lists the queue: an
      orphan can only come from a first pass that found no queue directory. */
  lemma OrphanMeansNoQueueYet(d: Disk, pass: nat, at: ListAt)
    requires DiskOk(d) && ListingOk(d, pass, at) && at.ScanRequests?
    ensures Orphans(at.files, if at.queue then d.requests else {}) != {} ==> !at.queue && pass == 1 && d.queue
  {
    var requests := if at.queue then d.requests else {};
    if rq :| rq in Orphans(at.files, requests) {
      var s :| s in at.files && s.rq == rq && rq !in requests;
      assert FileOk(d, s);
    }
  }

  lemma ListMoveOk(d: Disk, linker: map<Slot, nat>, pid: nat, pass: nat, at: ListAt)
    requires DiskOk(d) && ListingOk(d, pass, at)
    ensures MoveOk(d, linker, pid, Listing(pass, at), ListMove(d, pass, at))
  {
    if at.ScanRequests? { OrphanMeansNoQueueYet(d, pass, at); }
    DiskGrowth(d, ListMove(d, pass, at).disk);
  }

  // ----- one step of the machine -----

  lemma ApplyInv(st: State, pid: nat, move: Move)
    requires Inv(st) && pid in st.processes
    requires MoveOk(st.disk, st.linker, pid, st.processes[pid], move)
    ensures Inv(Apply(st, pid, move))
  {
    var st' := Apply(st, pid, move);
    hide DiskOk; hide ProcessOk; hide OutcomeOk;
    forall q | q in st'.processes ensures ProcessOk(st'.disk, st'.linker, q, st'.processes[q]) {
      if q != pid { GrowthKeepsProcess(st.disk, st.linker, st'.disk, st'.linker, q, st.processes[q]); }
    }
    forall i | 0 <= i < |st.log| ensures ReturnOk(st'.disk, st'.linker, st.log[i]) {
      GrowthKeepsReturn(st.disk, st.linker, st'.disk, st'.linker, st.log[i]);
    }
  }

  lemma GrowthKeepsReturn(d: Disk, linker: map<Slot, nat>, d': Disk, linker': map<Slot, nat>, r: Return)
    requires Grows(d, d') && Extends(linker, linker') && ReturnOk(d, linker, r)
    ensures ReturnOk(d', linker', r)
  {
  }

  lemma PowerLossInv(st: State, keep: Loss)
    requires Inv(st)
    ensures Inv(Next(st, PowerLoss(keep)))
  {
    var st' := Next(st, PowerLoss(keep));
    forall s ensures FileOk(st'.disk, s) { assert FileOk(st.disk, s); }
    forall i | 0 <= i < |st'.log| ensures ReturnOk(st'.disk, st'.linker, st'.log[i]) {
      assert ReturnOk(st.disk, st.linker, st.log[i]);
      match st.log[i].outcome
      case Published(e) => assert FileOk(st.disk, SlotOf(e.command));
      case Idempotent(e) => assert FileOk(st.disk, SlotOf(e.command));
      case _ =>
    }
  }

  lemma ProcessMoveOk(st: State, pid: nat, stamp: string)
    requires Inv(st) && pid in st.processes
    ensures MoveOk(st.disk, st.linker, pid, st.processes[pid], ProcessMove(st.disk, st.processes[pid], stamp))
  {
    hide DiskOk; hide DecidingOk; hide PublishingOk; hide ListingOk; hide MoveOk;
    match st.processes[pid]
    case Deciding(c, at) => DecideMoveOk(st.disk, st.linker, pid, c, at, stamp);
    case Publishing(rq, at) => PublishMoveOk(st.disk, st.linker, pid, rq, at);
    case Listing(pass, at) => ListMoveOk(st.disk, st.linker, pid, pass, at);
  }

  lemma BeginInv(st: State, pid: nat, p: Process)
    requires Inv(st)
    ensures Inv(Next(st, Begin(pid, p)))
  {
  }

  lemma StepInv(st: State, step: Step)
    requires Inv(st)
    ensures Inv(Next(st, step))
    ensures !step.PowerLoss? ==> Grows(st.disk, Next(st, step).disk)
  {
    match step
    case Begin(pid, p) => BeginInv(st, pid, p);
    case Advance(pid, stamp) =>
      if pid in st.processes {
        ProcessMoveOk(st, pid, stamp);
        ApplyInv(st, pid, ProcessMove(st.disk, st.processes[pid], stamp));
      }
    case Fail(pid) =>
      if pid in st.processes { ApplyInv(st, pid, Finish(st.disk, Error("io"))); }
    case Kill(pid) =>
    case PowerLoss(keep) => PowerLossInv(st, keep);
  }

  lemma {:induction false} RunInv(st: State, steps: seq<Step>)
    requires Inv(st)
    ensures Inv(Run(st, steps))
    decreases |steps|
  {
    if steps != [] {
      RunInv(st, steps[..|steps| - 1]);
      StepInv(Run(st, steps[..|steps| - 1]), steps[|steps| - 1]);
    }
  }
}
