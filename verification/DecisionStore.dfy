/**
 The human decision store as a step machine.

 Any number of deciders, request publishers and readers run at once; one step is one I/O operation of
 one of them, and a directory listing is one step.  A process may fail with an I/O error or be killed
 between any two steps; a power loss kills all of them and drops any subset of the names that were
 not fsynced.
 */
module DecisionStore {
  import opened Wrappers

  datatype Action = Accept | Reject | Defer | Revise

  datatype Command = Command(rq: string, ordinal: nat, action: Action, operatorClaim: string, reason: string)

  datatype Event = Event(command: Command, recordedAt: string)

  datatype Slot = Slot(rq: string, ordinal: nat)

  function SlotOf(c: Command): Slot {
    Slot(c.rq, c.ordinal)
  }

  // ----- reduce_state -----

  datatype ReviewState = Pending | Deferred | Accepted | Rejected | Revised

  function Settled(a: Action): ReviewState {
    match a
    case Accept => Accepted
    case Reject => Rejected
    case Revise => Revised
    case Defer => Deferred
  }

  /** The state of one request; `None` where the original raises. */
  function Reduce(events: map<nat, Event>): Option<ReviewState> {
    if events == map[] then Some(Pending)
    else if exists k :: k in events && k != 1 && k != 2 then None
    else if 1 !in events then None
    else if 2 in events then
      if events[1].command.action != Defer || events[2].command.action == Defer then None
      else Some(Settled(events[2].command.action))
    else Some(Settled(events[1].command.action))
  }

  /** The loop of reduce_state: it refuses duplicates and unknown sequence numbers one event at a time. */
  method ReduceState(list: seq<Event>) returns (state: Option<ReviewState>)
    ensures state == if Distinct(list) then Reduce(BySeq(list)) else None
    ensures state == Some(Pending) <==> list == []
    ensures state.Some? && list != [] ==> LegalList(list)
    ensures LegalList(list) ==> state == Some(Named(LastAction(list)))
  {
    LegalReduces(list);
    var bySeq: map<nat, Event> := map[];
    for k := 0 to |list|
      invariant Distinct(list[..k]) && bySeq == BySeq(list[..k])
      invariant forall s :: s in bySeq ==> s == 1 || s == 2
    {
      var e := list[k];
      assert list[..k + 1][..k] == list[..k];
      if e.command.ordinal != 1 && e.command.ordinal != 2 {
        BadSeq(list, k);
        return None;
      }
      if e.command.ordinal in bySeq {
        BySeqKeys(list[..k], e.command.ordinal);
        return None;
      }
      if exists j :: 0 <= j < k && list[j].command.ordinal == e.command.ordinal {
        BySeqKeys(list[..k], e.command.ordinal);
      }
      bySeq := bySeq[e.command.ordinal := e];
    }
    assert list[..|list|] == list;
    if bySeq == map[] {
      return Some(Pending);
    }
    if 1 !in bySeq {
      return None;
    }
    if 2 in bySeq {
      if bySeq[1].command.action != Defer || bySeq[2].command.action == Defer {
        return None;
      }
      return Some(Settled(bySeq[2].command.action));
    }
    state := Some(Settled(bySeq[1].command.action));
  }

  /** The first decision alone, or a deferral followed by a second decision that does not defer, in either order. */
  predicate LegalList(list: seq<Event>) {
    || (|list| == 1 && list[0].command.ordinal == 1)
    || (|list| == 2 && Follows(list[0].command, list[1].command))
    || (|list| == 2 && Follows(list[1].command, list[0].command))
  }

  predicate Follows(first: Command, second: Command) {
    first.ordinal == 1 && first.action.Defer? && second.ordinal == 2 && !second.action.Defer?
  }

  /** The action of the event with the highest sequence number. */
  function LastAction(list: seq<Event>): Action
    requires LegalList(list)
  {
    if |list| == 2 && list[1].command.ordinal == 2 then list[1].command.action else list[0].command.action
  }

  /** The state that an action names. */
  function Named(a: Action): ReviewState {
    if a == Accept then Accepted else if a == Reject then Rejected else if a == Revise then Revised else Deferred
  }

  lemma LegalReduces(list: seq<Event>)
    ensures Distinct(list) && Reduce(BySeq(list)) == Some(Pending) <==> list == []
    ensures Distinct(list) && Reduce(BySeq(list)).Some? && list != [] ==> LegalList(list)
    ensures LegalList(list) ==> Distinct(list) && Reduce(BySeq(list)) == Some(Named(LastAction(list)))
  {
    forall j | 0 <= j < |list| ensures list[j].command.ordinal in BySeq(list) {
      BySeqKeys(list, list[j].command.ordinal);
    }
    if |list| == 1 { OneEvent(list[0]); assert list == [list[0]]; }
    if |list| == 2 { TwoEvents(list[0], list[1]); assert list == [list[0], list[1]]; }
    if |list| >= 3 && Distinct(list) { ThreeApart(list); }
  }

  /** Three different numbers are not all 1 or 2. */
  lemma ThreeApart(list: seq<Event>)
    requires |list| >= 3 && Distinct(list)
    ensures exists j :: 0 <= j < |list| && list[j].command.ordinal != 1 && list[j].command.ordinal != 2
  {
    var a, b, c := list[0].command.ordinal, list[1].command.ordinal, list[2].command.ordinal;
    assert a != b && a != c && b != c;
    var j := if a != 1 && a != 2 then 0 else if b != 1 && b != 2 then 1 else 2;
    assert list[j].command.ordinal != 1 && list[j].command.ordinal != 2;
  }

  lemma OneEvent(e: Event)
    ensures BySeq([e]) == map[e.command.ordinal := e]
  {
    assert [e][..0] == [] && BySeq([]) == map[];
  }

  lemma TwoEvents(e: Event, f: Event)
    ensures BySeq([e, f]) == map[e.command.ordinal := e][f.command.ordinal := f]
  {
    OneEvent(e);
    assert [e, f][..1] == [e];
  }

  predicate Distinct(list: seq<Event>) {
    forall i, j :: 0 <= i < j < |list| ==> list[i].command.ordinal != list[j].command.ordinal
  }

  function BySeq(list: seq<Event>): map<nat, Event> {
    if list == [] then map[] else BySeq(list[..|list| - 1])[list[|list| - 1].command.ordinal := list[|list| - 1]]
  }

  lemma {:induction false} BySeqKeys(list: seq<Event>, s: nat)
    ensures s in BySeq(list) <==> exists j :: 0 <= j < |list| && list[j].command.ordinal == s
    decreases |list|
  {
    if list != [] {
      var front := list[..|list| - 1];
      BySeqKeys(front, s);
      if s in BySeq(front) {
        var j :| 0 <= j < |front| && front[j].command.ordinal == s;
        assert list[j].command.ordinal == s;
      }
      if j :| 0 <= j < |list| && list[j].command.ordinal == s {
        if j < |front| { assert front[j].command.ordinal == s; }
      }
    }
  }

  lemma BadSeq(list: seq<Event>, k: nat)
    requires k < |list| && list[k].command.ordinal != 1 && list[k].command.ordinal != 2
    ensures Reduce(BySeq(list)) == None
  {
    BySeqKeys(list, list[k].command.ordinal);
  }

  // ----- the shared directories -----

  /** `queue` and `decisions` say whether the directories exist; the `...Durable` fields say what a power loss keeps. */
  datatype Disk = Disk(
    queue: bool, queueDurable: bool,
    decisions: bool, decisionsDurable: bool,
    requests: set<string>, requestsDurable: set<string>,
    files: map<Slot, Event>, filesDurable: set<Slot>)

  function SyncRoot(d: Disk): Disk {
    d.(queueDurable := d.queue, decisionsDurable := d.decisions)
  }

  function SyncQueue(d: Disk): Disk {
    d.(requestsDurable := d.requests)
  }

  function SyncDecisions(d: Disk): Disk {
    d.(filesDurable := d.files.Keys)
  }

  /** One atomic listing of the decisions directory, narrowed to one request; the files listed never change. */
  function EventsOf(files: map<Slot, Event>, rq: string): map<nat, Event> {
    var first: map<nat, Event> := if Slot(rq, 1) in files then map[1 := files[Slot(rq, 1)]] else map[];
    if Slot(rq, 2) in files then first[2 := files[Slot(rq, 2)]] else first
  }

  datatype Loss = Loss(queue: bool, decisions: bool, requests: set<string>, files: set<Slot>)

  /** What is left after a power loss: the durable names, and any of the others the loss happens to keep. */
  function AfterLoss(d: Disk, keep: Loss): Disk {
    var queue := d.queue && (d.queueDurable || keep.queue);
    var decisions := d.decisions && (d.decisionsDurable || keep.decisions);
    var requests := if queue then set r | r in d.requests && (r in d.requestsDurable || r in keep.requests) else {};
    var files := d.files - (set s | s in d.files && !(decisions && (s in d.filesDurable || s in keep.files)));
    Disk(queue, queue, decisions, decisions, requests, requests, files, files.Keys)
  }

  // ----- the processes -----

  /** Where one call of ReviewStore.decide stands. */
  datatype DecideAt =
    | Validate
    | MissingRequest
    | Namespace
    | BarrierQueue(exists': bool)
    | BarrierDecisions
    | Inspect(exists': bool)
    | CompareExisting(event: Event)
    | MakeDirectory(recordedAt: string)
    | BarrierRoot(recordedAt: string)
    | BarrierPublish(recordedAt: string)
    | Link(recordedAt: string)
    | ReadRace
    | SyncLinked(recordedAt: string)
    | ReadBack(recordedAt: string)

  /** Where the publication of a queue request stands. */
  datatype PublishAt = MakeQueue | SyncQueueEntry | LinkRequest | SyncRequest

  /** Where one pass of ReviewStore.list stands, with what it has seen so far. */
  datatype ListAt =
    | GateQueue
    | GateDecisions(queue: bool)
    | ReaderBarrier(queue: bool, decisions: bool)
    | ScanDecisions(queue: bool, decisions: bool)
    | ScanRequests(queue: bool, files: map<Slot, Event>)

  datatype Process =
    | Deciding(command: Command, decide: DecideAt)
    | Publishing(rq: string, publish: PublishAt)
    | Listing(pass: nat, list: ListAt)

  datatype Outcome = Published(event: Event) | Idempotent(event: Event) | Done | Error(code: string)

  /** One step of one process: what it does to the disk, and where it goes or what it returns. */
  datatype Move =
    | To(disk: Disk, process: Process)
    | Linked(disk: Disk, process: Process, slot: Slot)
    | Finish(disk: Disk, outcome: Outcome)

  predicate ValidCommand(c: Command) {
    (c.ordinal == 1 || c.ordinal == 2) && c.operatorClaim != "" && c.reason != ""
  }

  predicate Allowed(state: ReviewState, c: Command) {
    if c.ordinal == 1 then state == Pending else state == Deferred && c.action != Defer
  }

  function DecideMove(d: Disk, c: Command, at: DecideAt, stamp: string): Move {
    match at
    case Validate => To(d, Deciding(c, if d.queue && c.rq in d.requests then Namespace else MissingRequest))
    case MissingRequest =>
      var events := EventsOf(d.files, c.rq);
      if !d.decisions then Finish(d, Error("request_not_found"))
      else if events == map[] then Finish(SyncDecisions(d), Error("request_not_found"))
      else if Reduce(events).None? then Finish(SyncDecisions(d), Error("malformed_decision"))
      else Finish(SyncDecisions(d), Error("orphan_decision"))
    case Namespace => To(d, Deciding(c, BarrierQueue(d.decisions)))
    case BarrierQueue(exists') => To(SyncQueue(d), Deciding(c, if exists' then BarrierDecisions else Inspect(false)))
    case BarrierDecisions => To(SyncDecisions(d), Deciding(c, Inspect(true)))
    case Inspect(exists') =>
      var events := if exists' then EventsOf(d.files, c.rq) else map[];
      var state := Reduce(events);
      if state.None? then Finish(d, Error("malformed_decision"))
      else if c.ordinal in events then To(d, Deciding(c, CompareExisting(events[c.ordinal])))
      else if !Allowed(state.value, c) then Finish(d, Error("invalid_state_transition"))
      else To(d, Deciding(c, MakeDirectory(stamp)))
    case CompareExisting(event) =>
      Finish(SyncDecisions(d), if event.command == c then Idempotent(event) else Error("decision_slot_conflict"))
    case MakeDirectory(t) => To(d.(decisions := true), Deciding(c, BarrierRoot(t)))
    case BarrierRoot(t) => To(SyncRoot(d), Deciding(c, BarrierPublish(t)))
    case BarrierPublish(t) => To(SyncQueue(d), Deciding(c, Link(t)))
    case Link(t) =>
      if SlotOf(c) in d.files then To(d, Deciding(c, ReadRace))
      else Linked(d.(files := d.files[SlotOf(c) := Event(c, t)]), Deciding(c, SyncLinked(t)), SlotOf(c))
    case ReadRace =>
      var events := EventsOf(d.files, c.rq);
      if Reduce(events).None? then Finish(d, Error("malformed_decision"))
      else if c.ordinal !in events then Finish(d, Error("path_read_failed"))
      else To(d, Deciding(c, CompareExisting(events[c.ordinal])))
    case SyncLinked(t) => To(SyncDecisions(d), Deciding(c, ReadBack(t)))
    case ReadBack(t) =>
      if SlotOf(c) !in d.files then Finish(d, Error("decision_final_missing"))
      else if d.files[SlotOf(c)] != Event(c, t) then Finish(d, Error("decision_final_byte_mismatch"))
      else Finish(d, Published(Event(c, t)))
  }

  function PublishMove(d: Disk, rq: string, at: PublishAt): Move {
    match at
    case MakeQueue => To(d.(queue := true), Publishing(rq, SyncQueueEntry))
    case SyncQueueEntry => To(SyncRoot(d), Publishing(rq, LinkRequest))
    case LinkRequest => To(d.(requests := d.requests + {rq}), Publishing(rq, SyncRequest))
    case SyncRequest => Finish(SyncQueue(d), Done)
  }

  function Orphans(files: map<Slot, Event>, requests: set<string>): set<string> {
    set s | s in files && s.rq !in requests :: s.rq
  }

  function ListMove(d: Disk, pass: nat, at: ListAt): Move {
    match at
    case GateQueue => To(d, Listing(pass, GateDecisions(d.queue)))
    case GateDecisions(queue) => To(d, Listing(pass, ReaderBarrier(queue, d.decisions)))
    case ReaderBarrier(queue, decisions) =>
      var d' := if queue then SyncQueue(d) else d;
      To(if decisions then SyncDecisions(d') else d', Listing(pass, ScanDecisions(queue, decisions)))
    case ScanDecisions(queue, decisions) => To(d,
        Listing(pass, ScanRequests(queue, if decisions then d.files else map[])))
    case ScanRequests(queue, files) =>
      var requests := if queue then d.requests else {};
      if Orphans(files, requests) != {} then
        if pass == 1 then To(d, Listing(2, GateQueue)) else Finish(d, Error("orphan_decision"))
      else if exists rq ::
          rq in requests && Reduce(EventsOf(files, rq)).None? then Finish(d, Error("malformed_decision"))
      else Finish(d, Done)
  }

  function ProcessMove(d: Disk, p: Process, stamp: string): Move {
    match p
    case Deciding(c, at) => DecideMove(d, c, at, stamp)
    case Publishing(rq, at) => PublishMove(d, rq, at)
    case Listing(pass, at) => ListMove(d, pass, at)
  }

  // ----- the whole machine -----

  datatype Return = Return(pid: nat, process: Process, outcome: Outcome)

  /** `linker` and `log` are history: who linked each file that is there, and every result handed to a caller. */
  datatype State = State(disk: Disk, processes: map<nat, Process>, started: set<nat>, linker: map<Slot, nat>,
          log: seq<Return>)

  datatype Step =
    | Begin(pid: nat, process: Process)
    | Advance(pid: nat, stamp: string)
    | Fail(pid: nat)
    | Kill(pid: nat)
    | PowerLoss(keep: Loss)

  /** Calls start at the first statement; decide refuses malformed arguments before any I/O. */
  predicate IsCall(p: Process) {
    match p
    case Deciding(c, at) => at == Validate && ValidCommand(c)
    case Publishing(_, at) => at == MakeQueue
    case Listing(pass, at) => pass == 1 && at == GateQueue
  }

  function LinkerAfter(linker: map<Slot, nat>, move: Move, pid: nat): map<Slot, nat> {
    if move.Linked? then linker[move.slot := pid] else linker
  }

  function Apply(st: State, pid: nat, move: Move): State
    requires pid in st.processes
  {
    var linker := LinkerAfter(st.linker, move, pid);
    match move
    case To(disk, p) => State(disk, st.processes[pid := p], st.started, linker, st.log)
    case Linked(disk, p, _) => State(disk, st.processes[pid := p], st.started, linker, st.log)
    case Finish(disk, outcome) =>
      State(disk, st.processes - {pid}, st.started, linker, st.log + [Return(pid, st.processes[pid], outcome)])
  }

  function Next(st: State, step: Step): State {
    match step
    case Begin(pid, p) =>
      if pid in st.started || !IsCall(p) then st
      else st.(started := st.started + {pid}, processes := st.processes[pid := p])
    case Advance(pid, stamp) =>
      if pid in st.processes then Apply(st, pid, ProcessMove(st.disk, st.processes[pid], stamp)) else st
    case Fail(pid) =>
      if pid in st.processes then Apply(st, pid, Finish(st.disk, Error("io"))) else st
    case Kill(pid) => st.(processes := st.processes - {pid})
    case PowerLoss(keep) =>
      var disk := AfterLoss(st.disk, keep);
      st.(disk := disk, processes := map[], linker := st.linker - (st.linker.Keys - disk.files.Keys))
  }

  function Run(st: State, steps: seq<Step>): State
    decreases |steps|
  {
    if steps == [] then st else Next(Run(st, steps[..|steps| - 1]), steps[|steps| - 1])
  }

  const Empty := State(Disk(false, false, false, false, {}, {}, map[], {}), map[], {}, map[], [])
}
