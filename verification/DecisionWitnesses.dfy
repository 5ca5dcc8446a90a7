/** Two concrete runs that show the limits of what DecisionRuns proves. */
module DecisionWitnesses {
  import opened Wrappers
  import opened DecisionStore

  lemma Snoc(st: State, steps: seq<Step>, step: Step)
    ensures Run(st, steps + [step]) == Next(Run(st, steps), step)
  {
    assert (steps + [step])[..|steps|] == steps;
  }

  lemma {:induction false} Chain(st: State, steps: seq<Step>, more: seq<Step>)
    ensures Run(st, steps + more) == Run(Run(st, steps), more)
    decreases |more|
  {
    if more == [] {
      assert steps + more == steps;
    } else {
      var front, last := more[..|more| - 1], more[|more| - 1];
      Chain(st, steps, front);
      assert steps + more == (steps + front) + [last];
      Snoc(st, steps + front, last);
    }
  }

  /** Advancing one process is all that happens in `count` consecutive steps. */
  function Alone(pid: nat, count: nat): seq<Step> {
    seq(count, i => Advance(pid, "2026-01-01T00:00:00Z"))
  }

  function Solo(st: State, pid: nat, count: nat): State
    decreases count
  {
    if count == 0 then st else Solo(Next(st, Advance(pid, "2026-01-01T00:00:00Z")), pid, count - 1)
  }

  lemma {:induction false} SoloIsRun(st: State, pid: nat, count: nat)
    ensures Run(st, Alone(pid, count)) == Solo(st, pid, count)
    decreases count
  {
    if count > 0 {
      var step := Advance(pid, "2026-01-01T00:00:00Z");
      SoloIsRun(Next(st, step), pid, count - 1);
      assert Alone(pid, count) == [step] + Alone(pid, count - 1);
      Chain(st, [step], Alone(pid, count - 1));
      Snoc(st, [], step);
      assert [] + [step] == [step];
    }
  }

  const rq := "rq_1"
  const Publisher := Publishing(rq, MakeQueue)
  const First := Command(rq, 1, Defer, "ann", "later")
  const Second := Command(rq, 2, Accept, "bob", "fine")
  const Stamp := "2026-01-01T00:00:00Z"

  /** The disk after the request has been published. */
  const Requested := Disk(true, true, false, false, {rq}, {rq}, map[], {})

  lemma PublishAlone(st: State, pid: nat)
    requires pid in st.processes && st.processes[pid] == Publisher && st.disk == Empty.disk && st.linker == map[]
    ensures Solo(st, pid, 4) ==
            State(Requested, st.processes - {pid}, st.started, map[], st.log
                + [Return(pid, Publishing(rq, SyncRequest), Done)])
  {
    var s1 := Next(st, Advance(pid, Stamp));
    var s2 := Next(s1, Advance(pid, Stamp));
    var s3 := Next(s2, Advance(pid, Stamp));
    var s4 := Next(s3, Advance(pid, Stamp));
    assert s3.processes == st.processes[pid := Publishing(rq, SyncRequest)];
    assert s4.processes == st.processes - {pid};
    assert Solo(st, pid, 4) == s4;
  }

  /** A run of whole blocks: begin a process, or advance one alone. */
  datatype Block = Start(pid: nat, process: Process) | Go(pid: nat, count: nat) | Crash(keep: Loss)

  function Steps(b: Block): seq<Step> {
    match b
    case Start(pid, p) => [Begin(pid, p)]
    case Go(pid, count) => Alone(pid, count)
    case Crash(keep) => [PowerLoss(keep)]
  }

  function After(st: State, b: Block): State {
    match b
    case Start(pid, p) => Next(st, Begin(pid, p))
    case Go(pid, count) => Solo(st, pid, count)
    case Crash(keep) => Next(st, PowerLoss(keep))
  }

  lemma RunBlock(steps: seq<Step>, b: Block)
    ensures Run(Empty, steps + Steps(b)) == After(Run(Empty, steps), b)
  {
    var st := Run(Empty, steps);
    Chain(Empty, steps, Steps(b));
    match b
    case Go(pid, count) => SoloIsRun(st, pid, count);
    case Start(pid, p) =>
      Snoc(st, [], Begin(pid, p));
      assert [] + [Begin(pid, p)] == [Begin(pid, p)];
    case Crash(keep) =>
      Snoc(st, [], PowerLoss(keep));
      assert [] + [PowerLoss(keep)] == [PowerLoss(keep)];
  }

  lemma SoloTwice(st: State, pid: nat, m: nat, n: nat)
    ensures Solo(st, pid, m + n) == Solo(Solo(st, pid, m), pid, n)
    decreases m
  {
    if m > 0 { SoloTwice(Next(st, Advance(pid, Stamp)), pid, m - 1, n); }
  }

  lemma NoSteps()
    ensures Run(Empty, []) == Empty
  {
  }

  lemma GateFirst(st: State, pid: nat)
    requires pid in st.processes && st.processes[pid] == Listing(1, GateQueue) && st.disk == Empty.disk
    ensures Solo(st, pid, 1) == st.(processes := st.processes[pid := Listing(1, GateDecisions(false))])
  {
    Move1(st, pid);
  }

  lemma Move1(st: State, pid: nat)
    requires pid in st.processes
    ensures Solo(st, pid, 1) == Apply(st, pid, ProcessMove(st.disk, st.processes[pid], Stamp))
  {
    assert Solo(st, pid, 1) == Solo(Next(st, Advance(pid, Stamp)), pid, 0);
  }

  /** Up to its first mkdir a decider changes nothing but durability, and that is settled already. */
  lemma DeciderReachesInspect(st: State, pid: nat)
    requires pid in st.processes && st.processes[pid] == Deciding(First, Validate)
    requires st.disk == Requested && st.linker == map[]
    ensures Solo(st, pid, 3) == st.(processes := st.processes[pid := Deciding(First, Inspect(false))])
  {
    var s1 := Next(st, Advance(pid, Stamp));
    var s2 := Next(s1, Advance(pid, Stamp));
    var s3 := Next(s2, Advance(pid, Stamp));
    assert s3.processes == st.processes[pid := Deciding(First, Inspect(false))];
    assert Solo(st, pid, 3) == s3;
  }

  lemma DeciderMakesDirectory(st: State, pid: nat)
    requires pid in st.processes && st.processes[pid] == Deciding(First, Inspect(false))
    requires st.disk == Requested && st.linker == map[]
    ensures Solo(st, pid, 2) ==
            st.(disk := Requested.(decisions := true),
                processes := st.processes[pid := Deciding(First, BarrierRoot(Stamp))])
  {
    assert Reduce(map[]) == Some(Pending);
    var s1 := Next(st, Advance(pid, Stamp));
    assert s1.processes[pid] == Deciding(First, MakeDirectory(Stamp)) && s1.disk == Requested;
    var s2 := Next(s1, Advance(pid, Stamp));
    assert s2.processes == st.processes[pid := Deciding(First, BarrierRoot(Stamp))];
    assert Solo(st, pid, 2) == s2;
  }

  lemma DeciderReachesMkdir(st: State, pid: nat)
    requires pid in st.processes && st.processes[pid] == Deciding(First, Validate)
    requires st.disk == Requested && st.linker == map[]
    ensures Solo(st, pid, 5) ==
            st.(disk := Requested.(decisions := true),
                processes := st.processes[pid := Deciding(First, BarrierRoot(Stamp))])
  {
    hide Next;
    SoloTwice(st, pid, 3, 2);
    DeciderReachesInspect(st, pid);
    var mid := Solo(st, pid, 3);
    DeciderMakesDirectory(mid, pid);
    assert mid.processes[pid := Deciding(First, BarrierRoot(Stamp))] ==
        st.processes[pid := Deciding(First, BarrierRoot(Stamp))];
  }

  const FirstFile := map[Slot(rq, 1) := Event(First, Stamp)]
  const Linked := Disk(true, true, true, true, {rq}, {rq}, FirstFile, {})

  lemma FirstLinks(st: State, pid: nat)
    requires pid in st.processes && st.processes[pid] == Deciding(First, BarrierRoot(Stamp))
    requires st.disk == Requested.(decisions := true) && st.linker == map[]
    ensures Solo(st, pid, 3) ==
            st.(disk := Linked, processes := st.processes[pid := Deciding(First, SyncLinked(Stamp))],
                linker := map[Slot(rq, 1) := pid])
  {
    var s1 := Next(st, Advance(pid, Stamp));
    var s2 := Next(s1, Advance(pid, Stamp));
    var s3 := Next(s2, Advance(pid, Stamp));
    assert s3.disk == Linked;
    assert s3.processes == st.processes[pid := Deciding(First, SyncLinked(Stamp))];
    assert Solo(st, pid, 3) == s3;
  }

  /** A request is published, and a first decider gets as far as its mkdir. */
  lemma PublishThenDecide(before: seq<Step>) returns (steps: seq<Step>)
    requires var st := Run(Empty, before);
             st.disk == Empty.disk && st.linker == map[] && 1 !in st.started && 2 !in st.started && 1 !in st.processes
    ensures var st, st' := Run(Empty, before), Run(Empty, steps);
            && st'.disk == Requested.(decisions := true) && st'.linker == map[]
            && st'.processes == st.processes[2 := Deciding(First, BarrierRoot(Stamp))]
            && st'.started == st.started + {1, 2}
  {
    hide Solo; hide Run; hide ProcessMove;
    RunBlock(before, Start(1, Publisher));
    var s1 := before + Steps(Start(1, Publisher));
    RunBlock(s1, Go(1, 4));
    PublishAlone(Run(Empty, s1), 1);
    var s2 := s1 + Steps(Go(1, 4));
    assert Run(Empty, s2).processes == Run(Empty, before).processes;
    RunBlock(s2, Start(2, Deciding(First, Validate)));
    var s3 := s2 + Steps(Start(2, Deciding(First, Validate)));
    RunBlock(s3, Go(2, 5));
    DeciderReachesMkdir(Run(Empty, s3), 2);
    steps := s3 + Steps(Go(2, 5));
    assert Run(Empty, steps).processes == Run(Empty, before).processes[2 := Deciding(First, BarrierRoot(Stamp))];
  }

  /** The first pass of `list` can see an orphan: it looked for the queue directory before there was one. */
  lemma FirstPassCanSeeOrphan() returns (steps: seq<Step>)
    ensures var st := Run(Empty, steps); 0 in st.processes && st.processes[0] == Listing(2, GateQueue)
  {
    hide Solo; hide Run; hide ProcessMove;
    NoSteps();
    RunBlock([], Start(0, Listing(1, GateQueue)));
    var s1 := [] + Steps(Start(0, Listing(1, GateQueue)));
    RunBlock(s1, Go(0, 1));
    GateFirst(Run(Empty, s1), 0);
    var s2 := PublishThenDecide(s1 + Steps(Go(0, 1)));
    RunBlock(s2, Go(2, 3));
    FirstLinks(Run(Empty, s2), 2);
    var s3 := s2 + Steps(Go(2, 3));
    RunBlock(s3, Go(0, 4));
    ReaderSeesOrphan(Run(Empty, s3), 0);
    steps := s3 + Steps(Go(0, 4));
  }

  lemma ReaderSeesOrphan(st: State, pid: nat)
    requires pid in st.processes && st.processes[pid] == Listing(1, GateDecisions(false)) && st.disk == Linked
    ensures var st' := Solo(st, pid, 4); pid in st'.processes && st'.processes[pid] == Listing(2, GateQueue)
  {
    var s1 := Next(st, Advance(pid, Stamp));
    var s2 := Next(s1, Advance(pid, Stamp));
    var s3 := Next(s2, Advance(pid, Stamp));
    assert s3.processes[pid] == Listing(1, ScanRequests(false, FirstFile));
    assert Slot(rq, 1) in FirstFile && Slot(rq, 1).rq in Orphans(FirstFile, {});
    var s4 := Next(s3, Advance(pid, Stamp));
    SoloTwice(st, pid, 2, 2);
    assert Solo(st, pid, 2) == s2 && Solo(s2, pid, 2) == s4;
  }

  const Both := FirstFile[Slot(rq, 2) := Event(Second, Stamp)]

  /** Two concurrent deciders and one power loss can leave a second decision without its first one. */
  lemma ConcurrentDecidersAndPowerLoss() returns (steps: seq<Step>)
    ensures Reduce(EventsOf(Run(Empty, steps).disk.files, rq)) == None
  {
    hide Solo; hide Run; hide ProcessMove;
    NoSteps();
    var s0 := PublishThenDecide([]);
    RunBlock(s0, Start(3, Deciding(Second, Validate)));
    var s1 := s0 + Steps(Start(3, Deciding(Second, Validate)));
    RunBlock(s1, Go(3, 4));
    SecondReachesInspect(Run(Empty, s1), 3);
    var s2 := s1 + Steps(Go(3, 4));
    RunBlock(s2, Go(2, 3));
    FirstLinks(Run(Empty, s2), 2);
    var s3 := s2 + Steps(Go(2, 3));
    RunBlock(s3, Go(3, 5));
    SecondLinks(Run(Empty, s3), 3);
    var s4 := s3 + Steps(Go(3, 5));
    var keep := Loss(true, true, {}, {Slot(rq, 2)});
    RunBlock(s4, Crash(keep));
    steps := s4 + Steps(Crash(keep));
    var files := Run(Empty, steps).disk.files;
    assert Slot(rq, 2) in files && Slot(rq, 1) !in files;
    assert 2 in EventsOf(files, rq) && 1 !in EventsOf(files, rq);
  }

  /** A step of the second decider that changes nothing on a disk that is durable already. */
  lemma QuietMove(st: State, pid: nat, at: DecideAt, after: DecideAt) returns (next: State)
    requires pid in st.processes && st.processes[pid] == Deciding(Second, at)
        && st.disk == Requested.(decisions := true)
    requires (at, after) in {(Validate, Namespace), (Namespace, BarrierQueue(true)),
        (BarrierQueue(true), BarrierDecisions),
                             (BarrierDecisions, Inspect(true))}
    ensures next == Next(st, Advance(pid, Stamp)) == st.(processes := st.processes[pid := Deciding(Second, after)])
  {
    assert Requested.files.Keys == {};
    assert DecideMove(st.disk, Second, at, Stamp) == To(st.disk, Deciding(Second, after));
    hide DecideMove;
    next := Next(st, Advance(pid, Stamp));
  }

  lemma SecondReachesInspect(st: State, pid: nat)
    requires pid in st.processes && st.processes[pid] == Deciding(Second, Validate)
    requires st.disk == Requested.(decisions := true) && st.linker == map[]
    ensures Solo(st, pid, 4) == st.(processes := st.processes[pid := Deciding(Second, Inspect(true))])
  {
    var s1 := QuietMove(st, pid, Validate, Namespace);
    var s2 := QuietMove(s1, pid, Namespace, BarrierQueue(true));
    var s3 := QuietMove(s2, pid, BarrierQueue(true), BarrierDecisions);
    var s4 := QuietMove(s3, pid, BarrierDecisions, Inspect(true));
    hide Next; hide DecideMove;
    SoloTwice(st, pid, 2, 2);
    assert Solo(st, pid, 2) == s2 && Solo(s2, pid, 2) == s4;
  }

  lemma SecondLinks(st: State, pid: nat)
    requires pid in st.processes && st.processes[pid] == Deciding(Second, Inspect(true)) && st.disk == Linked
    ensures Solo(st, pid, 5).disk == Linked.(files := Both)
  {
    var events := EventsOf(Linked.files, rq);
    assert 1 in events && 2 !in events && events[1] == Event(First, Stamp);
    assert Reduce(events) == Some(Deferred);
    var s1 := Next(st, Advance(pid, Stamp));
    assert s1.processes[pid] == Deciding(Second, MakeDirectory(Stamp)) && s1.disk == Linked;
    assert Solo(st, pid, 1) == s1 by { Move1(st, pid); }
    SoloTwice(st, pid, 1, 4);
    SecondLinksFrom(s1, pid);
  }

  lemma SecondLinksFrom(st: State, pid: nat)
    requires pid in st.processes && st.processes[pid] == Deciding(Second, MakeDirectory(Stamp)) && st.disk == Linked
    ensures Solo(st, pid, 4).disk == Linked.(files := Both)
  {
    var s1 := LinkedMove(st, pid, MakeDirectory(Stamp), BarrierRoot(Stamp));
    var s2 := LinkedMove(s1, pid, BarrierRoot(Stamp), BarrierPublish(Stamp));
    var s3 := LinkedMove(s2, pid, BarrierPublish(Stamp), Link(Stamp));
    var s4 := Next(s3, Advance(pid, Stamp));
    assert s4.disk == Linked.(files := Both) by { SecondFile(s3, pid); }
    hide Next; hide DecideMove;
    SoloTwice(st, pid, 2, 2);
    assert Solo(st, pid, 2) == s2 && Solo(s2, pid, 2) == s4;
  }

  lemma SecondFile(st: State, pid: nat)
    requires pid in st.processes && st.processes[pid] == Deciding(Second, Link(Stamp)) && st.disk == Linked
    ensures Next(st, Advance(pid, Stamp)).disk == Linked.(files := Both)
  {
  }

  /** A step of the second decider on a disk that already holds the first decision. */
  lemma LinkedMove(st: State, pid: nat, at: DecideAt, after: DecideAt) returns (next: State)
    requires pid in st.processes && st.processes[pid] == Deciding(Second, at) && st.disk == Linked
    requires (at, after) in {(MakeDirectory(Stamp), BarrierRoot(Stamp)), (BarrierRoot(Stamp), BarrierPublish(Stamp)),
                             (BarrierPublish(Stamp), Link(Stamp))}
    ensures next == Next(st, Advance(pid, Stamp)) == st.(processes := st.processes[pid := Deciding(Second, after)])
  {
    assert DecideMove(st.disk, Second, at, Stamp) == To(st.disk, Deciding(Second, after));
    hide DecideMove;
    next := Next(st, Advance(pid, Stamp));
  }
}
