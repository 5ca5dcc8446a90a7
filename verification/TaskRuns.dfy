/** What every run of the Kanban board keeps. */
module TaskRuns {
  import opened Wrappers
  import opened TaskBoard

  const EMPTY := Board(map[], {}, 0)

  /** A run: the boards in between, each reached by one call. */
  ghost predicate Run(boards: seq<Board>, ops: seq<Op>) {
    && |boards| == |ops| + 1 && boards[0] == EMPTY
    && forall i :: 0 <= i < |ops| ==> Reaches(boards[i], ops[i], boards[i + 1])
  }

  // ----- claims -----

  /** A task has an owner exactly while it is running. */
  ghost predicate OwnerIffRunning(b: Board) {
    forall id :: id in b.tasks ==> (b.tasks[id].owner.Some? <==> b.tasks[id].status == Running)
  }

  lemma StepKeepsOwner(a: Board, op: Op, b: Board, error: Option<Error>)
    requires OwnerIffRunning(a) && Step(a, op, b, error)
    ensures OwnerIffRunning(b)
  {
    hide ParentsDone; hide FirstReady;
  }

  lemma {:induction false} OwnersInRuns(boards: seq<Board>, ops: seq<Op>, i: nat)
    requires Run(boards, ops) && i < |boards|
    ensures OwnerIffRunning(boards[i])
    decreases i
  {
    hide OwnerIffRunning; hide Step;
    if i == 0 {
      NobodyOwns();
    } else {
      OwnersInRuns(boards, ops, i - 1);
      assert Reaches(boards[i - 1], ops[i - 1], boards[i - 1 + 1]);
      var error :| Step(boards[i - 1], ops[i - 1], boards[i], error);
      StepKeepsOwner(boards[i - 1], ops[i - 1], boards[i], error);
    }
  }

  lemma NobodyOwns()
    ensures OwnerIffRunning(EMPTY)
  {
  }

  /** So a claim never fails on a stale owner: with something ready, it is granted. */
  lemma ClaimIsGranted(boards: seq<Board>, ops: seq<Op>, i: nat, owner: string, until: int, b: Board,
          error: Option<Error>)
    requires Run(boards, ops) && i < |boards| && Step(boards[i], Claim(owner, until), b, error)
    ensures error == None <==> exists id :: FirstReady(boards[i], id)
  {
    OwnersInRuns(boards, ops, i);
    hide FirstReady;
    if id :| FirstReady(boards[i], id) { ReadyIsThere(boards[i], id); }
    forall id | FirstReady(boards[i], id) ensures boards[i].tasks[id].owner == None { ReadyIsThere(boards[i], id); }
  }

  /** A transient block gives the task back: the next claim of a task that nothing ready precedes takes it again. */
  lemma TransientIsClaimedAgain(a: Board, id: string, owner: string, b: Board, next: string, until: int, c: Board,
          error: Option<Error>)
    requires Step(a, Block(id, owner, Transient), b, None) && Step(b, Claim(next, until), c, error)
    requires id in a.tasks && a.tasks[id].status == Running && a.tasks[id].owner == Some(owner)
    requires forall x :: x in a.tasks && a.tasks[x].status == Ready ==>
               || a.tasks[x].priority < a.tasks[id].priority
               || (a.tasks[x].priority == a.tasks[id].priority && a.tasks[id].created < a.tasks[x].created)
    ensures error == None && id in c.tasks && c.tasks[id].status == Running && c.tasks[id].owner == Some(next)
  {
    assert b.tasks[id].status == Ready && b.tasks[id].owner == None;
    assert FirstReady(b, id);
    forall x | FirstReady(b, x) ensures x == id { ReadyIsThere(b, x); }
  }

  lemma ReadyIsThere(b: Board, id: string)
    requires FirstReady(b, id)
    ensures id in b.tasks && b.tasks[id].status == Ready
  {
  }

  /** Done is for ever, tasks and links never disappear. */
  lemma DoneStays(a: Board, op: Op, b: Board, error: Option<Error>)
    requires Step(a, op, b, error)
    ensures a.tasks.Keys <= b.tasks.Keys && a.links <= b.links
    ensures forall id :: id in a.tasks && a.tasks[id].status == Done ==> b.tasks[id] == a.tasks[id]
  {
    hide ParentsDone; hide FirstReady;
    forall id | FirstReady(a, id) ensures id in a.tasks && a.tasks[id].status == Ready { ReadyIsThere(a, id); }
  }

  lemma {:induction false} DoneIsForever(boards: seq<Board>, ops: seq<Op>, id: string, i: nat, j: nat)
    requires Run(boards, ops) && i <= j < |boards| && id in boards[i].tasks && boards[i].tasks[id].status == Done
    ensures id in boards[j].tasks && boards[j].tasks[id] == boards[i].tasks[id]
    decreases j
  {
    hide Step;
    if i < j {
      DoneIsForever(boards, ops, id, i, j - 1);
      assert Reaches(boards[j - 1], ops[j - 1], boards[j - 1 + 1]);
      var error :| Step(boards[j - 1], ops[j - 1], boards[j], error);
      DoneStays(boards[j - 1], ops[j - 1], boards[j], error);
    }
  }

  // ----- dependencies -----

  predicate Released(s: Status) {
    s in {Ready, Running, Done}
  }

  /** The ends of every link exist. */
  ghost predicate Linked(b: Board) {
    forall l :: l in b.links ==> l.0 in b.tasks && l.1 in b.tasks
  }

  predicate LinkInOrder(b: Board, l: (string, string))
    requires l.0 in b.tasks && l.1 in b.tasks
  {
    Released(b.tasks[l.1].status) ==> b.tasks[l.0].status == Done
  }

  /** Every ready, running or done task has all its parents done. */
  ghost predicate Order(b: Board) {
    Linked(b) && forall l :: l in b.links ==> LinkInOrder(b, l)
  }

  /** A link from a parent that is not done to a task that is already released. */
  predicate LateLink(b: Board, op: Op) {
    && op.Link? && LinkOk(b, op.parent, op.child)
    && Released(b.tasks[op.child].status) && b.tasks[op.parent].status != Done
  }

  lemma RecomputedKeepsOrder(a: Board, b: Board)
    requires Order(a) && Recomputed(a, b)
    ensures Order(b)
  {
    forall l | l in b.links ensures l.0 in b.tasks && l.1 in b.tasks && LinkInOrder(b, l) {
      assert LinkInOrder(a, l);
    }
  }

  /** A change of one task that releases it only with its parents done, and does not undo it. */
  lemma SetKeepsOrder(a: Board, id: string, t: Task)
    requires Order(a) && id in a.tasks && (a.tasks[id].status == Done ==> t.status == Done)
    requires Released(t.status) ==> Released(a.tasks[id].status)
    ensures Order(Set(a, id, t))
  {
    var b := Set(a, id, t);
    forall l | l in b.links ensures l.0 in b.tasks && l.1 in b.tasks && LinkInOrder(b, l) {
      assert LinkInOrder(a, l);
    }
  }

  lemma CreateKeepsOrder(a: Board, id: string, t: Task)
    requires Order(a) && id !in a.tasks
    ensures Order(Set(a, id, t))
  {
    var b := Set(a, id, t);
    forall l | l in b.links ensures l.0 in b.tasks && l.1 in b.tasks && LinkInOrder(b, l) {
      assert LinkInOrder(a, l);
    }
  }

  lemma LinkKeepsOrderIff(a: Board, parent: string, child: string)
    requires Order(a) && LinkOk(a, parent, child)
    ensures Order(a.(links := a.links + {(parent, child)})) <==> !LateLink(a, Link(parent, child))
  {
    var b := a.(links := a.links + {(parent, child)});
    var added := (parent, child);
    assert added in b.links && b.tasks == a.tasks;
    assert LinkInOrder(b, added) <==> !LateLink(a, Link(parent, child));
    forall l | l in b.links && l != added ensures l.0 in b.tasks && l.1 in b.tasks && LinkInOrder(b, l) {
      assert LinkInOrder(a, l);
    }
  }

  lemma FinishedIsSet(a: Board, id: string)
    requires Order(a) && id in a.tasks && a.tasks[id].status == Running
    ensures Order(Finished(a, id))
  {
    SetKeepsOrder(a, id, a.tasks[id].(status := Done, owner := None, expires := 0, finished := a.clock));
  }

  /** A late link is the one call that breaks the order. */
  lemma OrderBreaksIff(a: Board, op: Op, b: Board, error: Option<Error>)
    requires Order(a) && Step(a, op, b, error)
    ensures Order(b) <==> !LateLink(a, op)
  {
    hide Order; hide Recomputed; hide FirstReady; hide LateLink;
    LateIsLink(a, op);
    match op {
      case Create(id, status, priority, created) =>
        if error == None { CreateKeepsOrder(a, id, Task(status, priority, created, None, 0, None, 0)); }
      case Link(parent, child) => if LinkOk(a, parent, child) { LinkKeepsOrderIff(a, parent, child); }
      case Recompute => RecomputedKeepsOrder(a, b);
      case Claim(owner, until) => if error == None { ClaimKeepsOrder(a, owner, until, b); }
      case Heartbeat(id, owner, until) =>
        if OwnedBy(a, id, owner) { SetKeepsOrder(a, id, a.tasks[id].(expires := until)); }
      case Complete(id, owner) =>
        if OwnedBy(a, id, owner) { FinishedIsSet(a, id); }
      case Block(id, owner, kind) =>
        if OwnedBy(a, id, owner) {
          SetKeepsOrder(a, id,
            a.tasks[id].(status := BlockStatus(kind), owner := None, expires := 0, blocked := Some(kind)));
        }
    }
  }

  lemma LateIsLink(a: Board, op: Op)
    ensures LateLink(a, op) ==> op.Link? && LinkOk(a, op.parent, op.child)
  {
  }

  lemma ClaimKeepsOrder(a: Board, owner: string, until: int, b: Board)
    requires Order(a) && Step(a, Claim(owner, until), b, None)
    ensures Order(b)
  {
    hide Order; hide FirstReady;
    forall x | FirstReady(a, x) ensures x in a.tasks && a.tasks[x].status == Ready { ReadyIsThere(a, x); }
    var id :| FirstReady(a, id)
              && b == Set(a, id, a.tasks[id].(status := Running, owner := Some(owner), expires := until));
    SetKeepsOrder(a, id, a.tasks[id].(status := Running, owner := Some(owner), expires := until));
  }

  ghost predicate NoLateLink(boards: seq<Board>, ops: seq<Op>)
    requires |boards| == |ops| + 1
  {
    forall i :: 0 <= i < |ops| ==> !LateLink(boards[i], ops[i])
  }

  lemma EmptyOrder()
    ensures Order(EMPTY)
  {
  }

  lemma {:induction false} OrderInRun(boards: seq<Board>, ops: seq<Op>, i: nat)
    requires Run(boards, ops) && NoLateLink(boards, ops) && i < |boards|
    ensures Order(boards[i])
    decreases i
  {
    hide Order; hide Step; hide LateLink;
    if i == 0 {
      EmptyOrder();
    } else {
      OrderInRun(boards, ops, i - 1);
      assert Reaches(boards[i - 1], ops[i - 1], boards[i - 1 + 1]);
      var error :| Step(boards[i - 1], ops[i - 1], boards[i], error);
      OrderBreaksIff(boards[i - 1], ops[i - 1], boards[i], error);
    }
  }

  /**
   In a run every ready, running or done task has all its parents done at all times, exactly if no link is added from
   an unfinished parent to a task that is already released.
   */
  lemma ParentsDoneIff(boards: seq<Board>, ops: seq<Op>)
    requires Run(boards, ops)
    ensures (forall i :: 0 <= i < |boards| ==> Order(boards[i])) <==> NoLateLink(boards, ops)
  {
    hide Order; hide Step; hide LateLink;
    if NoLateLink(boards, ops) {
      forall i | 0 <= i < |boards| ensures Order(boards[i]) { OrderInRun(boards, ops, i); }
    }
    if forall i :: 0 <= i < |boards| ==> Order(boards[i]) {
      forall i | 0 <= i < |ops| ensures !LateLink(boards[i], ops[i]) {
        assert Order(boards[i + 1]);
        assert Reaches(boards[i], ops[i], boards[i + 1]);
        var error :| Step(boards[i], ops[i], boards[i + 1], error);
        OrderBreaksIff(boards[i], ops[i], boards[i + 1], error);
      }
    }
  }

  // ----- cycles -----

  /** A closed walk from child to parent. */
  ghost predicate Cycle(b: Board, c: seq<string>) {
    && |c| >= 2 && c[0] == c[|c| - 1]
    && forall k :: 0 <= k < |c| - 1 ==> (c[k + 1], c[k]) in b.links
  }

  /** Up the cycle from a released task everything is done. */
  lemma {:induction false} DoneUpwards(b: Board, c: seq<string>, i: nat, k: nat)
    requires Order(b) && Cycle(b, c) && i < k < |c| && c[i] in b.tasks && Released(b.tasks[c[i]].status)
    ensures c[k] in b.tasks && b.tasks[c[k]].status == Done
    decreases k
  {
    if k > i + 1 { DoneUpwards(b, c, i, k - 1); }
    var l := (c[k - 1 + 1], c[k - 1]);
    assert l in b.links && LinkInOrder(b, l);
  }

  /** With one released task the whole cycle is done. */
  lemma ReleasedCycleIsDone(b: Board, c: seq<string>, i: nat, k: nat)
    requires Order(b) && Cycle(b, c) && i < |c| - 1 && k < |c| && c[i] in b.tasks && Released(b.tasks[c[i]].status)
    ensures c[k] in b.tasks && b.tasks[c[k]].status == Done
  {
    DoneUpwards(b, c, i, |c| - 1);
    if k == 0 {
      assert c[0] == c[|c| - 1];
    } else {
      DoneUpwards(b, c, 0, k);
    }
  }

  /**
   Without late links no task on a dependency cycle is ever ready or running, so none is ever claimed; and if one is
   done, all are: the cycle was closed between finished tasks.
   */
  lemma CyclesNeverRun(boards: seq<Board>, ops: seq<Op>, i: nat, c: seq<string>, j: nat, k: nat)
    requires Run(boards, ops) && NoLateLink(boards, ops) && i < |boards| && Cycle(boards[i], c)
    requires j < |c| && k < |c|
    ensures c[k] in boards[i].tasks && boards[i].tasks[c[k]].status !in {Ready, Running}
    ensures c[j] in boards[i].tasks
    ensures boards[i].tasks[c[j]].status == Done <==> boards[i].tasks[c[k]].status == Done
  {
    var b := boards[i];
    OrderInRun(boards, ops, i);
    CycleExists(b, c, j);
    CycleExists(b, c, k);
    var j', k' := if j == |c| - 1 then 0 else j, if k == |c| - 1 then 0 else k;
    if Released(b.tasks[c[k]].status) { ReleasedCycleIsDone(b, c, k', k); ReleasedCycleIsDone(b, c, k', j); }
    if Released(b.tasks[c[j]].status) { ReleasedCycleIsDone(b, c, j', k); }
  }

  lemma CycleExists(b: Board, c: seq<string>, k: nat)
    requires Linked(b) && Cycle(b, c) && k < |c|
    ensures c[k] in b.tasks
  {
    var i := if k == |c| - 1 then 0 else k;
    assert (c[i + 1], c[i]) in b.links;
  }

  // ----- cycles, when no link is added to a finished task -----

  /** Neither a late link nor a link to a task that is done. */
  ghost predicate Disciplined(b: Board, op: Op) {
    !LateLink(b, op) && (op.Link? && LinkOk(b, op.parent, op.child) ==> b.tasks[op.child].status != Done)
  }

  /** The parents of a released task are done, and were done before it. */
  ghost predicate ParentsFirst(b: Board) {
    && (forall id :: id in b.tasks && b.tasks[id].status == Done ==> b.tasks[id].finished < b.clock)
    && forall l :: l in b.links && l.1 in b.tasks && Released(b.tasks[l.1].status) ==> ParentFirst(b, l.0, l.1)
  }

  ghost predicate ParentFirst(b: Board, parent: string, child: string)
    requires child in b.tasks
  {
    && parent in b.tasks && b.tasks[parent].status == Done
    && (b.tasks[child].status == Done ==> b.tasks[parent].finished < b.tasks[child].finished)
  }

  ghost predicate Inv(b: Board) {
    Linked(b) && ParentsFirst(b)
  }

  lemma RecomputedKeepsInv(a: Board, b: Board)
    requires Inv(a) && Recomputed(a, b)
    ensures Inv(b)
  {
    forall l | l in b.links && l.1 in b.tasks && Released(b.tasks[l.1].status) ensures ParentFirst(b, l.0, l.1) {
      if Eligible(a, l.1) {
        assert l.0 in a.tasks;
      } else {
        assert ParentFirst(a, l.0, l.1);
      }
    }
  }

  lemma FinishedKeepsInv(a: Board, id: string)
    requires Inv(a) && id in a.tasks && a.tasks[id].status == Running
    ensures Inv(Finished(a, id))
  {
    var b := Finished(a, id);
    forall l | l in b.links && l.1 in b.tasks && Released(b.tasks[l.1].status) ensures ParentFirst(b, l.0, l.1) {
      assert ParentFirst(a, l.0, l.1);
    }
  }

  /** A status change of one task that does not finish it, and does not release it without its parents. */
  lemma SetKeepsInv(a: Board, id: string, t: Task)
    requires Inv(a) && id in a.tasks && a.tasks[id].status != Done && t.status != Done
    requires Released(t.status) ==> Released(a.tasks[id].status)
    ensures Inv(Set(a, id, t))
  {
    var b := Set(a, id, t);
    forall l | l in b.links && l.1 in b.tasks && Released(b.tasks[l.1].status) ensures ParentFirst(b, l.0, l.1) {
      assert ParentFirst(a, l.0, l.1);
    }
  }

  lemma CreateKeepsInv(a: Board, id: string, t: Task)
    requires Inv(a) && id !in a.tasks && t.status != Done
    ensures Inv(Set(a, id, t))
  {
    var b := Set(a, id, t);
    forall l | l in b.links && l.1 in b.tasks && Released(b.tasks[l.1].status) ensures ParentFirst(b, l.0, l.1) {
      assert ParentFirst(a, l.0, l.1);
    }
  }

  lemma LinkKeepsInv(a: Board, parent: string, child: string)
    requires Inv(a) && LinkOk(a, parent, child) && Disciplined(a, Link(parent, child))
    ensures Inv(a.(links := a.links + {(parent, child)}))
  {
    var b := a.(links := a.links + {(parent, child)});
    forall l | l in b.links && l.1 in b.tasks && Released(b.tasks[l.1].status) ensures ParentFirst(b, l.0, l.1) {
      assert ParentFirst(a, l.0, l.1);
    }
  }

  lemma StepKeepsInv(a: Board, op: Op, b: Board, error: Option<Error>)
    requires Inv(a) && Step(a, op, b, error) && Disciplined(a, op)
    ensures Inv(b)
  {
    hide Inv; hide Recomputed; hide FirstReady;
    match op {
      case Create(id, status, priority, created) =>
        if error == None { CreateKeepsInv(a, id, Task(status, priority, created, None, 0, None, 0)); }
      case Link(parent, child) => if LinkOk(a, parent, child) { LinkKeepsInv(a, parent, child); }
      case Recompute => RecomputedKeepsInv(a, b);
      case Claim(owner, until) =>
        if error == None {
          forall x | FirstReady(a, x) ensures x in a.tasks { ReadyIsThere(a, x); }
          var id :| FirstReady(a, id) && id in a.tasks
                    && b == Set(a, id, a.tasks[id].(status := Running, owner := Some(owner), expires := until));
          ReadyIsThere(a, id);
          SetKeepsInv(a, id, a.tasks[id].(status := Running, owner := Some(owner), expires := until));
        }
      case Heartbeat(id, owner, until) =>
        if OwnedBy(a, id, owner) { SetKeepsInv(a, id, a.tasks[id].(expires := until)); }
      case Complete(id, owner) =>
        if OwnedBy(a, id, owner) { FinishedKeepsInv(a, id); }
      case Block(id, owner, kind) =>
        if OwnedBy(a, id, owner) {
          SetKeepsInv(a, id, a.tasks[id].(status := BlockStatus(kind), owner := None, expires := 0,
              blocked := Some(kind)));
        }
    }
  }

  ghost predicate DisciplinedRun(boards: seq<Board>, ops: seq<Op>) {
    Run(boards, ops) && forall i :: 0 <= i < |ops| ==> Disciplined(boards[i], ops[i])
  }

  lemma {:induction false} RunInv(boards: seq<Board>, ops: seq<Op>, i: nat)
    requires DisciplinedRun(boards, ops) && i < |boards|
    ensures Inv(boards[i])
    decreases i
  {
    hide Inv; hide Step; hide Disciplined;
    if i == 0 {
      EmptyInv();
    } else {
      RunInv(boards, ops, i - 1);
      assert Reaches(boards[i - 1], ops[i - 1], boards[i - 1 + 1]);
      var error :| Step(boards[i - 1], ops[i - 1], boards[i], error);
      StepKeepsInv(boards[i - 1], ops[i - 1], boards[i], error);
    }
  }

  lemma EmptyInv()
    ensures Inv(EMPTY)
  {
  }

  lemma {:induction false} UpTheCycle(b: Board, c: seq<string>, k: nat)
    requires Inv(b) && Cycle(b, c) && 0 < k < |c| && c[0] in b.tasks && b.tasks[c[0]].status == Done
    ensures c[k] in b.tasks && b.tasks[c[k]].status == Done && b.tasks[c[k]].finished < b.tasks[c[0]].finished
    decreases k
  {
    if k > 1 { UpTheCycle(b, c, k - 1); }
    assert (c[k - 1 + 1], c[k - 1]) in b.links;
    var l := (c[k], c[k - 1]);
    assert ParentFirst(b, l.0, l.1);
  }

  /** Then no task on a dependency cycle is ever done either. */
  lemma CyclesNeverFinish(boards: seq<Board>, ops: seq<Op>, i: nat, c: seq<string>, k: nat)
    requires DisciplinedRun(boards, ops) && i < |boards| && Cycle(boards[i], c) && k < |c|
    ensures c[k] in boards[i].tasks && !Released(boards[i].tasks[c[k]].status)
  {
    var b := boards[i];
    RunInv(boards, ops, i);
    assert NoLateLink(boards, ops) by {
      forall n | 0 <= n < |ops| ensures !LateLink(boards[n], ops[n]) { assert Disciplined(boards[n], ops[n]); }
    }
    CyclesNeverRun(boards, ops, i, c, 0, k);
    if b.tasks[c[0]].status == Done { UpTheCycle(b, c, |c| - 1); }
  }

  /** A late link lets a task run before its parent. */
  lemma LateLinkBreaksOrder() returns (boards: seq<Board>, ops: seq<Op>)
    ensures Run(boards, ops) && |boards| == 6
    ensures ("p", "c") in boards[5].links && boards[5].tasks.Keys == {"p", "c"}
    ensures boards[5].tasks["c"].status == Running && boards[5].tasks["p"].status == Todo
  {
    var c, p := Task(Todo, 1, 0, None, 0, None, 0), Task(Todo, 0, 0, None, 0, None, 0);
    var b1 := Board(map["c" := c], {}, 0);
    var b2 := Board(map["c" := c.(status := Ready)], {}, 0);
    var b3 := Board(map["c" := c.(status := Ready), "p" := p], {}, 0);
    var b4 := Board(b3.tasks, {("p", "c")}, 0);
    var b5 := Set(b4, "c", c.(status := Running, owner := Some("w"), expires := 1));
    boards := [EMPTY, b1, b2, b3, b4, b5];
    ops := [Create("c", Todo, 1, 0), Recompute, Create("p", Todo, 0, 0), Link("p", "c"), Claim("w", 1)];
    assert Step(EMPTY, ops[0], b1, None);
    assert Eligible(b1, "c");
    assert Step(b1, ops[1], b2, None);
    assert Step(b2, ops[2], b3, None);
    assert Step(b3, ops[3], b4, None);
    assert FirstReady(b4, "c");
    assert Step(b4, ops[4], b5, None);
  }
}
