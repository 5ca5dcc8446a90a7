/**
 The Kanban board: tasks, dependency links and compare-and-set claims.

 Creation times are counted; `finished` and `clock` are bookkeeping of the proof: they number the completions.
 */
module TaskBoard {
  import opened Wrappers

  datatype Status = Triage | Todo | Ready | Running | Blocked | Review | Done | Archived

  datatype BlockKind = Dependency | NeedsInput | Capability | Transient

  datatype Task = Task(status: Status, priority: int, created: nat, owner: Option<string>, expires: int,
                       blocked: Option<BlockKind>, finished: nat)

  datatype Board = Board(tasks: map<string, Task>, links: set<(string, string)>, clock: nat)

  datatype Error = InvalidStatus | Duplicate | UnknownTask | SelfLink | NotOwned | Nothing

  datatype Op =
    | Create(id: string, status: Status, priority: int, created: nat)
    | Link(parent: string, child: string)
    | Recompute
    | Claim(claimer: string, claimUntil: int)
    | Heartbeat(task: string, owner: string, until: int)
    | Complete(finishedTask: string, finisher: string)
    | Block(blockedTask: string, blocker: string, kind: BlockKind)

  predicate Initial(s: Status) {
    s in {Triage, Todo, Ready, Blocked}
  }

  /** Every parent is done. */
  predicate ParentsDone(b: Board, id: string) {
    forall l :: l in b.links && l.1 == id && l.0 in b.tasks ==> b.tasks[l.0].status == Done
  }

  predicate Eligible(b: Board, id: string) {
    id in b.tasks && b.tasks[id].status == Todo && ParentsDone(b, id)
  }

  predicate OwnedBy(b: Board, id: string, owner: string) {
    id in b.tasks && b.tasks[id].status == Running && b.tasks[id].owner == Some(owner)
  }

  /** ORDER BY priority DESC, created_at: nothing ready comes before it. */
  predicate FirstReady(b: Board, id: string) {
    && id in b.tasks && b.tasks[id].status == Ready
    && forall x :: x in b.tasks && b.tasks[x].status == Ready ==>
         b.tasks[x].priority < b.tasks[id].priority
         || (b.tasks[x].priority == b.tasks[id].priority && b.tasks[id].created <= b.tasks[x].created)
  }

  predicate LinkOk(b: Board, parent: string, child: string) {
    parent in b.tasks && child in b.tasks && parent != child && (parent, child) !in b.links
  }

  function BlockStatus(kind: BlockKind): Status {
    match kind
    case Dependency => Todo
    case Transient => Ready
    case _ => Blocked
  }

  ghost predicate Recomputed(a: Board, b: Board) {
    && b.links == a.links && b.clock == a.clock && b.tasks.Keys == a.tasks.Keys
    && forall id :: id in a.tasks ==>
         b.tasks[id] == if Eligible(a, id) then a.tasks[id].(status := Ready) else a.tasks[id]
  }

  function Set(b: Board, id: string, t: Task): Board {
    b.(tasks := b.tasks[id := t])
  }

  /** One call, with its effect or its error. */
  ghost predicate Step(a: Board, op: Op, b: Board, error: Option<Error>) {
    match op
    case Create(id, status, priority, created) =>
      if !Initial(status) then error == Some(InvalidStatus) && b == a
      else if id in a.tasks then error == Some(Duplicate) && b == a
      else error == None && b == Set(a, id, Task(status, priority, created, None, 0, None, 0))
    case Link(parent, child) =>
      if LinkOk(a, parent, child) then error == None && b == a.(links := a.links + {(parent, child)})
      else error.Some? && b == a
    case Recompute => error == None && Recomputed(a, b)
    case Claim(owner, until) =>
      if exists id :: FirstReady(a, id)
      then
        || (exists id :: FirstReady(a, id) && a.tasks[id].owner == None && error == None
                         && b == Set(a, id, a.tasks[id].(status := Running, owner := Some(owner), expires := until)))
        || (exists id :: FirstReady(a, id) && a.tasks[id].owner != None && error == Some(Nothing) && b == a)
      else error == Some(Nothing) && b == a
    case Heartbeat(id, owner, until) =>
      if OwnedBy(a, id, owner) then error == None && b == Set(a, id, a.tasks[id].(expires := until))
      else error == Some(NotOwned) && b == a
    case Complete(id, owner) =>
      if OwnedBy(a, id, owner) then error == None && b == Finished(a, id)
      else error == Some(NotOwned) && b == a
    case Block(id, owner, kind) =>
      if OwnedBy(a, id, owner)
      then error == None && b == Set(a, id,
          a.tasks[id].(status := BlockStatus(kind), owner := None, expires := 0, blocked := Some(kind)))
      else error == Some(NotOwned) && b == a
  }

  ghost predicate Reaches(a: Board, op: Op, b: Board) {
    exists error :: Step(a, op, b, error)
  }

  function Finished(b: Board, id: string): Board
    requires id in b.tasks
  {
    Board(b.tasks[id := b.tasks[id].(status := Done, owner := None, expires := 0, finished := b.clock)], b.links,
        b.clock + 1)
  }

  // ----- the store -----

  class KanbanStore {
    var tasks: map<string, Task>
    var links: set<(string, string)>
    var clock: nat

    constructor ()
      ensures Now() == Board(map[], {}, 0)
    {
      tasks, links, clock := map[], {}, 0;
    }

    ghost function Now(): Board
      reads this
    {
      Board(tasks, links, clock)
    }

    method CreateTask(id: string, status: Status, priority: int, created: nat) returns (error: Option<Error>)
      modifies this
      ensures Step(old(Now()), Create(id, status, priority, created), Now(), error)
      ensures error == if status in {Running, Review, Done, Archived} then Some(InvalidStatus)
                       else if id in old(tasks) then Some(Duplicate) else None
      ensures tasks == if error == None then old(tasks)[id := Task(status, priority, created, None, 0, None, 0)]
                       else old(tasks)
      ensures links == old(links)
    {
      if !Initial(status) { return Some(InvalidStatus); }
      if id in tasks { return Some(Duplicate); }
      tasks := tasks[id := Task(status, priority, created, None, 0, None, 0)];
      return None;
    }

    /** The foreign keys, the CHECK and the primary key of task_links. */
    method AddLink(parent: string, child: string) returns (error: Option<Error>)
      modifies this`links
      ensures Step(old(Now()), Link(parent, child), Now(), error)
      ensures error == None <==> parent in tasks && child in tasks && parent != child && (parent, child) !in old(links)
      ensures links == if error == None then old(links) + {(parent, child)} else old(links)
    {
      if parent !in tasks || child !in tasks { return Some(UnknownTask); }
      if parent == child { return Some(SelfLink); }
      if (parent, child) in links { return Some(Duplicate); }
      links := links + {(parent, child)};
      return None;
    }

    method IsEligible(id: string) returns (ok: bool)
      ensures ok == (id in tasks && tasks[id].status == Todo
                     && forall l :: l in links && l.1 == id && l.0 in tasks ==> tasks[l.0].status == Done)
    {
      if id !in tasks || tasks[id].status != Todo { return false; }
      ok := forall l :: l in links && l.1 == id && l.0 in tasks ==> tasks[l.0].status == Done;
    }

    /** recompute_ready: select the rows, then update them one by one. */
    method RecomputeReady() returns (changed: set<string>)
      modifies this`tasks
      ensures Recomputed(old(Now()), Now())
      ensures changed == set id | id in old(tasks) && Eligible(old(Now()), id)
      ensures forall id :: id in changed <==>
                && id in old(tasks) && old(tasks)[id].status == Todo
                && forall p :: (p, id) in links && p in old(tasks) ==> old(tasks)[p].status == Done
      ensures tasks.Keys == old(tasks).Keys
      ensures forall id :: id in tasks ==>
                tasks[id] == if id in changed then old(tasks)[id].(status := Ready) else old(tasks)[id]
    {
      ghost var start := Now();
      changed := {};
      var rest := tasks.Keys;
      while rest != {}
        invariant tasks == start.tasks && rest <= tasks.Keys
        invariant changed == set id | id in tasks && id !in rest && Eligible(start, id)
        decreases rest
      {
        var id :| id in rest;
        var ok := IsEligible(id);
        if ok { changed := changed + {id}; }
        rest := rest - {id};
      }
      var todo := changed;
      while todo != {}
        invariant todo <= changed && tasks.Keys == start.tasks.Keys
        invariant forall id :: id in tasks ==>
          tasks[id] == if id in changed && id !in todo then start.tasks[id].(status := Ready) else start.tasks[id]
        decreases todo
      {
        var id :| id in todo;
        tasks := tasks[id := tasks[id].(status := Ready)];
        todo := todo - {id};
      }
    }

    /** The first row of the claim query. */
    method SelectReady() returns (best: Option<string>)
      ensures best.Some? ==> FirstReady(Now(), best.value)
      ensures best.None? ==> forall id :: id in tasks ==> tasks[id].status != Ready
    {
      best := None;
      var rest := tasks.Keys;
      while rest != {}
        invariant rest <= tasks.Keys
        invariant best.None? ==> forall x :: x in tasks && x !in rest ==> tasks[x].status != Ready
        invariant best.Some? ==> best.value in tasks && tasks[best.value].status == Ready
        invariant best.Some? ==> forall x :: x in tasks && x !in rest && tasks[x].status == Ready ==>
          tasks[x].priority < tasks[best.value].priority
          || (tasks[x].priority == tasks[best.value].priority && tasks[best.value].created <= tasks[x].created)
        decreases rest
      {
        var id :| id in rest;
        if tasks[id].status == Ready {
          if best.None? || tasks[best.value].priority < tasks[id].priority
             || (tasks[best.value].priority == tasks[id].priority && tasks[id].created < tasks[best.value].created) {
            best := Some(id);
          }
        }
        rest := rest - {id};
      }
    }

    method ClaimTask(owner: string, until: int) returns (claimed: Option<string>)
      modifies this`tasks
      ensures Step(old(Now()), Claim(owner, until), Now(), if claimed.Some? then None else Some(Nothing))
      ensures claimed.Some? ==>
                && FirstReady(old(Now()), claimed.value)
                && Now() == Set(old(Now()), claimed.value,
                                old(tasks)[claimed.value].(status := Running, owner := Some(owner), expires := until))
      ensures claimed.Some? ==>
                && claimed.value in old(tasks) && old(tasks)[claimed.value].status == Ready
                && old(tasks)[claimed.value].owner == None
                && forall x :: x in old(tasks) && old(tasks)[x].status == Ready ==>
                     var first, other := old(tasks)[claimed.value], old(tasks)[x];
                     other.priority < first.priority
                     || (other.priority == first.priority && first.created <= other.created)
      ensures claimed.None? ==>
                && tasks == old(tasks)
                && forall x :: x in tasks && tasks[x].status == Ready ==>
                     exists y :: y in tasks && tasks[y].status == Ready && tasks[y].owner != None
    {
      ghost var start := Now();
      var id := SelectReady();
      if id.None? { return None; }
      assert FirstReady(start, id.value);
      if tasks[id.value].status != Ready || tasks[id.value].owner != None { return None; }
      tasks := tasks[id.value := tasks[id.value].(status := Running, owner := Some(owner), expires := until)];
      return id;
    }

    method Beat(id: string, owner: string, until: int) returns (error: Option<Error>)
      modifies this`tasks
      ensures Step(old(Now()), Heartbeat(id, owner, until), Now(), error)
      ensures error == None <==>
          id in old(tasks) && old(tasks)[id].status == Running && old(tasks)[id].owner == Some(owner)
      ensures tasks == if error == None then old(tasks)[id := old(tasks)[id].(expires := until)] else old(tasks)
    {
      if id !in tasks || tasks[id].status != Running || tasks[id].owner != Some(owner) { return Some(NotOwned); }
      tasks := tasks[id := tasks[id].(expires := until)];
      return None;
    }

    /** complete: the row in one transaction, the other tasks in a second one. */
    method CompleteTask(id: string, owner: string) returns (error: Option<Error>)
      modifies this
      ensures error == if OwnedBy(old(Now()), id, owner) then None else Some(NotOwned)
      ensures error == None ==> Recomputed(Finished(old(Now()), id), Now())
      ensures error != None ==> Now() == old(Now())
      ensures error == None <==>
          id in old(tasks) && old(tasks)[id].status == Running && old(tasks)[id].owner == Some(owner)
      ensures error == None ==>
                && id in tasks && tasks[id].status == Done && tasks[id].owner == None && tasks.Keys == old(tasks).Keys
                && links == old(links)
                && forall x :: x in tasks && x != id ==>
                     tasks[x] == if old(tasks)[x].status == Todo
                                     && forall p :: (p, x) in links && p in tasks && p != id ==>
                                        old(tasks)[p].status == Done
                                 then old(tasks)[x].(status := Ready) else old(tasks)[x]
    {
      if id !in tasks || tasks[id].status != Running || tasks[id].owner != Some(owner) { return Some(NotOwned); }
      tasks := tasks[id := tasks[id].(status := Done, owner := None, expires := 0, finished := clock)];
      clock := clock + 1;
      var changed := RecomputeReady();
      return None;
    }

    method BlockTask(id: string, owner: string, kind: BlockKind) returns (error: Option<Error>)
      modifies this`tasks
      ensures Step(old(Now()), Block(id, owner, kind), Now(), error)
      ensures error == None <==>
          id in old(tasks) && old(tasks)[id].status == Running && old(tasks)[id].owner == Some(owner)
      ensures error != None ==> tasks == old(tasks)
      ensures error == None ==>
                && id in tasks && tasks == old(tasks)[id := tasks[id]]
                && tasks[id] == old(tasks)[id].(status := tasks[id].status, owner := None, expires := 0,
                                                blocked := Some(kind))
                && (tasks[id].status == Todo <==> kind == Dependency)
                   && (tasks[id].status == Ready <==> kind == Transient)
                && (tasks[id].status == Blocked <==> kind == NeedsInput || kind == Capability)
    {
      if id !in tasks || tasks[id].status != Running || tasks[id].owner != Some(owner) { return Some(NotOwned); }
      tasks := tasks[id := tasks[id].(status := BlockStatus(kind), owner := None, expires := 0, blocked := Some(kind))];
      return None;
    }
  }
}
