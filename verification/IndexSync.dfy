/**
 When an incremental update of the index equals a rebuild.

 `start` are the tables before the update, in agreement with some earlier list of items; `items` is the new
 list, sorted by path.
 */
module IndexSync {
  import opened IndexTables

  // ----- what the tables look like after the deletions and the upserts of `done` -----

  ghost predicate MemoriesShape(t: Tables, start: Tables, items: seq<Item>, done: seq<Item>) {
    && (forall k :: 0 <= k < |done| ==> done[k].id in t.memories && t.memories[done[k].id] == RowOf(done[k]))
    && (forall x :: x !in Ids(done) ==>
          (x in t.memories <==>
            x in start.memories && start.memories[x].path !in Paths(done)
                && start.memories[x].path !in Gone(start, items)))
    && (forall x :: x !in Ids(done) && x in t.memories ==> t.memories[x] == start.memories[x])
  }

  /** Some item after position k came from the path of item k, and took its index row away. */
  ghost predicate Undone(start: Tables, done: seq<Item>, k: nat) {
    k < |done| && exists j :: k < j < |done| && Moved(start.memories, done[j], done[k].path)
  }

  ghost predicate StateShape(t: Tables, start: Tables, items: seq<Item>, done: seq<Item>) {
    && (forall k: nat :: k < |done| ==> (done[k].path in t.state <==> !Undone(start, done, k)))
    && (forall k: nat :: k < |done| && done[k].path in t.state ==> t.state[done[k].path].digest == done[k].digest)
    && (forall q :: q !in Paths(done) ==>
          (q in t.state <==> q in start.state && q !in Gone(start, items) && !MovedAway(start, done, q)))
    && (forall q :: q !in Paths(done) && q in t.state ==> t.state[q] == start.state[q])
  }

  ghost predicate MovedAway(start: Tables, done: seq<Item>, q: string) {
    exists j :: 0 <= j < |done| && Moved(start.memories, done[j], q)
  }

  ghost predicate Shape(t: Tables, start: Tables, items: seq<Item>, done: seq<Item>) {
    MemoriesShape(t, start, items, done) && StateShape(t, start, items, done) && FtsAgrees(t.fts, t.memories)
  }

  lemma DeletionsShape(start: Tables, items: seq<Item>)
    requires Consistent(start)
    ensures Shape(Delete(start, Gone(start, items)), start, items, [])
  {
    DeletedFts(start, Gone(start, items));
    DeletedMemories(start, items);
    DeletedState(start, items);
    hide MemoriesShape; hide StateShape; hide FtsAgrees; hide Delete; hide Gone;
  }

  lemma DeletedFts(start: Tables, gone: set<string>)
    requires FtsAgrees(start.fts, start.memories)
    ensures FtsAgrees(Delete(start, gone).fts, Delete(start, gone).memories)
  {
    var t := Delete(start, gone);
    hide DropFts;
    forall x | x in t.memories ensures FtsRow(x, t.memories[x].digest) in t.fts {
      assert FtsRow(x, start.memories[x].digest) in start.fts;
    }
  }

  lemma DeletedMemories(start: Tables, items: seq<Item>)
    requires Consistent(start)
    ensures MemoriesShape(Delete(start, Gone(start, items)), start, items, [])
  {
    hide DropFts; hide FtsAgrees; hide Gone;
  }

  lemma DeletedState(start: Tables, items: seq<Item>)
    ensures StateShape(Delete(start, Gone(start, items)), start, items, [])
  {
    hide DropFts; hide Gone;
  }

  lemma UpsertMemories(t: Tables, start: Tables, items: seq<Item>, done: seq<Item>, item: Item, at: string)
    requires MemoriesShape(t, start, items, done) && Distinct(done + [item])
    ensures MemoriesShape(Upsert(t, start.memories, item, at), start, items, done + [item])
  {
    var t', done' := Upsert(t, start.memories, item, at), done + [item];
    assert done'[|done|] == item;
    assert Ids(done') == Ids(done) + {item.id} && Paths(done') == Paths(done) + {item.path} by { OneMore(done, item); }
    forall k | 0 <= k < |done| ensures done[k].id !in IdsAt(t, item.path) && done[k].id != item.id {
      assert done'[k] == done[k];
    }
    forall k | 0 <= k < |done'| ensures done'[k].id in t'.memories && t'.memories[done'[k].id] == RowOf(done'[k]) {
      if k < |done| { assert done'[k] == done[k]; }
    }
  }

  lemma OneMore(done: seq<Item>, item: Item)
    ensures Ids(done + [item]) == Ids(done) + {item.id} && Paths(done + [item]) == Paths(done) + {item.path}
  {
    var done' := done + [item];
    forall x | x in Ids(done) + {item.id} ensures x in Ids(done') {
      if x == item.id { assert done'[|done|].id == x; }
      else {
        var k :| 0 <= k < |done| && done[k].id == x;
        assert done'[k].id == x;
      }
    }
    forall x | x in Paths(done) + {item.path} ensures x in Paths(done') {
      if x == item.path { assert done'[|done|].path == x; }
      else {
        var k :| 0 <= k < |done| && done[k].path == x;
        assert done'[k].path == x;
      }
    }
  }

  lemma UndoneOneMore(start: Tables, done: seq<Item>, item: Item, k: nat)
    requires k < |done|
    ensures Undone(start, done + [item], k) <==> Undone(start, done, k) || Moved(start.memories, item, done[k].path)
  {
    var done' := done + [item];
    if Undone(start, done, k) {
      var j :| k < j < |done| && Moved(start.memories, done[j], done[k].path);
      assert Moved(start.memories, done'[j], done'[k].path);
    }
    if Moved(start.memories, item, done[k].path) { assert Moved(start.memories, done'[|done|], done'[k].path); }
  }

  lemma UpsertOnePath(t: Tables, was: map<string, Row>, item: Item, at: string, q: string)
    requires q != item.path
    ensures var t' := Upsert(t, was, item, at);
            && (q in t'.state <==> q in t.state && !Moved(was, item, q))
            && (q in t'.state ==> t'.state[q] == t.state[q])
  {
  }

  lemma UpsertState(t: Tables, start: Tables, items: seq<Item>, done: seq<Item>, item: Item, at: string)
    requires StateShape(t, start, items, done) && Distinct(done + [item])
    ensures StateShape(Upsert(t, start.memories, item, at), start, items, done + [item])
  {
    hide Undone; hide MovedAway; hide Moved; hide Gone;
    var t', done' := Upsert(t, start.memories, item, at), done + [item];
    hide Upsert;
    OneMore(done, item);
    forall k: nat | k < |done|
      ensures done'[k].path in t'.state <==> !Undone(start, done', k)
      ensures done'[k].path in t'.state ==> t'.state[done'[k].path].digest == done'[k].digest
    {
      assert done'[k] == done[k] && done'[|done|] == item && done[k].path != item.path;
      UndoneOneMore(start, done, item, k);
      UpsertOnePath(t, start.memories, item, at, done[k].path);
    }
    UpsertLast(t, start, done, item, at);
    forall q | q !in Paths(done')
      ensures q in t'.state <==> q in start.state && q !in Gone(start, items) && !MovedAway(start, done', q)
      ensures q in t'.state ==> t'.state[q] == start.state[q]
    {
      MovedAwayOneMore(start, done, item, q);
      UpsertOnePath(t, start.memories, item, at, q);
    }
  }

  lemma UpsertLast(t: Tables, start: Tables, done: seq<Item>, item: Item, at: string)
    ensures var t', done' := Upsert(t, start.memories, item, at), done + [item];
            item.path in t'.state && t'.state[item.path].digest == item.digest && !Undone(start, done', |done|)
  {
  }

  lemma MovedAwayOneMore(start: Tables, done: seq<Item>, item: Item, q: string)
    ensures MovedAway(start, done + [item], q) <==> MovedAway(start, done, q) || Moved(start.memories, item, q)
  {
    var done' := done + [item];
    if MovedAway(start, done, q) {
      var j :| 0 <= j < |done| && Moved(start.memories, done[j], q);
      assert Moved(start.memories, done'[j], q);
    }
    if Moved(start.memories, item, q) { assert Moved(start.memories, done'[|done|], q); }
  }

  lemma UpsertFts(t: Tables, was: map<string, Row>, item: Item, at: string)
    requires FtsAgrees(t.fts, t.memories)
    ensures var t' := Upsert(t, was, item, at); FtsAgrees(t'.fts, t'.memories)
  {
    var t' := Upsert(t, was, item, at);
    var kept := DropFts(t.fts, IdsAt(t, item.path) - {item.id} + {item.id});
    assert t'.fts == kept + [FtsRow(item.id, item.digest)];
    forall i, j | 0 <= i < j < |t'.fts| ensures t'.fts[i].id != t'.fts[j].id {
      if j == |kept| { assert kept[i] in kept; }
    }
    forall x | x in t'.memories ensures FtsRow(x, t'.memories[x].digest) in t'.fts {
      if x == item.id { assert t'.fts[|kept|] == FtsRow(x, item.digest); }
      else { assert FtsRow(x, t.memories[x].digest) in kept; }
    }
    forall r | r in t'.fts ensures r.id in t'.memories && r.digest == t'.memories[r.id].digest {
      if r in kept { assert r in t.fts; }
    }
  }

  // ----- the plan -----

  /** A selection keeps the order of the list. */
  lemma {:induction false} SelectOrder(t: Tables, items: seq<Item>, c: Class, i: nat, j: nat) returns (a: nat, b: nat)
    requires i < j < |Select(t, items, c)|
    ensures a < b < |items| && items[a] == Select(t, items, c)[i] && items[b] == Select(t, items, c)[j]
    decreases |items|
  {
    var front, last := items[..|items| - 1], items[|items| - 1];
    if j < |Select(t, front, c)| {
      a, b := SelectOrder(t, front, c, i, j);
    } else {
      SelectIs(t, front, c);
      assert Select(t, front, c)[i] in front;
      a :| 0 <= a < |front| && front[a] == Select(t, front, c)[i];
      b := |items| - 1;
    }
  }

  lemma InItems(items: seq<Item>, x: Item)
    requires x in items
    ensures x.id in Ids(items) && x.path in Paths(items)
  {
    var k :| 0 <= k < |items| && items[k] == x;
  }

  lemma AtPath(items: seq<Item>, q: string) returns (x: Item)
    requires q in Paths(items)
    ensures x in items && x.path == q
  {
    var k :| 0 <= k < |items| && items[k].path == q;
    x := items[k];
  }

  lemma AtId(items: seq<Item>, id: string) returns (x: Item)
    requires id in Ids(items)
    ensures x in items && x.id == id
  {
    var k :| 0 <= k < |items| && items[k].id == id;
    x := items[k];
  }

  lemma DistinctItems(items: seq<Item>, x: Item, y: Item)
    requires Distinct(items) && x in items && y in items
    ensures x.id == y.id ==> x == y
    ensures x.path == y.path ==> x == y
  {
    var i :| 0 <= i < |items| && items[i] == x;
    var j :| 0 <= j < |items| && items[j] == y;
  }

  function Pending(plan: Plan): seq<Item> {
    plan.added + plan.updated
  }

  lemma PendingIs(plan: Plan, start: Tables, items: seq<Item>)
    requires Plans(plan, start, items)
    ensures forall x :: x in Pending(plan) <==> x in items && Classify(start, x) != Unchanged
  {
    SelectIs(start, items, Added);
    SelectIs(start, items, Updated);
  }

  lemma PendingDistinct(plan: Plan, start: Tables, items: seq<Item>)
    requires Plans(plan, start, items) && Distinct(items)
    ensures Distinct(Pending(plan))
  {
    var u := Pending(plan);
    SelectIs(start, items, Added);
    SelectIs(start, items, Updated);
    forall i, j | 0 <= i < j < |u| ensures u[i].id != u[j].id && u[i].path != u[j].path {
      if j < |plan.added| {
        var a, b := SelectOrder(start, items, Added, i, j);
      } else if i >= |plan.added| {
        var a, b := SelectOrder(start, items, Updated, i - |plan.added|, j - |plan.added|);
      } else {
        assert u[i] in plan.added && u[j] in plan.updated;
        DistinctItems(items, u[i], u[j]);
      }
    }
  }

  // ----- the end of the loop -----

  /** Somebody moved from a path that is still in use to a later one. */
  ghost predicate BadMove(start: Tables, items: seq<Item>) {
    exists x, y :: x in items && y in items && Moved(start.memories, y, x.path) && Less(x.path, y.path)
  }

  lemma UnchangedIs(start: Tables, x: Item)
    requires Consistent(start) && Classify(start, x) == Unchanged
    ensures x.id in start.memories && start.memories[x.id] == RowOf(x) && IdsAt(start, x.path) == {x.id}
    ensures x.path in start.state && start.state[x.path].digest == x.digest
  {
  }

  /** Memories and full text always come out as a rebuild would have them. */
  lemma FinalMemories(t: Tables, start: Tables, items: seq<Item>, plan: Plan)
    requires Consistent(start) && Distinct(items) && Plans(plan, start, items)
    requires MemoriesShape(t, start, items, Pending(plan))
    ensures MemoriesAre(t.memories, items)
  {
    var u := Pending(plan);
    PendingIs(plan, start, items);
    forall k | 0 <= k < |items| ensures items[k].id in t.memories && t.memories[items[k].id] == RowOf(items[k]) {
      var x := items[k];
      if Classify(start, x) == Unchanged {
        UnchangedIs(start, x);
        UnchangedIsUntouched(start, items, plan, x);
        assert x.path in Paths(items);
      } else {
        var i :| 0 <= i < |u| && u[i] == x;
      }
    }
    forall x | x in t.memories ensures x in Ids(items) {
      if x in Ids(u) {
        var y := AtId(u, x);
        InItems(items, y);
      } else {
        LeftoverIsCurrent(start, items, plan, x);
      }
    }
    assert forall k :: 0 <= k < |items| ==> items[k].id in Ids(items);
  }

  lemma UnchangedIsUntouched(start: Tables, items: seq<Item>, plan: Plan, x: Item)
    requires Distinct(items) && Plans(plan, start, items) && x in items && Classify(start, x) == Unchanged
    ensures x.id !in Ids(Pending(plan)) && x.path !in Paths(Pending(plan))
  {
    PendingIs(plan, start, items);
    forall i | 0 <= i < |Pending(plan)| ensures Pending(plan)[i].id != x.id && Pending(plan)[i].path != x.path {
      assert Pending(plan)[i] in Pending(plan);
      DistinctItems(items, x, Pending(plan)[i]);
    }
  }

  lemma LeftoverIsCurrent(start: Tables, items: seq<Item>, plan: Plan, x: string)
    requires Consistent(start) && Distinct(items) && Plans(plan, start, items)
    requires x in start.memories && start.memories[x].path !in Paths(Pending(plan))
    requires start.memories[x].path !in Gone(start, items)
    ensures x in Ids(items)
  {
    PendingIs(plan, start, items);
    var q := start.memories[x].path;
    assert x in IdsAt(start, q);
    if q in Paths(items) {
      var y := AtPath(items, q);
      assert Classify(start, y) == Unchanged by {
        if y in Pending(plan) { InItems(Pending(plan), y); }
      }
      UnchangedIs(start, y);
      InItems(items, y);
    } else {
      var y :| y in IdsAt(start, q) * Ids(items);
    }
  }

  /** An indexed path that is no longer in use is either deleted or left by a mover. */
  lemma GoneOrMovedAway(start: Tables, items: seq<Item>, plan: Plan, q: string)
    requires Consistent(start) && Plans(plan, start, items)
    requires q in start.state && q !in Paths(items)
    ensures q in Gone(start, items) || MovedAway(start, Pending(plan), q)
  {
    var u := Pending(plan);
    PendingIs(plan, start, items);
    if q !in Gone(start, items) {
      var id :| id in IdsAt(start, q) * Ids(items);
      var y := AtId(items, id);
      InItems(items, y);
      assert Moved(start.memories, y, q) && Classify(start, y) != Unchanged;
      var i :| 0 <= i < |u| && u[i] == y;
    }
  }

  lemma PendingPaths(start: Tables, items: seq<Item>, plan: Plan)
    requires Plans(plan, start, items)
    ensures Paths(Pending(plan)) <= Paths(items)
  {
    PendingIs(plan, start, items);
    forall q | q in Paths(Pending(plan)) ensures q in Paths(items) {
      var y := AtPath(Pending(plan), q);
      InItems(items, y);
    }
  }

  lemma FinalStateOff(t: Tables, start: Tables, items: seq<Item>, plan: Plan, q: string)
    requires Consistent(start) && Plans(plan, start, items)
    requires StateShape(t, start, items, Pending(plan)) && q !in Paths(items)
    ensures q !in t.state
  {
    PendingPaths(start, items, plan);
    if q in start.state { GoneOrMovedAway(start, items, plan, q); }
  }

  /** Somebody moved from the path of x to a later one. */
  ghost predicate LosesRow(start: Tables, items: seq<Item>, x: Item) {
    exists y :: y in items && Moved(start.memories, y, x.path) && Less(x.path, y.path)
  }

  lemma NobodyLeaves(start: Tables, items: seq<Item>, x: Item, y: Item)
    requires Consistent(start) && Distinct(items) && x in items && y in items && Classify(start, x) == Unchanged
    ensures !Moved(start.memories, y, x.path)
  {
    UnchangedIs(start, x);
    if Moved(start.memories, y, x.path) {
      assert y.id in IdsAt(start, x.path);
      DistinctItems(items, x, y);
    }
  }

  lemma FinalUnchanged(t: Tables, start: Tables, items: seq<Item>, plan: Plan, x: Item)
    requires Consistent(start) && Distinct(items) && Plans(plan, start, items)
    requires StateShape(t, start, items, Pending(plan)) && x in items && Classify(start, x) == Unchanged
    ensures !LosesRow(start, items, x) && x.path in t.state && t.state[x.path].digest == x.digest
  {
    var u := Pending(plan);
    PendingIs(plan, start, items);
    UnchangedIs(start, x);
    UnchangedIsUntouched(start, items, plan, x);
    forall y | y in items ensures !Moved(start.memories, y, x.path) { NobodyLeaves(start, items, x, y); }
    InItems(items, x);
    assert !MovedAway(start, u, x.path) by {
      forall i | 0 <= i < |u| ensures !Moved(start.memories, u[i], x.path) { assert u[i] in u; }
    }
    assert x.path !in Gone(start, items);
  }

  lemma UndoneIffLosesRow(start: Tables, items: seq<Item>, plan: Plan, k: nat)
    requires Consistent(start) && Distinct(items) && Sorted(items) && Plans(plan, start, items)
    requires k < |Pending(plan)|
    ensures Undone(start, Pending(plan), k) <==> LosesRow(start, items, Pending(plan)[k])
  {
    hide Classify; hide Consistent; hide Plans; hide Distinct; hide Sorted; hide Pending; hide Less;
    var u := Pending(plan);
    var x := u[k];
    PendingIs(plan, start, items);
    if Undone(start, u, k) {
      var j :| k < j < |u| && Moved(start.memories, u[j], u[k].path);
      assert u[j] in items;
      MoverIsUpdated(start, items, plan, x, u[j]);
      UpdatedInOrder(start, items, plan, k, j);
    }
    if y :| y in items && Moved(start.memories, y, x.path) && Less(x.path, y.path) {
      MoverIsUpdated(start, items, plan, x, y);
      var j :| 0 <= j < |u| && u[j] == y;
      LessAsymmetric(x.path, y.path);
      if j < k { UpdatedInOrder(start, items, plan, j, k); }
      assert j != k;
    }
  }

  /** The index row of an item is lost exactly when somebody moved away from its path to a later one. */
  lemma FinalStateOn(t: Tables, start: Tables, items: seq<Item>, plan: Plan, x: Item)
    requires Consistent(start) && Distinct(items) && Sorted(items) && Plans(plan, start, items)
    requires StateShape(t, start, items, Pending(plan)) && x in items
    ensures x.path !in t.state <==> LosesRow(start, items, x)
    ensures x.path in t.state ==> t.state[x.path].digest == x.digest
  {
    hide LosesRow; hide Undone;
    if Classify(start, x) == Unchanged {
      FinalUnchanged(t, start, items, plan, x);
    } else {
      PendingIs(plan, start, items);
      var k :| 0 <= k < |Pending(plan)| && Pending(plan)[k] == x;
      UndoneIffLosesRow(start, items, plan, k);
    }
  }

  /** Neither the mover nor the newcomer at its old path counts as added. */
  lemma MoverIsUpdated(start: Tables, items: seq<Item>, plan: Plan, x: Item, y: Item)
    requires Consistent(start) && Moved(start.memories, y, x.path)
    ensures Classify(start, x) != Added && Classify(start, y) == Updated
  {
  }

  lemma UpdatedInOrder(start: Tables, items: seq<Item>, plan: Plan, i: nat, j: nat)
    requires Distinct(items) && Sorted(items) && Plans(plan, start, items)
    requires i < j < |Pending(plan)|
    requires Classify(start, Pending(plan)[i]) != Added && Classify(start, Pending(plan)[j]) != Added
    ensures Less(Pending(plan)[i].path, Pending(plan)[j].path)
  {
    SelectIs(start, items, Added);
    forall k | 0 <= k < |plan.added| ensures Classify(start, plan.added[k]) == Added {
      assert plan.added[k] in plan.added;
    }
    var a, b := SelectOrder(start, items, Updated, i - |plan.added|, j - |plan.added|);
  }

  /** The tables after the loop are a rebuild, unless somebody moved badly. */
  lemma RebuiltUnlessBadMove(t: Tables, start: Tables, items: seq<Item>, plan: Plan)
    requires Consistent(start) && Distinct(items) && Sorted(items) && Plans(plan, start, items)
    requires Shape(t, start, items, Pending(plan))
    ensures !BadMove(start, items) <==> Rebuilt(t, items)
    ensures MemoriesAre(t.memories, items) && t.state.Keys <= Paths(items)
    ensures t.state.Keys == Paths(items) <==> !BadMove(start, items)
  {
    hide LosesRow; hide BadMove; hide MemoriesShape; hide StateShape; hide Plans; hide Distinct; hide Sorted;
    hide Consistent;
    FinalMemories(t, start, items, plan);
    forall x | x in items
      ensures x.path !in t.state <==> LosesRow(start, items, x)
      ensures x.path in t.state ==> t.state[x.path].digest == x.digest
    {
      FinalStateOn(t, start, items, plan, x);
    }
    forall q | q in t.state ensures q in Paths(items) {
      if q !in Paths(items) { FinalStateOff(t, start, items, plan, q); }
    }
    BadMoveIsALoss(start, items);
    if BadMove(start, items) {
      var x :| x in items && LosesRow(start, items, x);
      InItems(items, x);
    } else {
      forall q | q in Paths(items) ensures q in t.state {
        var x := AtPath(items, q);
      }
      forall k | 0 <= k < |items| ensures items[k].path in t.state && t.state[items[k].path].digest == items[k].digest {
        assert items[k] in items;
        InItems(items, items[k]);
      }
    }
  }

  lemma BadMoveIsALoss(start: Tables, items: seq<Item>)
    ensures BadMove(start, items) <==> exists x :: x in items && LosesRow(start, items, x)
  {
    if BadMove(start, items) {
      var x, y :| x in items && y in items && Moved(start.memories, y, x.path) && Less(x.path, y.path);
      assert LosesRow(start, items, x);
    }
  }
}
