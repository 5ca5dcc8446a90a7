/** One index run: plan, apply in a transaction, check, commit or roll back. */
module IndexStore {
  import opened IndexTables
  import opened IndexDatabase
  import opened IndexSync

  lemma {:induction false} CountIs(fts: seq<FtsRow>, x: string)
    requires OnePerId(fts)
    ensures Count(fts, x) == if x in FtsIds(fts) then 1 else 0
    decreases |fts|
  {
    if fts != [] {
      CountIs(fts[1..], x);
      if x in FtsIds(fts[1..]) {
        var k :| 0 <= k < |fts[1..]| && fts[1..][k].id == x;
        assert fts[k + 1].id == x;
      }
      if x in FtsIds(fts) && fts[0].id != x {
        var k :| 0 <= k < |fts| && fts[k].id == x;
        assert fts[1..][k - 1].id == x;
      }
    }
  }

  lemma {:induction false} Sizes(items: seq<Item>)
    requires Distinct(items)
    ensures |Ids(items)| == |items| && |Paths(items)| == |items|
    decreases |items|
  {
    if items != [] {
      var front, last := items[..|items| - 1], items[|items| - 1];
      assert items == front + [last];
      OneMore(front, last);
      Sizes(front);
    }
  }

  lemma SubsetSize<T>(a: set<T>, b: set<T>)
    requires a <= b && |a| == |b|
    ensures a == b
  {
    if a != b {
      var x :| x in b && x !in a;
      SmallerSize(a, b - {x});
    }
  }

  lemma {:induction false} SmallerSize<T>(a: set<T>, b: set<T>)
    requires a <= b
    ensures |a| <= |b|
    decreases |a|
  {
    if x :| x in a { SmallerSize(a - {x}, b - {x}); }
  }

  lemma FtsIdsAre(t: Tables)
    requires FtsAgrees(t.fts, t.memories)
    ensures FtsIds(t.fts) == t.memories.Keys
  {
    forall k | 0 <= k < |t.fts| ensures t.fts[k].id in t.memories { assert t.fts[k] in t.fts; }
    forall x | x in t.memories ensures x in FtsIds(t.fts) {
      assert FtsRow(x, t.memories[x].digest) in t.fts;
    }
  }

  lemma RowsInState(t: Tables, items: seq<Item>)
    requires MemoriesAre(t.memories, items) && t.state.Keys == Paths(items)
    ensures forall x :: x in t.memories ==> t.memories[x].path in t.state
    ensures forall q :: q in t.state ==> exists x :: x in t.memories && t.memories[x].path == q
  {
    forall x | x in t.memories ensures t.memories[x].path in t.state {
      var k :| 0 <= k < |items| && items[k].id == x;
      assert items[k].path in Paths(items);
    }
    forall q | q in t.state ensures exists x :: x in t.memories && t.memories[x].path == q {
      var k :| 0 <= k < |items| && items[k].path == q;
      assert t.memories[items[k].id].path == q;
    }
  }

  /** On tables that hold the right rows, the consistency check looks for missing index rows and nothing else. */
  lemma CheckIff(t: Tables, items: seq<Item>)
    requires Distinct(items) && MemoriesAre(t.memories, items) && FtsAgrees(t.fts, t.memories)
    requires t.state.Keys <= Paths(items)
    ensures CheckOk(t, |items|) <==> t.state.Keys == Paths(items)
  {
    Sizes(items);
    FtsIdsAre(t);
    forall x ensures Count(t.fts, x) <= 1 { CountIs(t.fts, x); }
    assert |t.memories| == |t.memories.Keys| && |t.state| == |t.state.Keys|;
    hide FtsAgrees; hide Count; hide FtsIds; hide Distinct; hide Paths; hide Ids;
    if |t.state| == |items| {
      SubsetSize(t.state.Keys, Paths(items));
      RowsInState(t, items);
    }
  }

  /** _index_fresh. */
  ghost predicate Fresh(t: Tables, items: seq<Item>) {
    && t.state.Keys == Paths(items)
    && forall k :: 0 <= k < |items| ==> items[k].path in t.state && t.state[items[k].path].digest == items[k].digest
  }

  lemma Head<T>(s: seq<T>)
    ensures s != [] ==> s[0] in s
  {
  }

  lemma NothingGone(t: Tables, items: seq<Item>, plan: Plan)
    requires t.state.Keys == Paths(items) && Plans(plan, t, items)
    ensures |plan.deleted| == 0
  {
    assert Gone(t, items) == {};
    assert forall d :: d in plan.deleted ==> d.path in Gone(t, items);
    Head(plan.deleted);
  }

  /** After a success a second plan finds nothing to do. */
  lemma ReplanIsIdle(t: Tables, items: seq<Item>, plan: Plan)
    requires Rebuilt(t, items) && Distinct(items) && Plans(plan, t, items)
    ensures plan.added == [] && plan.updated == [] && plan.deleted == [] && plan.kept == items
    ensures Fresh(t, items)
  {
    forall x | x in items ensures Classify(t, x) == Unchanged {
      RebuiltIsUnchanged(t, items, x);
    }
    SelectNone(t, items, Added);
    SelectNone(t, items, Updated);
    NothingGone(t, items, plan);
    SelectAll(t, items, items);
  }

  lemma {:induction false} SelectNone(t: Tables, items: seq<Item>, c: Class)
    requires forall x :: x in items ==> Classify(t, x) != c
    ensures Select(t, items, c) == []
    decreases |items|
  {
    if items != [] { SelectNone(t, items[..|items| - 1], c); }
  }

  lemma {:induction false} SelectAll(t: Tables, items: seq<Item>, all: seq<Item>)
    requires forall x :: x in all ==> Classify(t, x) == Unchanged
    requires forall x :: x in items ==> x in all
    ensures Select(t, items, Unchanged) == items
    decreases |items|
  {
    if items != [] {
      SelectAll(t, items[..|items| - 1], all);
      assert items == items[..|items| - 1] + [items[|items| - 1]];
    }
  }

  lemma RebuiltIsUnchanged(t: Tables, items: seq<Item>, x: Item)
    requires Rebuilt(t, items) && Distinct(items) && x in items
    ensures Classify(t, x) == Unchanged
  {
    RebuiltIsConsistent(t, items);
    RebuiltHolds(t, items, x);
    OnlyItsId(t, x);
    OneFtsRow(t, x.id);
    hide Rebuilt; hide Consistent; hide Distinct; hide IdsAt; hide Count;
  }

  lemma RebuiltHolds(t: Tables, items: seq<Item>, x: Item)
    requires Rebuilt(t, items) && x in items
    ensures x.id in t.memories && t.memories[x.id] == RowOf(x)
    ensures x.path in t.state && t.state[x.path].digest == x.digest
    ensures FtsAgrees(t.fts, t.memories)
  {
    hide FtsAgrees;
    var k :| 0 <= k < |items| && items[k] == x;
  }

  lemma OnlyItsId(t: Tables, x: Item)
    requires Consistent(t) && x.id in t.memories && t.memories[x.id] == RowOf(x)
    ensures IdsAt(t, x.path) == {x.id}
  {
    hide FtsAgrees;
  }

  lemma OneFtsRow(t: Tables, id: string)
    requires FtsAgrees(t.fts, t.memories) && id in t.memories
    ensures Count(t.fts, id) == 1
  {
    FtsIdsAre(t);
    CountIs(t.fts, id);
  }

  lemma PrefixDistinct(all: seq<Item>, k: nat)
    requires k < |all| && Distinct(all)
    ensures all[..k + 1] == all[..k] + [all[k]] && Distinct(all[..k] + [all[k]])
  {
    assert all[..k + 1] == all[..k] + [all[k]];
  }

  lemma UpsertShape(t: Tables, start: Tables, items: seq<Item>, done: seq<Item>, item: Item, at: string)
    requires Shape(t, start, items, done) && Distinct(done + [item])
    ensures Shape(Upsert(t, start.memories, item, at), start, items, done + [item])
  {
    hide MemoriesShape; hide StateShape; hide FtsAgrees; hide Upsert;
    UpsertMemories(t, start, items, done, item, at);
    UpsertState(t, start, items, done, item, at);
    UpsertFts(t, start.memories, item, at);
  }

  /** The upsert loop of apply_index_changes; `unique` is false if an insert ever hit the path constraint. */
  method UpsertAll(index: Index, was: map<string, Row>, ghost start: Tables, items: seq<Item>, plan: Plan, at: string)
    returns (unique: bool)
    requires was == start.memories && Distinct(items) && Plans(plan, start, items)
    requires Shape(index.Now(), start, items, [])
    modifies index
    ensures unique && Shape(index.Now(), start, items, Pending(plan))
  {
    hide Shape; hide Plans; hide Upsert; hide Distinct;
    var todo := Pending(plan);
    PendingDistinct(plan, start, items);
    unique := true;
    for k := 0 to |todo|
      invariant unique && Shape(index.Now(), start, items, todo[..k])
    {
      PrefixDistinct(todo, k);
      UpsertShape(index.Now(), start, items, todo[..k], todo[k], at);
      var isFree := index.UpsertItem(was, todo[k], at);
      unique := unique && isFree;
    }
    assert todo[..|todo|] == todo;
  }

  lemma DeletedAreGone(plan: Plan, start: Tables, items: seq<Item>)
    requires Plans(plan, start, items)
    ensures DeletedPaths(plan.deleted) == Gone(start, items)
  {
    var paths := DeletedPaths(plan.deleted);
    forall q | q in Gone(start, items) ensures q in paths {
      var k :| 0 <= k < |plan.deleted| && plan.deleted[k].path == q;
    }
  }

  /** apply_index_changes: deletions, upserts, check.  `ok` is false where the original raises. */
  method Apply(index: Index, items: seq<Item>, plan: Plan, at: string) returns (ok: bool, unique: bool)
    requires Consistent(index.Now()) && Distinct(items) && Sorted(items) && Plans(plan, index.Now(), items)
    modifies index
    ensures unique
    ensures ok <==> !BadMove(old(index.Now()), items)
    ensures ok ==> Rebuilt(index.Now(), items) && Fresh(index.Now(), items)
  {
    hide MemoriesShape; hide StateShape; hide BadMove; hide Gone;
    ghost var start := index.Now();
    var was := index.memories;
    DeletedAreGone(plan, start, items);
    index.ApplyDeletions(plan.deleted);
    DeletionsShape(start, items);
    unique := UpsertAll(index, was, start, items, plan, at);
    RebuiltUnlessBadMove(index.Now(), start, items, plan);
    CheckIff(index.Now(), items);
    ok := CheckOk(Tables(index.memories, index.fts, index.state), |items|);
  }

  datatype Counts = Counts(added: nat, updated: nat, deleted: nat, kept: nat)

  function CountsOf(plan: Plan): Counts {
    Counts(|plan.added|, |plan.updated|, |plan.deleted|, |plan.kept|)
  }

  /**
   index_store: both plans, then one transaction over both indexes.  `committed` is false after a dry run
   and when the original raises; the rollback puts the saved tables back.
   */
  method Store(memories: Index, documents: Index, items: seq<Item>, documentItems: seq<Item>, dryRun: bool, at: string)
    returns (committed: bool, planned: Counts)
    requires memories != documents
    requires Consistent(memories.Now()) && Distinct(items) && Sorted(items)
    requires Consistent(documents.Now()) && Distinct(documentItems) && Sorted(documentItems)
    modifies memories, documents
    ensures committed <==>
      !dryRun && !BadMove(old(memories.Now()), items) && !BadMove(old(documents.Now()), documentItems)
    ensures committed ==> Rebuilt(memories.Now(), items) && Rebuilt(documents.Now(), documentItems)
    ensures committed ==> Fresh(memories.Now(), items) && Fresh(documents.Now(), documentItems)
    ensures !committed ==> memories.Now() == old(memories.Now()) && documents.Now() == old(documents.Now())
    ensures planned.added == |set k | 0 <= k < |items| && New(old(memories.Now()), items[k])|
    ensures planned.kept == |set k | 0 <= k < |items| && Indexed(old(memories.Now()), items[k])|
    ensures planned.added + planned.updated + planned.kept == |items|
    ensures planned.deleted == |set q | q in old(memories.state) && LeftBehind(old(memories.Now()), items, q)|
    ensures Rebuilt(old(memories.Now()), items) ==> planned == Counts(0, 0, 0, |items|)
  {
    hide BadMove; hide Rebuilt; hide Fresh; hide Consistent; hide Distinct; hide Sorted; hide Plans;
    hide New; hide Indexed; hide LeftBehind;
    ghost var start := memories.Now();
    var plan := memories.MakePlan(items);
    var documentPlan := documents.MakePlan(documentItems);
    planned := CountsOf(plan);
    PlanCounts(plan, start, items);
    if Rebuilt(start, items) { ReplanIsIdle(start, items, plan); }
    if dryRun { return false, planned; }
    var m := (memories.memories, memories.fts, memories.state);
    var d := (documents.memories, documents.fts, documents.state);
    var unique;
    committed, unique := Apply(memories, items, plan, at);
    if committed {
      committed, unique := Apply(documents, documentItems, documentPlan, at);
    }
    if !committed {
      memories.memories, memories.fts, memories.state := m.0, m.1, m.2;
      documents.memories, documents.fts, documents.state := d.0, d.1, d.2;
    }
  }

  lemma LessIrreflexive(a: string, b: string)
    requires Less(a, b)
    ensures a != b
  {
    if a == b { LessAsymmetric(a, b); }
  }

  /** The two records have swapped their files. */
  function Swapped(items: seq<Item>, i: nat, j: nat, mtime: int): seq<Item>
    requires i < j < |items|
  {
    items[i := Item(items[j].id, items[i].path, items[j].digest, mtime)]
         [j := Item(items[i].id, items[j].path, items[i].digest, mtime)]
  }

  lemma SwappedLists(items: seq<Item>, i: nat, j: nat, mtime: int)
    requires i < j < |items| && Distinct(items) && Sorted(items)
    ensures var after := Swapped(items, i, j, mtime);
            Distinct(after) && Sorted(after) && Ids(after) == Ids(items) && Paths(after) == Paths(items)
  {
    hide Less;
    var after := Swapped(items, i, j, mtime);
    forall k | 0 <= k < |items| ensures after[k].path == items[k].path
      ensures after[k].id == items[if k == i then j else if k == j then i else k].id {}
    SameIds(items, after, i, j);
    assert forall k :: 0 <= k < |items| ==> after[k].path == items[k].path;
    forall q ensures q in Paths(after) <==> q in Paths(items) {
      if q in Paths(items) {
        var k :| 0 <= k < |items| && items[k].path == q;
        assert after[k].path == q;
      }
    }
  }

  lemma SameIds(items: seq<Item>, after: seq<Item>, i: nat, j: nat)
    requires i < j < |items| == |after|
    requires forall k :: 0 <= k < |items| ==> after[k].id == items[if k == i then j else if k == j then i else k].id
    ensures Ids(after) == Ids(items)
  {
    forall x ensures x in Ids(after) <==> x in Ids(items) {
      if x in Ids(items) {
        var k :| 0 <= k < |items| && items[k].id == x;
        var m := if k == i then j else if k == j then i else k;
        assert after[m].id == x;
      }
    }
  }

  /** In any store, whatever else has changed nothing: a run after two records swapped their files is refused. */
  lemma SwapIsRefused(start: Tables, items: seq<Item>, i: nat, j: nat, mtime: int)
    requires Rebuilt(start, items) && Distinct(items) && Sorted(items) && i < j < |items|
    ensures var after := Swapped(items, i, j, mtime);
            && Distinct(after) && Sorted(after) && Ids(after) == Ids(items) && Paths(after) == Paths(items)
            && BadMove(start, after)
  {
    SwappedLists(items, i, j, mtime);
    var after := Swapped(items, i, j, mtime);
    LessIrreflexive(items[i].path, items[j].path);
    var x, y := after[i], after[j];
    assert x in after && y in after;
    assert start.memories[items[i].id] == RowOf(items[i]);
    assert Moved(start.memories, y, x.path);
  }
}
