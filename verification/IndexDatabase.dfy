/** The index tables as the database holds them, and the methods that change them. */
module IndexDatabase {
  import opened IndexTables

  class Index {
    var memories: map<string, Row>
    var fts: seq<FtsRow>
    var state: map<string, Stamp>

    constructor ()
      ensures Now() == Tables(map[], [], map[])
    {
      memories, fts, state := map[], [], map[];
    }

    ghost function Now(): Tables
      reads this
    {
      Tables(memories, fts, state)
    }

    /** plan_index_changes. */
    method MakePlan(items: seq<Item>) returns (plan: Plan)
      ensures Plans(plan, Now(), items)
      ensures forall x :: x in plan.kept <==> x in items && Indexed(Now(), x)
      ensures forall x :: x in plan.added <==> x in items && New(Now(), x)
      ensures forall x :: x in plan.updated <==> x in items && !Indexed(Now(), x) && !New(Now(), x)
      ensures |plan.added| + |plan.updated| + |plan.kept| == |items|
      ensures forall i, j :: 0 <= i < j < |plan.deleted| ==> plan.deleted[i].path != plan.deleted[j].path
      ensures forall d :: d in plan.deleted ==> LeftBehind(Now(), items, d.path)
      ensures forall d, y :: d in plan.deleted ==> (y in d.ids <==> y in memories && memories[y].path == d.path)
      ensures forall q :: LeftBehind(Now(), items, q) ==> exists d :: d in plan.deleted && d.path == q
    {
      hide Indexed; hide New; hide LeftBehind; hide Classify; hide Plans; hide Deletes;
      var t := Tables(memories, fts, state);
      var added, updated, kept := [], [], [];
      var deleted := PlanDeletions(items);
      for k := 0 to |items|
        invariant added == Select(t, items[..k], Added)
        invariant updated == Select(t, items[..k], Updated)
        invariant kept == Select(t, items[..k], Unchanged)
        invariant |added| + |updated| + |kept| == k
      {
        assert items[..k + 1][..k] == items[..k];
        match Classify(t, items[k]) {
          case Unchanged => kept := kept + [items[k]];
          case Added => added := added + [items[k]];
          case Updated => updated := updated + [items[k]];
        }
      }
      assert items[..|items|] == items;
      plan := Plan(added, updated, deleted, kept);
      assert Plans(plan, t, items) by { PlansIf(plan, t, items); }
      PlanIs(plan, t, items);
    }

    /** The part of plan_index_changes that looks for paths without an item. */
    method PlanDeletions(items: seq<Item>) returns (deleted: seq<Deleted>)
      ensures Deletes(deleted, Now(), items)
      ensures forall i, j :: 0 <= i < j < |deleted| ==> deleted[i].path != deleted[j].path
    {
      hide IdsAt; hide Gone;
      var t := Tables(memories, fts, state);
      var todo := Gone(t, items);
      deleted := [];
      while todo != {}
        invariant todo <= Gone(t, items)
        invariant forall k :: 0 <= k < |deleted| ==>
            deleted[k].path in Gone(t, items) && deleted[k].ids == IdsAt(t, deleted[k].path)
        invariant forall q :: q in Gone(t, items) && q !in todo ==> exists k ::
            0 <= k < |deleted| && deleted[k].path == q
        invariant forall k :: 0 <= k < |deleted| ==> deleted[k].path !in todo
        invariant forall i, j :: 0 <= i < j < |deleted| ==> deleted[i].path != deleted[j].path
        decreases todo
      {
        var q :| q in todo;
        ghost var before := deleted;
        deleted := deleted + [Deleted(q, IdsAt(t, q))];
        todo := todo - {q};
        forall p | p in Gone(t, items) && p !in todo ensures exists k :: 0 <= k < |deleted| && deleted[k].path == p {
          if p == q { assert deleted[|before|].path == p; }
          else {
            var k :| 0 <= k < |before| && before[k].path == p;
            assert deleted[k].path == p;
          }
        }
      }
    }

    method DeleteOne(d: Deleted)
      modifies this
      ensures Now() == Tables(old(memories) - d.ids - IdsAt(old(Now()), d.path), DropFts(old(fts), d.ids),
          old(state) - {d.path})
    {
      ghost var start := Now();
      fts := DropFts(fts, d.ids);
      memories := memories - d.ids;
      var rows := set x | x in memories && memories[x].path == d.path;
      assert memories - rows == start.memories - d.ids - IdsAt(start, d.path);
      memories := memories - rows;
      state := state - {d.path};
    }

    /** The deletions of the plan. */
    method ApplyDeletions(deleted: seq<Deleted>)
      requires forall k :: 0 <= k < |deleted| ==> deleted[k].ids == IdsAt(Now(), deleted[k].path)
      modifies this
      ensures Now() == Delete(old(Now()), DeletedPaths(deleted))
      ensures Forgotten(old(Now()), set k | 0 <= k < |deleted| :: deleted[k].path, Now())
    {
      hide Delete; hide DropFts; hide IdsAt;
      ghost var start := Now();
      DeleteNothing(start);
      assert DeletedPaths(deleted[..0]) == {};
      for k := 0 to |deleted|
        invariant Now() == Delete(start, DeletedPaths(deleted[..k]))
      {
        DeleteOneMore(start, DeletedPaths(deleted[..k]), deleted[k].path);
        OneMorePath(deleted, k);
        DeleteOne(deleted[k]);
      }
      assert deleted[..|deleted|] == deleted;
      DeleteIs(start, DeletedPaths(deleted));
    }

    method Evict(conflicts: set<string>)
      modifies `fts, `memories
      ensures fts == DropFts(old(fts), conflicts) && memories == old(memories) - conflicts
    {
      hide DropFts;
      ghost var was := (fts, memories);
      ghost var removed: set<string> := {};
      var rest := conflicts;
      DropNothing(fts);
      assert was.1 - {} == was.1;
      while rest != {}
        invariant rest <= conflicts && removed == conflicts - rest
        invariant fts == DropFts(was.0, removed) && memories == was.1 - removed
        decreases rest
      {
        var c :| c in rest;
        DropTwice(was.0, removed, {c});
        MinusTwice(was.1, removed, {c}, {});
        fts := DropFts(fts, {c});
        memories := memories - {c};
        assert memories - {} == memories;
        rest, removed := rest - {c}, removed + {c};
      }
      assert removed == conflicts;
    }

    /** One upsert, statement by statement; the insert would fail if another row held the path. */
    method UpsertItem(was: map<string, Row>, item: Item, indexedAt: string) returns (unique: bool)
      modifies this
      ensures unique
      ensures Now() == Upsert(old(Now()), was, item, indexedAt)
      ensures Upserted(old(Now()), was, item, indexedAt, Now())
    {
      ghost var start := Now();
      if item.id in was && was[item.id].path != item.path {
        state := state - {was[item.id].path};
      }
      assert state == start.state - OldPath(was, item);
      var conflicts := set x | x in memories && memories[x].path == item.path && x != item.id;
      Evict(conflicts);
      DropTwice(start.fts, conflicts, {item.id});
      assert conflicts == IdsAt(start, item.path) - {item.id};
      fts := DropFts(fts, {item.id});
      unique := forall x :: x in memories && x != item.id ==> memories[x].path != item.path;
      memories := memories[item.id := RowOf(item)];
      fts := fts + [FtsRow(item.id, item.digest)];
      state := state[item.path := Stamp(item.digest, item.mtime, indexedAt)];
      UpsertIs(start, was, item, indexedAt);
      hide Upserted;
    }
  }

  /** Indexed, but no item is there any more, and none of its records lives on elsewhere. */
  ghost predicate LeftBehind(t: Tables, items: seq<Item>, q: string) {
    && q in t.state && (forall x :: x in items ==> x.path != q)
    && forall x :: x in items && x.id in t.memories ==> t.memories[x.id].path != q
  }

  lemma GoneIs(t: Tables, items: seq<Item>, q: string)
    ensures q in Gone(t, items) <==> LeftBehind(t, items, q)
  {
    if LeftBehind(t, items, q) {
      forall k | 0 <= k < |items| ensures items[k].path != q && items[k].id !in IdsAt(t, q) {
        assert items[k] in items;
      }
      assert IdsAt(t, q) * Ids(items) == {};
    } else if q in Gone(t, items) {
      forall x | x in items ensures x.path != q && (x.id in t.memories ==> t.memories[x.id].path != q) {
        var k :| 0 <= k < |items| && items[k] == x;
        assert x.path in Paths(items) && x.id in Ids(items);
        assert x.id !in IdsAt(t, q) * Ids(items);
      }
    }
  }

  /** Just the paths that are gone, each with its rows. */
  ghost predicate Deletes(deleted: seq<Deleted>, t: Tables, items: seq<Item>) {
    && (forall k :: 0 <= k < |deleted| ==>
          deleted[k].path in Gone(t, items) && deleted[k].ids == IdsAt(t, deleted[k].path))
    && (forall q :: q in Gone(t, items) ==> exists k :: 0 <= k < |deleted| && deleted[k].path == q)
  }

  lemma PlansIf(plan: Plan, t: Tables, items: seq<Item>)
    requires plan.added == Select(t, items, Added) && plan.updated == Select(t, items, Updated)
    requires plan.kept == Select(t, items, Unchanged) && Deletes(plan.deleted, t, items)
    ensures Plans(plan, t, items)
  {
    hide Gone; hide IdsAt; hide Select;
  }

  lemma PlanIs(plan: Plan, t: Tables, items: seq<Item>)
    requires Plans(plan, t, items)
    ensures forall x :: x in plan.kept <==> x in items && Indexed(t, x)
    ensures forall x :: x in plan.added <==> x in items && New(t, x)
    ensures forall x :: x in plan.updated <==> x in items && !Indexed(t, x) && !New(t, x)
    ensures forall d :: d in plan.deleted ==> LeftBehind(t, items, d.path) && d.ids == IdsAt(t, d.path)
    ensures forall q :: LeftBehind(t, items, q) ==> exists d :: d in plan.deleted && d.path == q
  {
    hide Indexed; hide New; hide LeftBehind; hide Classify; hide Select; hide IdsAt; hide Gone;
    SelectIs(t, items, Added);
    SelectIs(t, items, Updated);
    SelectIs(t, items, Unchanged);
    forall x ensures Classify(t, x) == Unchanged <==> Indexed(t, x)
      ensures Classify(t, x) == Added <==> New(t, x)
      ensures Classify(t, x) == Updated <==> !Indexed(t, x) && !New(t, x)
    {
      ClassifyIs(t, x);
    }
    forall q ensures q in Gone(t, items) <==> LeftBehind(t, items, q) { GoneIs(t, items, q); }
    forall q | LeftBehind(t, items, q) ensures exists d :: d in plan.deleted && d.path == q {
      var k :| 0 <= k < |plan.deleted| && plan.deleted[k].path == q;
      assert plan.deleted[k] in plan.deleted;
    }
  }

  lemma {:induction false} DropNothing(fts: seq<FtsRow>)
    ensures DropFts(fts, {}) == fts
    decreases |fts|
  {
    if fts != [] { DropNothing(fts[1..]); }
  }

  function DeletedPaths(deleted: seq<Deleted>): set<string> {
    set k | 0 <= k < |deleted| :: deleted[k].path
  }

  lemma OneMorePath(deleted: seq<Deleted>, k: nat)
    requires k < |deleted|
    ensures DeletedPaths(deleted[..k + 1]) == DeletedPaths(deleted[..k]) + {deleted[k].path}
  {
    var less, more := deleted[..k], deleted[..k + 1];
    forall q | q in DeletedPaths(less) ensures q in DeletedPaths(more) {
      var i :| 0 <= i < k && less[i].path == q;
      assert more[i].path == q;
    }
    assert more[k].path in DeletedPaths(more);
  }

  lemma DeleteNothing(t: Tables)
    ensures Delete(t, {}) == t
  {
    DropNothing(t.fts);
    var none: set<string> := {};
    assert (set x | x in t.memories && t.memories[x].path in none) == {};
    assert t.memories - none == t.memories && t.state - none == t.state;
  }

  lemma MinusTwice<V>(m: map<string, V>, a: set<string>, b: set<string>, c: set<string>)
    requires c <= b
    ensures m - a - b - c == m - (a + b)
  {
  }

  lemma DeleteOneMore(t: Tables, done: set<string>, q: string)
    ensures var now, ids := Delete(t, done), IdsAt(t, q);
            Delete(t, done + {q}) == Tables(now.memories - ids - IdsAt(now, q), DropFts(now.fts, ids), now.state - {q})
  {
    var now, ids := Delete(t, done), IdsAt(t, q);
    var before := set x | x in t.memories && t.memories[x].path in done;
    var after := set x | x in t.memories && t.memories[x].path in done + {q};
    assert after == before + ids;
    DropTwice(t.fts, before, ids);
    assert IdsAt(now, q) <= ids;
    MinusTwice(t.memories, before, ids, IdsAt(now, q));
    MinusTwice(t.state, done, {q}, {});
    assert now.state - {q} - {} == now.state - {q};
  }

  lemma {:induction false} SelectSize(t: Tables, items: seq<Item>, c: Class)
    ensures |Select(t, items, c)| == |set k | 0 <= k < |items| && Classify(t, items[k]) == c|
    decreases |items|
  {
    hide Classify;
    if items != [] {
      var n := |items| - 1;
      SelectSize(t, items[..n], c);
      var less := set k | 0 <= k < n && Classify(t, items[..n][k]) == c;
      var more := set k | 0 <= k < |items| && Classify(t, items[k]) == c;
      assert n !in less && more == less + if Classify(t, items[n]) == c then {n} else {};
    }
  }

  /** How many items a plan adds, updates and keeps, and how many paths it deletes. */
  lemma PlanCounts(plan: Plan, t: Tables, items: seq<Item>)
    requires Plans(plan, t, items) && forall i, j :: 0 <= i < j < |plan.deleted| ==>
        plan.deleted[i].path != plan.deleted[j].path
    ensures |plan.added| == |set k | 0 <= k < |items| && New(t, items[k])|
    ensures |plan.kept| == |set k | 0 <= k < |items| && Indexed(t, items[k])|
    ensures |plan.updated| == |set k | 0 <= k < |items| && !New(t, items[k]) && !Indexed(t, items[k])|
    ensures |plan.deleted| == |set q | q in t.state && LeftBehind(t, items, q)|
  {
    hide Indexed; hide New; hide LeftBehind; hide Classify; hide Select; hide Gone;
    SelectSize(t, items, Added);
    SelectSize(t, items, Updated);
    SelectSize(t, items, Unchanged);
    forall k | 0 <= k < |items|
      ensures Classify(t, items[k]) == Unchanged <==> Indexed(t, items[k])
      ensures Classify(t, items[k]) == Added <==> New(t, items[k])
      ensures Classify(t, items[k]) == Updated <==> !Indexed(t, items[k]) && !New(t, items[k])
    {
      ClassifyIs(t, items[k]);
    }
    assert (set k | 0 <= k < |items| && New(t, items[k])) == set k | 0 <= k < |items| && Classify(t, items[k]) == Added;
    assert (set k | 0 <= k < |items| && Indexed(t, items[k])) ==
           set k | 0 <= k < |items| && Classify(t, items[k]) == Unchanged;
    assert (set k | 0 <= k < |items| && !New(t, items[k]) && !Indexed(t, items[k])) ==
           set k | 0 <= k < |items| && Classify(t, items[k]) == Updated;
    DeletedCount(plan, t, items);
  }

  lemma DeletedCount(plan: Plan, t: Tables, items: seq<Item>)
    requires Plans(plan, t, items) && forall i, j :: 0 <= i < j < |plan.deleted| ==>
        plan.deleted[i].path != plan.deleted[j].path
    ensures |plan.deleted| == |set q | q in t.state && LeftBehind(t, items, q)|
  {
    hide LeftBehind; hide Gone; hide Select;
    var gone := set q | q in t.state && LeftBehind(t, items, q);
    forall q ensures q in Gone(t, items) <==> LeftBehind(t, items, q) { GoneIs(t, items, q); }
    forall q | LeftBehind(t, items, q) ensures q in t.state { LeftBehindIsIndexed(t, items, q); }
    DistinctCount(plan.deleted);
    assert DeletedPaths(plan.deleted) == gone;
  }

  lemma LeftBehindIsIndexed(t: Tables, items: seq<Item>, q: string)
    requires LeftBehind(t, items, q)
    ensures q in t.state
  {
  }

  lemma {:induction false} DistinctCount(deleted: seq<Deleted>)
    requires forall i, j :: 0 <= i < j < |deleted| ==> deleted[i].path != deleted[j].path
    ensures |DeletedPaths(deleted)| == |deleted|
    decreases |deleted|
  {
    if deleted != [] {
      var n := |deleted| - 1;
      DistinctCount(deleted[..n]);
      OneMorePath(deleted, n);
      assert deleted[..n + 1] == deleted;
      assert deleted[n].path !in DeletedPaths(deleted[..n]);
    }
  }
}
