/**
 The incremental index over one list of files: three tables, a plan computed from them, and the effect
 of one upsert.  The document index is a second instance of the same thing.

 `digest` stands for the bytes of a file and, SHA-256 being injective, for the hash the tables store.
 */
module IndexTables {

  datatype Item = Item(id: string, path: string, digest: string, mtime: int)

  datatype Row = Row(id: string, path: string, digest: string)

  datatype FtsRow = FtsRow(id: string, digest: string)

  datatype Stamp = Stamp(digest: string, mtime: int, indexedAt: string)

  datatype Tables = Tables(memories: map<string, Row>, fts: seq<FtsRow>, state: map<string, Stamp>)

  // ----- item lists -----

  predicate Less(a: string, b: string) {
    b != "" && (a == "" || a[0] < b[0] || (a[0] == b[0] && Less(a[1..], b[1..])))
  }

  lemma {:induction false} LessAsymmetric(a: string, b: string)
    requires Less(a, b)
    ensures !Less(b, a)
    decreases |a|
  {
    if a != "" && a[0] == b[0] { LessAsymmetric(a[1..], b[1..]); }
  }

  /** The order in which the collector hands the items over. */
  ghost predicate Sorted(items: seq<Item>) {
    forall i, j :: 0 <= i < j < |items| ==> Less(items[i].path, items[j].path)
  }

  ghost predicate Distinct(items: seq<Item>) {
    && (forall i, j :: 0 <= i < j < |items| ==> items[i].id != items[j].id)
    && (forall i, j :: 0 <= i < j < |items| ==> items[i].path != items[j].path)
  }

  function Ids(items: seq<Item>): set<string> {
    set k | 0 <= k < |items| :: items[k].id
  }

  function Paths(items: seq<Item>): set<string> {
    set k | 0 <= k < |items| :: items[k].path
  }

  // ----- agreement of the tables with a list -----

  predicate OnePerId(fts: seq<FtsRow>) {
    forall i, j :: 0 <= i < j < |fts| ==> fts[i].id != fts[j].id
  }

  /** The full-text table holds exactly one row for each memory row, with the same content. */
  ghost predicate FtsAgrees(fts: seq<FtsRow>, memories: map<string, Row>) {
    && OnePerId(fts)
    && (forall r :: r in fts ==> r.id in memories && r.digest == memories[r.id].digest)
    && (forall x :: x in memories ==> FtsRow(x, memories[x].digest) in fts)
  }

  ghost predicate MemoriesAre(memories: map<string, Row>, items: seq<Item>) {
    && memories.Keys == Ids(items)
    && forall k :: 0 <= k < |items| ==> items[k].id in memories && memories[items[k].id] == RowOf(items[k])
  }

  /** Tables built from scratch from the list, up to timestamps. */
  ghost predicate Rebuilt(t: Tables, items: seq<Item>) {
    && MemoriesAre(t.memories, items)
    && FtsAgrees(t.fts, t.memories)
    && t.state.Keys == Paths(items)
    && forall k :: 0 <= k < |items| ==> items[k].path in t.state && t.state[items[k].path].digest == items[k].digest
  }

  function RowOf(item: Item): Row {
    Row(item.id, item.path, item.digest)
  }

  /** The same agreement without naming the list. */
  ghost predicate Consistent(t: Tables) {
    && (forall x :: x in t.memories ==> t.memories[x].id == x)
    && (forall x, y :: x in t.memories && y in t.memories && x != y ==> t.memories[x].path != t.memories[y].path)
    && FtsAgrees(t.fts, t.memories)
    && (forall x :: x in t.memories ==>
          t.memories[x].path in t.state && t.state[t.memories[x].path].digest == t.memories[x].digest)
    && (forall q :: q in t.state ==> exists x :: x in t.memories && t.memories[x].path == q)
  }

  lemma RebuiltIsConsistent(t: Tables, items: seq<Item>)
    requires Rebuilt(t, items) && Distinct(items)
    ensures Consistent(t)
  {
    forall x | x in t.memories ensures exists k ::
        0 <= k < |items| && items[k].id == x && t.memories[x] == RowOf(items[k]) {
      assert x in Ids(items);
    }
    forall q | q in t.state ensures exists x :: x in t.memories && t.memories[x].path == q {
      var k :| 0 <= k < |items| && items[k].path == q;
      assert items[k].id in t.memories;
    }
  }

  // ----- the plan -----

  function IdsAt(t: Tables, path: string): set<string> {
    set x | x in t.memories && t.memories[x].path == path
  }

  function Count(fts: seq<FtsRow>, id: string): nat {
    if fts == [] then 0 else (if fts[0].id == id then 1 else 0) + Count(fts[1..], id)
  }

  datatype Class = Added | Updated | Unchanged

  function Classify(t: Tables, item: Item): Class {
    if item.path in t.state && t.state[item.path].digest == item.digest
       && item.id in t.memories && t.memories[item.id].path == item.path
       && IdsAt(t, item.path) == {item.id} && Count(t.fts, item.id) == 1 then Unchanged
    else if item.path !in t.state && item.id !in t.memories && IdsAt(t, item.path) == {} then Added
    else Updated
  }

  function Select(t: Tables, items: seq<Item>, c: Class): seq<Item> {
    if items == [] then []
    else
      var front := Select(t, items[..|items| - 1], c);
      if Classify(t, items[|items| - 1]) == c then front + [items[|items| - 1]] else front
  }

  lemma {:induction false} SelectIs(t: Tables, items: seq<Item>, c: Class)
    ensures forall x :: x in Select(t, items, c) <==> x in items && Classify(t, x) == c
    decreases |items|
  {
    if items != [] {
      var front, last := items[..|items| - 1], items[|items| - 1];
      SelectIs(t, front, c);
      assert items == front + [last];
    }
  }

  ghost predicate Alone(t: Tables, x: Item) {
    x.id in t.memories && forall y :: y in t.memories ==> (t.memories[y].path == x.path <==> y == x.id)
  }

  /** The item stands in all three tables, at its path alone and with one full-text row. */
  ghost predicate Indexed(t: Tables, x: Item) {
    && x.path in t.state && t.state[x.path].digest == x.digest
    && Alone(t, x)
    && exists k :: OnceAt(t.fts, x.id, k)
  }

  /** Neither the path nor the id is known. */
  ghost predicate New(t: Tables, x: Item) {
    && x.path !in t.state && x.id !in t.memories && forall y :: y in t.memories ==> t.memories[y].path != x.path
  }

  lemma ClassifyIs(t: Tables, x: Item)
    ensures Classify(t, x) == Unchanged <==> Indexed(t, x)
    ensures Classify(t, x) == Added <==> New(t, x)
    ensures Classify(t, x) == Updated <==> !Indexed(t, x) && !New(t, x)
  {
    CountIsOne(t.fts, x.id);
    hide Count;
    assert IdsAt(t, x.path) == {x.id} <==> Alone(t, x) by {
      if Alone(t, x) {
        assert forall y :: y in IdsAt(t, x.path) <==> y in {x.id};
      } else if IdsAt(t, x.path) == {x.id} {
        assert x.id in IdsAt(t, x.path);
        forall y | y in t.memories ensures t.memories[y].path == x.path <==> y == x.id {
          assert y in IdsAt(t, x.path) <==> y in {x.id};
        }
      }
    }
    assert IdsAt(t, x.path) == {} <==> forall y :: y in t.memories ==> t.memories[y].path != x.path by {
      if IdsAt(t, x.path) == {} {
        forall y | y in t.memories ensures t.memories[y].path != x.path { assert y !in IdsAt(t, x.path); }
      }
    }
  }

  ghost predicate OnceAt(fts: seq<FtsRow>, id: string, k: int) {
    0 <= k < |fts| && fts[k].id == id && forall j :: 0 <= j < |fts| && fts[j].id == id ==> j == k
  }

  lemma {:induction false} CountIsOne(fts: seq<FtsRow>, id: string)
    ensures Count(fts, id) == 1 <==> exists k :: OnceAt(fts, id, k)
    ensures Count(fts, id) == 0 <==> forall k :: 0 <= k < |fts| ==> fts[k].id != id
    decreases |fts|
  {
    if fts != [] {
      var rest := fts[1..];
      CountIsOne(rest, id);
      assert forall k :: 0 <= k < |rest| ==> rest[k] == fts[k + 1];
      assert forall k :: 0 < k < |fts| ==> fts[k] == rest[k - 1];
      if Count(fts, id) == 1 {
        if fts[0].id == id {
          assert OnceAt(fts, id, 0);
        } else {
          var k :| OnceAt(rest, id, k);
          assert OnceAt(fts, id, k + 1);
        }
      }
      if k :| OnceAt(fts, id, k) {
        if k > 0 { assert OnceAt(rest, id, k - 1); }
      }
    }
  }

  datatype Deleted = Deleted(path: string, ids: set<string>)

  datatype Plan = Plan(added: seq<Item>, updated: seq<Item>, deleted: seq<Deleted>, kept: seq<Item>)

  /** Paths that are gone together with their record; a path whose record lives on elsewhere is not a deletion. */
  function Gone(t: Tables, items: seq<Item>): set<string> {
    set q | q in t.state && q !in Paths(items) && IdsAt(t, q) * Ids(items) == {}
  }

  ghost predicate Plans(plan: Plan, t: Tables, items: seq<Item>) {
    && plan.added == Select(t, items, Added)
    && plan.updated == Select(t, items, Updated)
    && plan.kept == Select(t, items, Unchanged)
    && (forall k :: 0 <= k < |plan.deleted| ==>
          plan.deleted[k].path in Gone(t, items) && plan.deleted[k].ids == IdsAt(t, plan.deleted[k].path))
    && (forall q :: q in Gone(t, items) ==> exists k :: 0 <= k < |plan.deleted| && plan.deleted[k].path == q)
  }

  // ----- the statements of apply_index_changes -----

  function DropFts(fts: seq<FtsRow>, ids: set<string>): (r: seq<FtsRow>)
    ensures forall x :: x in r <==> x in fts && x.id !in ids
    ensures OnePerId(fts) ==> OnePerId(r)
  {
    if fts == [] then []
    else
      var rest := DropFts(fts[1..], ids);
      assert forall x :: x in fts <==> x == fts[0] || x in fts[1..];
      if fts[0].id in ids then rest else [fts[0]] + rest
  }

  lemma {:induction false} DropTwice(fts: seq<FtsRow>, a: set<string>, b: set<string>)
    ensures DropFts(DropFts(fts, a), b) == DropFts(fts, a + b)
    decreases |fts|
  {
    if fts != [] { DropTwice(fts[1..], a, b); }
  }

  /** The record of `item` was indexed under another path `q`. */
  predicate Moved(was: map<string, Row>, item: Item, q: string) {
    item.id in was && was[item.id].path == q && item.path != q
  }

  function OldPath(was: map<string, Row>, item: Item): set<string> {
    if item.id in was && was[item.id].path != item.path then {was[item.id].path} else {}
  }

  /** One turn of the upsert loop: forget the old path, evict whoever holds the new one, insert everywhere. */
  function Upsert(t: Tables, was: map<string, Row>, item: Item, indexedAt: string): Tables {
    var conflicts := IdsAt(t, item.path) - {item.id};
    Tables(
      (t.memories - conflicts)[item.id := RowOf(item)],
      DropFts(t.fts, conflicts + {item.id}) + [FtsRow(item.id, item.digest)],
      (t.state - OldPath(was, item))[item.path := Stamp(item.digest, item.mtime, indexedAt)])
  }

  function Delete(t: Tables, paths: set<string>): Tables {
    var ids := set x | x in t.memories && t.memories[x].path in paths;
    Tables(t.memories - ids, DropFts(t.fts, ids), t.state - paths)
  }

  /** Row by row: who held the path is gone everywhere but in the index rows; the item is in all three tables. */
  ghost predicate Upserted(t: Tables, was: map<string, Row>, item: Item, indexedAt: string, after: Tables) {
    && (forall x :: x in after.memories <==> x == item.id || (x in t.memories && t.memories[x].path != item.path))
    && (forall x :: x in after.memories ==>
          after.memories[x] == if x == item.id then Row(item.id, item.path, item.digest) else t.memories[x])
    && (forall r :: r in after.fts <==>
          || r == FtsRow(item.id, item.digest)
          || (r in t.fts && r.id != item.id && (r.id in t.memories ==> t.memories[r.id].path != item.path)))
    && (forall q :: q in after.state <==>
          q == item.path || (q in t.state && (item.id in was ==> was[item.id].path != q)))
    && (forall q :: q in after.state ==>
          after.state[q] == if q == item.path then Stamp(item.digest, item.mtime, indexedAt) else t.state[q])
  }

  lemma UpsertIs(t: Tables, was: map<string, Row>, item: Item, indexedAt: string)
    ensures Upserted(t, was, item, indexedAt, Upsert(t, was, item, indexedAt))
  {
    var after := Upsert(t, was, item, indexedAt);
    var conflicts := IdsAt(t, item.path) - {item.id};
    var kept := DropFts(t.fts, conflicts + {item.id});
    assert forall r :: r in after.fts <==> r in kept || r == FtsRow(item.id, item.digest);
  }

  /** Row by row: what stood at one of the paths is gone from all three tables. */
  ghost predicate Forgotten(t: Tables, paths: set<string>, after: Tables) {
    && (forall x :: x in after.memories <==> x in t.memories && t.memories[x].path !in paths)
    && (forall x :: x in after.memories ==> after.memories[x] == t.memories[x])
    && (forall r :: r in after.fts <==> r in t.fts && (r.id in t.memories ==> t.memories[r.id].path !in paths))
    && (forall q :: q in after.state <==> q in t.state && q !in paths)
    && (forall q :: q in after.state ==> after.state[q] == t.state[q])
  }

  lemma DeleteIs(t: Tables, paths: set<string>)
    ensures Forgotten(t, paths, Delete(t, paths))
  {
  }

  // ----- check_index_consistency -----

  function FtsIds(fts: seq<FtsRow>): set<string> {
    set k | 0 <= k < |fts| :: fts[k].id
  }

  predicate CheckOk(t: Tables, expectedCount: nat) {
    && |t.memories| == expectedCount
    && |t.state| == expectedCount
    && |FtsIds(t.fts)| == expectedCount
    && (forall x :: x in FtsIds(t.fts) ==> Count(t.fts, x) <= 1)
    && (forall x :: x in t.memories ==> t.memories[x].path in t.state)
    && (forall q :: q in t.state ==> exists x :: x in t.memories && t.memories[x].path == q)
    && (forall x :: x in t.memories ==> x in FtsIds(t.fts))
  }
}
