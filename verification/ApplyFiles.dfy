/** Writing files and refreshing the index, with the files restored when the index does not follow. */
module ApplyFiles {
  import opened TextLines
  import opened ReplaceTransaction

  datatype Result = Success | ApplyFailed | IndexFailed | VerifyFailed | RestoreFailed

  /** What the index does: does the run succeed, does the verification, does the run after a restore? */
  datatype IndexFate = IndexFate(runs: bool, verifies: bool, runsAgain: bool)

  class Indexer {
    var indexed: Files

    constructor (files: Files)
      ensures indexed == files
    {
      indexed := files;
    }
  }

  /** The replaced files have their old text, read and written back as text; new files are gone. */
  ghost predicate Restored(now: Files, before: Files, ops: seq<Operation>) {
    && now.Keys == before.Keys
    && forall p :: p in before ==> now[p] == if p in Touched(ops) then Universal(before[p]) else before[p]
  }

  /** Reading back loses nothing but carriage returns. */
  lemma RestoredIff(now: Files, before: Files, ops: seq<Operation>)
    requires Restored(now, before, ops)
    ensures now == before <==> forall p :: p in before && p in Touched(ops) ==> '\r' !in before[p]
  {
    forall p | p in before ensures Universal(before[p]) == before[p] <==> '\r' !in before[p] {
      UniversalIff(before[p]);
    }
    if forall p :: p in before && p in Touched(ops) ==> '\r' !in before[p] {
      assert forall p :: p in before ==> now[p] == before[p];
    }
  }

  /** What was there before, as text, in the order of the operations; and what was not. */
  method Snapshot(disk: Disk, ops: seq<Operation>) returns (previous: seq<Operation>, created: seq<string>)
    requires Distinct(ops)
    ensures Distinct(previous)
    ensures forall p :: p in Touched(previous) <==> p in Touched(ops) && p in disk.files
    ensures forall k :: 0 <= k < |previous| ==>
      previous[k].path in disk.files && previous[k].content == Universal(disk.files[previous[k].path])
    ensures forall p :: p in created <==> p in Touched(ops) && p !in disk.files
    ensures |previous| == Existing(Paths(ops), disk.files)
  {
    previous, created := [], [];
    for k := 0 to |ops|
      invariant Distinct(previous)
      invariant forall p :: p in Touched(previous) <==> p in Touched(ops[..k]) && p in disk.files
      invariant forall i :: 0 <= i < |previous| ==>
        previous[i].path in disk.files && previous[i].content == Universal(disk.files[previous[i].path])
      invariant forall p :: p in created <==> p in Touched(ops[..k]) && p !in disk.files
      invariant |previous| == Existing(Paths(ops)[..k], disk.files)
    {
      ExistingMore(Paths(ops), disk.files, k);
      var p := ops[k].path;
      TouchedMore(ops, k);
      NotTouched(ops, k);
      if p in disk.files {
        ghost var was := previous;
        previous := previous + [Operation(p, Universal(disk.files[p]))];
        TouchedSnoc(was, previous[|was|]);
        DistinctSnoc(was, previous[|was|]);
      } else {
        created := created + [p];
      }
    }
    assert ops[..|ops|] == ops && Paths(ops)[..|ops|] == Paths(ops);
  }

  /** All of them are there. */
  lemma {:induction false} AllExist(paths: seq<string>, files: Files)
    requires forall i :: 0 <= i < |paths| ==> paths[i] in files
    ensures Existing(paths, files) == |paths|
    decreases |paths|
  {
    if paths != [] { AllExist(paths[..|paths| - 1], files); }
  }

  lemma PreviousExist(written: Files, before: Files, ops: seq<Operation>, previous: seq<Operation>)
    requires Applied(written, before, ops) && forall p :: p in Touched(previous) <==> p in Touched(ops) && p in before
    ensures Existing(Paths(previous), written) == |previous|
  {
    forall i | 0 <= i < |previous| ensures Paths(previous)[i] in written {
      assert previous[i].path in Touched(previous);
    }
    AllExist(Paths(previous), written);
  }

  lemma TouchedSnoc(ops: seq<Operation>, op: Operation)
    ensures Touched(ops + [op]) == Touched(ops) + {op.path}
  {
    TouchedMore(ops + [op], |ops|);
    assert (ops + [op])[..|ops|] == ops && (ops + [op])[..|ops| + 1] == ops + [op];
  }

  lemma DistinctSnoc(ops: seq<Operation>, op: Operation)
    requires Distinct(ops) && op.path !in Touched(ops)
    ensures Distinct(ops + [op])
  {
  }

  lemma NotTouched(ops: seq<Operation>, k: nat)
    requires k < |ops| && Distinct(ops)
    ensures ops[k].path !in Touched(ops[..k])
  {
  }

  /** _apply_files_and_index. */
  method Apply(disk: Disk, indexer: Indexer, ops: seq<Operation>, fate: IndexFate) returns (result: Result)
    requires disk.Fresh() && Distinct(ops)
    modifies disk`files, disk`spare, disk`next, disk`budget, indexer
    ensures result == Success ==> Applied(disk.files, old(disk.files), ops) && indexer.indexed == disk.files
    ensures result == IndexFailed || result == VerifyFailed ==>
      && Restored(disk.files, old(disk.files), ops)
      && (fate.runsAgain ==> indexer.indexed == disk.files)
    ensures result == IndexFailed ==> !fate.runs
    ensures result == VerifyFailed ==> fate.runs && !fate.verifies
    ensures result == ApplyFailed <==> old(disk.budget) < 3 * |ops| + 2 * Existing(Paths(ops), old(disk.files)) + 1
    ensures result == ApplyFailed ==>
      && indexer.indexed == old(indexer.indexed)
      && if old(disk.budget) < 3 * |ops| + Existing(Paths(ops), old(disk.files)) then disk.files == old(disk.files)
         else Applied(disk.files, old(disk.files), ops)
    ensures result == Success <==> result != ApplyFailed && fate.runs && fate.verifies
    ensures result == RestoreFailed <==>
      var existing := Existing(Paths(ops), old(disk.files));
      && result != ApplyFailed && !(fate.runs && fate.verifies) && existing > 0
      && old(disk.budget) < 3 * |ops| + 7 * existing + 2
    ensures result == RestoreFailed ==>
      Applied(disk.files, old(disk.files), ops)
      || Restored(disk.files - (Touched(ops) - old(disk.files).Keys), old(disk.files), ops)
  {
    ghost var before := disk.files;
    var previous, created := Snapshot(disk, ops);
    var stage := disk.Transaction(ops, []);
    if stage != Done {
      NoCleanup(before);
      return ApplyFailed;
    }
    if fate.runs { indexer.indexed := disk.files; }
    if fate.runs && fate.verifies { return Success; }
    ghost var written := disk.files;
    PreviousExist(written, before, ops, previous);
    if previous != [] {
      var restored := disk.Transaction(previous, []);
      if restored != Done {
        NoCleanup(written);
        if restored == LateFault {
          BackToOld(written, disk.files, before, ops, previous, created);
          assert SetOf(created) == Touched(ops) - before.Keys;
        }
        return RestoreFailed;
      }
    } else {
      NothingToRestore(written, previous);
    }
    BackToOld(written, disk.files, before, ops, previous, created);
    disk.UnlinkPaths(created);
    if fate.runsAgain { indexer.indexed := disk.files; }
    return if fate.runs then VerifyFailed else IndexFailed;
  }

  lemma NoCleanup(files: Files)
    ensures files - SetOf([]) == files
  {
    assert SetOf([]) == {};
  }

  lemma NothingToRestore(files: Files, previous: seq<Operation>)
    requires previous == []
    ensures Applied(files, files, previous)
  {
  }

  lemma BackToOld(written: Files, now: Files, before: Files, ops: seq<Operation>, previous: seq<Operation>,
          created: seq<string>)
    requires Applied(written, before, ops) && Applied(now, written, previous)
    requires forall p :: p in Touched(previous) <==> p in Touched(ops) && p in before
    requires forall k :: 0 <= k < |previous| ==>
               previous[k].path in before && previous[k].content == Universal(before[previous[k].path])
    requires forall p :: p in created <==> p in Touched(ops) && p !in before
    ensures Restored(now - SetOf(created), before, ops)
  {
    var end := now - SetOf(created);
    forall p ensures p in end.Keys <==> p in before.Keys
      ensures p in before ==> end[p] == if p in Touched(ops) then Universal(before[p]) else before[p]
    {
      if p in Touched(previous) {
        var k :| 0 <= k < |previous| && previous[k].path == p;
      } else if p in Touched(ops) {
        assert p in created;
      } else {
        assert SameAt(now, written, p) && SameAt(written, before, p);
      }
    }
  }
}
