/**
 Replacing several files at once, with rollback.

 A fault is an exception at one of the file operations: the disk carries out `budget` more of them and the next
 one raises.  The operations of the rollback itself do not fail.  Temporary files and backups have fresh names
 of their own and live in `spare`.
 */
module ReplaceTransaction {
  import opened Wrappers
  type Files = map<string, string>

  datatype Operation = Operation(path: string, content: string)

  datatype Stage = Done | RolledBack | LateFault

  datatype Prepared = Prepared(temp: nat, path: string)

  ghost predicate Distinct(ops: seq<Operation>) {
    forall i, j :: 0 <= i < j < |ops| ==> ops[i].path != ops[j].path
  }

  function Touched(ops: seq<Operation>): set<string> {
    set i | 0 <= i < |ops| :: ops[i].path
  }

  ghost predicate SameAt(a: Files, b: Files, p: string) {
    (p in a <==> p in b) && (p in a ==> a[p] == b[p])
  }

  /** All operations are in effect and nothing else has changed. */
  ghost predicate Applied(now: Files, before: Files, ops: seq<Operation>) {
    && (forall k :: 0 <= k < |ops| ==> ops[k].path in now && now[ops[k].path] == ops[k].content)
    && (forall p :: p !in Touched(ops) ==> SameAt(now, before, p))
  }

  lemma SameEverywhere(a: Files, b: Files)
    requires forall p :: SameAt(a, b, p)
    ensures a == b
  {
    forall p ensures p in a.Keys <==> p in b.Keys { assert SameAt(a, b, p); }
    forall p | p in a ensures a[p] == b[p] { assert SameAt(a, b, p); }
  }

  function Temps(ps: seq<Prepared>): set<nat> {
    set i | 0 <= i < |ps| :: ps[i].temp
  }

  /** How many of the operations replace a file that is there. */
  function Existing(paths: seq<string>, files: Files): nat {
    if paths == [] then 0
    else Existing(paths[..|paths| - 1], files) + if paths[|paths| - 1] in files then 1 else 0
  }

  class Disk {
    var files: Files
    var spare: map<nat, string>
    var next: nat
    var budget: nat
    const litter: bool

    constructor (files: Files, budget: nat, litter: bool)
      ensures this.files == files && spare == map[] && this.budget == budget && this.litter == litter && Fresh()
    {
      this.files, spare, next, this.budget, this.litter := files, map[], 0, budget, litter;
    }

    /** Unused names are unused. */
    ghost predicate Fresh()
      reads this
    {
      forall n :: n in spare ==> n < next
    }

    /** Does the next operation go through? */
    method Io() returns (ok: bool)
      modifies `budget
      ensures ok == (old(budget) > 0) && budget == if ok then old(budget) - 1 else old(budget)
    {
      ok := budget > 0;
      if ok { budget := budget - 1; }
    }

    /** _prepare_text and copy2: a new file, or a fault that may leave a broken one behind. */
    method Create(content: string) returns (temp: Option<nat>)
      requires Fresh()
      modifies `spare, `next, `budget
      ensures Fresh() && next >= old(next)
      ensures temp.Some? <==> old(budget) > 0
      ensures temp.Some? ==>
          budget == old(budget) - 1 && temp.value !in old(spare) && spare == old(spare)[temp.value := content]
      ensures temp.None? ==> budget == old(budget) && (!litter ==> spare == old(spare))
      ensures forall n :: n in old(spare) ==> n in spare && spare[n] == old(spare)[n]
    {
      var ok := Io();
      if ok {
        temp := Some(next);
        spare := spare[next := content];
        next := next + 1;
      } else {
        temp := None;
        if litter {
          spare := spare[next := ""];
          next := next + 1;
        }
      }
    }

    method PrepareAll(ops: seq<Operation>) returns (prepared: seq<Prepared>, ok: bool)
      requires Fresh()
      modifies `spare, `next, `budget
      ensures Fresh() && |prepared| <= |ops| && (ok <==> |prepared| == |ops|)
      ensures forall k :: 0 <= k < |prepared| ==> Holds(prepared[k], ops[k])
      ensures forall i, j :: 0 <= i < j < |prepared| ==> prepared[i].temp != prepared[j].temp
      ensures forall k :: 0 <= k < |prepared| ==> prepared[k].temp !in old(spare)
      ensures ok || !litter ==> spare.Keys == old(spare).Keys + Temps(prepared)
      ensures forall n :: n in old(spare) ==> n in spare && spare[n] == old(spare)[n]
      ensures ok <==> old(budget) >= |ops|
      ensures ok ==> budget == old(budget) - |ops|
      ensures !ok ==> budget == 0
    {
      prepared := [];
      for k := 0 to |ops|
        invariant Fresh() && |prepared| == k && next >= old(next) && budget + k == old(budget)
        invariant forall i :: 0 <= i < k ==> Holds(prepared[i], ops[i]) && prepared[i].temp !in old(spare)
        invariant forall i, j :: 0 <= i < j < k ==> prepared[i].temp != prepared[j].temp
        invariant spare.Keys == old(spare).Keys + Temps(prepared)
        invariant forall n :: n in old(spare) ==> n in spare && spare[n] == old(spare)[n]
      {
        ghost var was := prepared;
        var temp := Create(ops[k].content);
        if temp.None? { return prepared, false; }
        prepared := prepared + [Prepared(temp.value, ops[k].path)];
        TempsMore(was, prepared[k]);
      }
      ok := true;
    }

    ghost predicate Holds(p: Prepared, op: Operation)
      reads this
    {
      p.path == op.path && p.temp in spare && spare[p.temp] == op.content
    }

    /** The backups of the paths that exist. */
    method BackupAll(prepared: seq<Prepared>) returns (backups: seq<Prepared>, ok: bool)
      requires Fresh() && forall k :: 0 <= k < |prepared| ==> prepared[k].temp in spare
      modifies `spare, `next, `budget
      ensures Fresh()
      ensures Saved(backups)
      ensures forall k :: 0 <= k < |backups| ==> backups[k].temp !in old(spare)
      ensures ok ==> forall k :: 0 <= k < |prepared| && prepared[k].path in files ==>
          HasBackup(backups, prepared[k].path)
      ensures ok || !litter ==> spare.Keys == old(spare).Keys + Temps(backups)
      ensures forall n :: n in old(spare) ==> n in spare && spare[n] == old(spare)[n]
      ensures budget + |backups| == old(budget)
      ensures ok <==> old(budget) >= Existing(PathsOf(prepared), files)
      ensures ok ==> |backups| == Existing(PathsOf(prepared), files)
    {
      hide BackupsOk; hide Existing; hide HasBackup; hide Temps;
      backups := [];
      NoBackups(spare, files);
      for k := 0 to |prepared|
        invariant Fresh() && next >= old(next) && Saved(backups) && budget + |backups| == old(budget)
        invariant |backups| == Existing(PathsOf(prepared)[..k], files)
        invariant forall i :: 0 <= i < |backups| ==> backups[i].temp !in old(spare)
        invariant forall i :: 0 <= i < k && prepared[i].path in files ==> HasBackup(backups, prepared[i].path)
        invariant spare.Keys == old(spare).Keys + Temps(backups)
        invariant forall n :: n in old(spare) ==> n in spare && spare[n] == old(spare)[n]
      {
        ExistingMore(PathsOf(prepared), files, k);
        if prepared[k].path in files {
          ghost var was, spareWas := backups, spare;
          var temp := Create(files[prepared[k].path]);
          if temp.None? {
            assert BackupsOk(backups, spare, files) by { BackupsStay(backups, spareWas, spare, files); }
            ExistingGrows(PathsOf(prepared), files, k + 1);
            return backups, false;
          }
          backups := backups + [Prepared(temp.value, prepared[k].path)];
          TempsMore(was, backups[|was|]);
          BackupMore(was, backups[|was|]);
          SavedMore(was, spareWas, files, backups[|was|]);
        }
      }
      assert PathsOf(prepared)[..|prepared|] == PathsOf(prepared);
      ok := true;
    }

    /** Every backup holds the present content of its path. */
    ghost predicate Saved(backups: seq<Prepared>)
      reads this
    {
      BackupsOk(backups, spare, files)
    }

    /** Moving the prepared files into place, one after the other. */
    method ReplaceAll(prepared: seq<Prepared>, ops: seq<Operation>) returns (replaced: seq<string>, ok: bool)
      requires |prepared| == |ops| && Distinct(ops) && forall k :: 0 <= k < |prepared| ==> Holds(prepared[k], ops[k])
      requires forall i, j :: 0 <= i < j < |prepared| ==> prepared[i].temp != prepared[j].temp
      modifies `files, `spare, `budget
      ensures |replaced| <= |ops| && (ok ==> |replaced| == |ops|)
      ensures replaced == Paths(ops)[..|replaced|]
      ensures Applied(files, old(files), ops[..|replaced|])
      ensures spare == old(spare) - Temps(prepared[..|replaced|])
      ensures ok <==> old(budget) >= 2 * |ops|
      ensures ok ==> budget == old(budget) - 2 * |ops|
    {
      replaced := [];
      for k := 0 to |ops|
        invariant replaced == Paths(ops)[..k] && Applied(files, old(files), ops[..k])
        invariant spare == old(spare) - Temps(prepared[..k])
        invariant budget + 2 * k == old(budget)
      {
        var moved := Io();
        if !moved { return replaced, false; }
        NextTemp(prepared, k);
        AppliedMore(files, old(files), ops, k);
        files := files[prepared[k].path := spare[prepared[k].temp]];
        spare := spare - {prepared[k].temp};
        MinusMore(old(spare), Temps(prepared[..k]), prepared[k].temp);
        replaced := replaced + [prepared[k].path];
        var synced := Io();
        if !synced { return replaced, false; }
      }
      ok := true;
    }

    method UnlinkSpare(ps: seq<Prepared>)
      modifies `spare
      ensures spare == old(spare) - Temps(ps)
    {
      MinusNone(spare);
      for k := 0 to |ps|
        invariant spare == old(spare) - Temps(ps[..k])
      {
        assert ps[..k + 1] == ps[..k] + [ps[k]];
        TempsMore(ps[..k], ps[k]);
        MinusMore(old(spare), Temps(ps[..k]), ps[k].temp);
        spare := spare - {ps[k].temp};
      }
      assert ps[..|ps|] == ps;
    }

    method UnlinkPaths(paths: seq<string>)
      modifies `files
      ensures files == old(files) - SetOf(paths)
    {
      MinusNone(files);
      for k := 0 to |paths|
        invariant files == old(files) - SetOf(paths[..k])
      {
        MinusMore(old(files), SetOf(paths[..k]), paths[k]);
        files := files - {paths[k]};
      }
      assert paths[..|paths|] == paths;
    }

    /** The loop over the replaced paths, last first. */
    method RestoreAll(replaced: seq<string>, backups: seq<Prepared>, ghost before: Files)
      requires forall i, j :: 0 <= i < j < |replaced| ==> replaced[i] != replaced[j]
      requires forall p :: p !in replaced ==> SameAt(files, before, p)
      requires BackupsOk(backups, spare, before)
      requires forall p :: p in replaced && p in before ==> HasBackup(backups, p)
      modifies `files, `spare
      ensures files == before
      ensures spare - Temps(backups) == old(spare) - Temps(backups)
    {
      hide BackupsOk; hide SameAt;
      var i := |replaced|;
      assert replaced[..i] == replaced;
      KeepAll(backups, spare, before, replaced[..i]);
      while i > 0
        invariant 0 <= i <= |replaced|
        invariant forall p :: p !in replaced[..i] ==> SameAt(files, before, p)
        invariant Kept(backups, spare, before, replaced[..i])
        invariant spare - Temps(backups) == old(spare) - Temps(backups)
      {
        i := i - 1;
        var p := replaced[i];
        assert replaced[..i + 1] == replaced[..i] + [p] && p !in replaced[..i];
        var b := FindBackup(backups, p);
        if b.Some? {
          TakeBackup(backups, spare, before, replaced[..i], p, b.value);
          OneRestored(files, before, replaced[..i], p);
          files := files[p := spare[backups[b.value].temp]];
          TempIn(backups, b.value);
          spare := spare - {backups[b.value].temp};
        } else {
          assert p !in before;
          KeepFewer(backups, spare, before, replaced[..i], p);
          OneRemoved(files, before, replaced[..i], p);
          files := files - {p};
        }
      }
      SameEverywhere(files, before);
    }

    /**
     _replace_transaction.  A fault while preparing, backing up or replacing leaves every file as it was, less
     the cleanup paths; a fault after that leaves every file new.
     */
    method Transaction(ops: seq<Operation>, cleanup: seq<string>) returns (stage: Stage)
      requires Fresh() && Distinct(ops)
      modifies `files, `spare, `next, `budget
      ensures Fresh()
      ensures stage == RolledBack ==> files == old(files) - SetOf(cleanup)
      ensures stage != RolledBack ==> Applied(files, old(files), ops)
      ensures stage == Done || (stage == RolledBack && !litter) ==> spare.Keys == old(spare).Keys
      ensures stage == RolledBack <==> old(budget) < 3 * |ops| + Existing(Paths(ops), old(files))
      ensures stage == Done <==> old(budget) >= 3 * |ops| + 2 * Existing(Paths(ops), old(files)) + 1
      ensures stage == Done ==> budget == old(budget) - (3 * |ops| + 2 * Existing(Paths(ops), old(files)) + 1)
    {
      ghost var before, spareBefore := files, spare;
      var prepared, ok := PrepareAll(ops);
      if !ok {
        Rollback(prepared, [], [], cleanup, before);
        KeysBack(spareBefore, Temps(prepared), {});
        return RolledBack;
      }
      ghost var spareMiddle := spare;
      assert PathsOf(prepared) == Paths(ops);
      var backups;
      backups, ok := BackupAll(prepared);
      TempsApart(backups, prepared, spareMiddle);
      if !ok {
        Rollback(prepared, backups, [], cleanup, before);
        KeysBack(spareBefore, Temps(prepared), Temps(backups));
        return RolledBack;
      }
      ghost var spareFull := spare;
      stage := Finish(prepared, backups, ops, cleanup, before);
      KeysBack(spareBefore, Temps(prepared), Temps(backups));
    }

    /** The replacements and what comes after them. */
    method Finish(prepared: seq<Prepared>, backups: seq<Prepared>, ops: seq<Operation>, cleanup: seq<string>,
            ghost before: Files)
      returns (stage: Stage)
      requires Fresh() && files == before
      requires |prepared| == |ops| && Distinct(ops) && forall k :: 0 <= k < |prepared| ==> Holds(prepared[k], ops[k])
      requires forall i, j :: 0 <= i < j < |prepared| ==> prepared[i].temp != prepared[j].temp
      requires Saved(backups) && Temps(backups) !! Temps(prepared)
      requires forall k :: 0 <= k < |prepared| && prepared[k].path in files ==> HasBackup(backups, prepared[k].path)
      modifies `files, `spare, `budget
      ensures Fresh()
      ensures stage == RolledBack ==> files == before - SetOf(cleanup)
      ensures stage != RolledBack ==> Applied(files, before, ops)
      ensures stage != LateFault ==> spare == old(spare) - Temps(prepared) - Temps(backups)
      ensures stage == RolledBack <==> old(budget) < 2 * |ops|
      ensures stage == Done <==> old(budget) >= 2 * |ops| + |backups| + 1
      ensures stage == Done ==> budget == old(budget) - (2 * |ops| + |backups| + 1)
    {
      var replaced, ok := ReplaceAll(prepared, ops);
      MinusPrefix(old(spare), prepared, |replaced|);
      KeepBackups(backups, old(spare), before, Temps(prepared[..|replaced|])) by { PrefixTemps(prepared, |replaced|); }
      hide BackupsOk; hide Applied;
      if !ok {
        PartlyApplied(files, before, ops, replaced, backups, prepared);
        Rollback(prepared, backups, replaced, cleanup, before);
        return RolledBack;
      }
      assert ops[..|ops|] == ops && prepared[..|prepared|] == prepared;
      var cleaned := DropBackups(backups);
      stage := if cleaned then Done else LateFault;
    }

    /** After the replacements: the backups go, the directories are synced. */
    method DropBackups(backups: seq<Prepared>) returns (ok: bool)
      modifies `spare, `budget
      ensures ok ==> spare == old(spare) - Temps(backups)
      ensures spare.Keys <= old(spare).Keys
      ensures ok <==> old(budget) >= |backups| + 1
      ensures ok ==> budget == old(budget) - (|backups| + 1)
    {
      MinusNone(spare);
      for k := 0 to |backups|
        invariant spare == old(spare) - Temps(backups[..k]) && budget + k == old(budget)
      {
        var unlinked := Io();
        if !unlinked { return false; }
        assert backups[..k + 1] == backups[..k] + [backups[k]];
        TempsMore(backups[..k], backups[k]);
        MinusMore(old(spare), Temps(backups[..k]), backups[k].temp);
        spare := spare - {backups[k].temp};
      }
      assert backups[..|backups|] == backups;
      ok := Io();
    }

    /** The exception handler. */
    method Rollback(prepared: seq<Prepared>, backups: seq<Prepared>, replaced: seq<string>, cleanup: seq<string>,
            ghost before: Files)
      requires forall i, j :: 0 <= i < j < |replaced| ==> replaced[i] != replaced[j]
      requires forall p :: p !in replaced ==> SameAt(files, before, p)
      requires BackupsOk(backups, spare, before) && Temps(backups) !! Temps(prepared)
      requires forall p :: p in replaced && p in before ==> HasBackup(backups, p)
      modifies `files, `spare
      ensures files == before - SetOf(cleanup)
      ensures spare == old(spare) - Temps(prepared) - Temps(backups)
    {
      hide SameAt;
      KeepBackups(backups, spare, before, Temps(prepared));
      hide BackupsOk;
      UnlinkSpare(prepared);
      RestoreAll(replaced, backups, before);
      UnlinkPaths(cleanup);
      UnlinkSpare(backups);
    }
  }

  function Paths(ops: seq<Operation>): (r: seq<string>)
    ensures |r| == |ops| && forall i :: 0 <= i < |ops| ==> r[i] == ops[i].path
  {
    seq(|ops|, i requires 0 <= i < |ops| => ops[i].path)
  }

  function SetOf(paths: seq<string>): set<string> {
    set p | p in paths
  }

  ghost predicate BackupsOk(backups: seq<Prepared>, spare: map<nat, string>, before: Files) {
    && (forall i :: 0 <= i < |backups| ==> IsBackup(backups[i], spare, before))
    && (forall i, j :: 0 <= i < j < |backups| ==> backups[i].temp != backups[j].temp)
  }

  /** The backups of these paths are still there. */
  ghost predicate Kept(backups: seq<Prepared>, spare: map<nat, string>, before: Files, paths: seq<string>) {
    && (forall i :: 0 <= i < |backups| && backups[i].path in paths ==> IsBackup(backups[i], spare, before))
    && (forall i, j :: 0 <= i < j < |backups| ==> backups[i].temp != backups[j].temp)
    && (forall i :: 0 <= i < |backups| ==> backups[i].path in before)
    && (forall p :: p in paths && p in before ==> HasBackup(backups, p))
  }

  function FindBackup(backups: seq<Prepared>, p: string): (r: Option<nat>)
    ensures r.Some? ==> r.value < |backups| && backups[r.value].path == p
    ensures r.None? ==> !HasBackup(backups, p)
  {
    if backups == [] then None
    else if backups[|backups| - 1].path == p then Some(|backups| - 1)
    else FindBackup(backups[..|backups| - 1], p)
  }

  lemma KeepAll(backups: seq<Prepared>, spare: map<nat, string>, before: Files, paths: seq<string>)
    requires BackupsOk(backups, spare, before) && forall p :: p in paths && p in before ==> HasBackup(backups, p)
    ensures Kept(backups, spare, before, paths)
  {
  }

  lemma KeepBackups(backups: seq<Prepared>, spare: map<nat, string>, before: Files, gone: set<nat>)
    requires BackupsOk(backups, spare, before) && Temps(backups) !! gone
    ensures BackupsOk(backups, spare - gone, before)
  {
    forall i | 0 <= i < |backups| ensures IsBackup(backups[i], spare - gone, before) { TempIn(backups, i); }
  }

  lemma TempIn(ps: seq<Prepared>, i: nat)
    requires i < |ps|
    ensures ps[i].temp in Temps(ps)
  {
  }

  lemma TakeBackup(backups: seq<Prepared>, spare: map<nat, string>, before: Files, paths: seq<string>, p: string,
          b: nat)
    requires Kept(backups, spare, before, paths + [p]) && b < |backups| && backups[b].path == p && p !in paths
    ensures p in before && backups[b].temp in spare && spare[backups[b].temp] == before[p]
    ensures Kept(backups, spare - {backups[b].temp}, before, paths)
  {
    assert p in paths + [p];
    assert IsBackup(backups[b], spare, before);
  }

  lemma KeepFewer(backups: seq<Prepared>, spare: map<nat, string>, before: Files, paths: seq<string>, p: string)
    requires Kept(backups, spare, before, paths + [p])
    ensures Kept(backups, spare, before, paths)
  {
  }

  lemma OneRestored(files: Files, before: Files, paths: seq<string>, p: string)
    requires forall q :: q !in paths + [p] ==> SameAt(files, before, q)
    requires p in before
    ensures forall q :: q !in paths ==> SameAt(files[p := before[p]], before, q)
  {
    forall q | q !in paths ensures SameAt(files[p := before[p]], before, q) {
      if q != p { assert q !in paths + [p]; }
    }
  }

  lemma OneRemoved(files: Files, before: Files, paths: seq<string>, p: string)
    requires forall q :: q !in paths + [p] ==> SameAt(files, before, q)
    requires p !in before
    ensures forall q :: q !in paths ==> SameAt(files - {p}, before, q)
  {
    forall q | q !in paths ensures SameAt(files - {p}, before, q) {
      if q != p { assert q !in paths + [p]; }
    }
  }

  lemma KeysBack(before: map<nat, string>, a: set<nat>, b: set<nat>)
    requires forall n :: n in a ==> n !in before
    requires forall n :: n in b ==> n !in before
    ensures before.Keys + a + b - a - b == before.Keys
  {
  }

  lemma TempsApart(backups: seq<Prepared>, prepared: seq<Prepared>, spare: map<nat, string>)
    requires forall k :: 0 <= k < |prepared| ==> prepared[k].temp in spare
    requires forall k :: 0 <= k < |backups| ==> backups[k].temp !in spare
    ensures Temps(backups) !! Temps(prepared)
    ensures forall n :: n in Temps(backups) ==> n !in spare
  {
  }

  lemma PrefixTemps(ps: seq<Prepared>, k: nat)
    requires k <= |ps|
    ensures Temps(ps[..k]) <= Temps(ps)
  {
    forall n | n in Temps(ps[..k]) ensures n in Temps(ps) {
      var i :| 0 <= i < k && ps[..k][i].temp == n;
      assert ps[i].temp == n;
    }
  }

  lemma MinusPrefix(spare: map<nat, string>, ps: seq<Prepared>, k: nat)
    requires k <= |ps|
    ensures spare - Temps(ps[..k]) - Temps(ps) == spare - Temps(ps)
  {
    PrefixTemps(ps, k);
  }

  lemma PartlyApplied(files: Files, before: Files, ops: seq<Operation>, replaced: seq<string>, backups: seq<Prepared>,
                      prepared: seq<Prepared>)
    requires Distinct(ops) && |replaced| <= |ops| == |prepared| && replaced == Paths(ops)[..|replaced|]
    requires Applied(files, before, ops[..|replaced|]) && forall k :: 0 <= k < |ops| ==> prepared[k].path == ops[k].path
    requires forall k :: 0 <= k < |prepared| && prepared[k].path in before ==> HasBackup(backups, prepared[k].path)
    ensures forall i, j :: 0 <= i < j < |replaced| ==> replaced[i] != replaced[j]
    ensures forall p :: p !in replaced ==> SameAt(files, before, p)
    ensures forall p :: p in replaced && p in before ==> HasBackup(backups, p)
  {
    forall p | p !in replaced ensures p !in Touched(ops[..|replaced|]) {
      assert forall i :: 0 <= i < |replaced| ==> ops[..|replaced|][i].path == replaced[i];
    }
  }

  lemma MinusNone<K, V>(m: map<K, V>)
    ensures m - {} == m
  {
  }

  lemma MinusMore<K, V>(m: map<K, V>, gone: set<K>, k: K)
    ensures m - gone - {k} == m - (gone + {k})
  {
  }

  lemma NextTemp(ps: seq<Prepared>, k: nat)
    requires k < |ps| && forall i, j :: 0 <= i < j < |ps| ==> ps[i].temp != ps[j].temp
    ensures ps[k].temp !in Temps(ps[..k]) && Temps(ps[..k + 1]) == Temps(ps[..k]) + {ps[k].temp}
  {
    assert ps[..k + 1] == ps[..k] + [ps[k]];
    TempsMore(ps[..k], ps[k]);
  }

  lemma AppliedMore(now: Files, before: Files, ops: seq<Operation>, k: nat)
    requires k < |ops| && Distinct(ops) && Applied(now, before, ops[..k])
    ensures Applied(now[ops[k].path := ops[k].content], before, ops[..k + 1])
  {
    TouchedMore(ops, k);
    assert forall i :: 0 <= i < k ==> ops[..k + 1][i] == ops[..k][i];
  }

  lemma TouchedMore(ops: seq<Operation>, k: nat)
    requires k < |ops|
    ensures Touched(ops[..k + 1]) == Touched(ops[..k]) + {ops[k].path}
  {
    var less, more := ops[..k], ops[..k + 1];
    assert more[k] == ops[k];
    forall p | p in Touched(less) ensures p in Touched(more) {
      var i :| 0 <= i < k && less[i].path == p;
      assert more[i].path == p;
    }
  }

  ghost predicate IsBackup(b: Prepared, spare: map<nat, string>, before: Files) {
    b.path in before && b.temp in spare && spare[b.temp] == before[b.path]
  }

  predicate HasBackup(backups: seq<Prepared>, p: string) {
    exists i :: 0 <= i < |backups| && backups[i].path == p
  }

  lemma NoBackups(spare: map<nat, string>, files: Files)
    ensures BackupsOk([], spare, files) && Temps([]) == {} && Existing([], files) == 0
  {
  }

  lemma BackupsStay(backups: seq<Prepared>, spare: map<nat, string>, more: map<nat, string>, files: Files)
    requires BackupsOk(backups, spare, files) && forall n :: n in spare ==> n in more && more[n] == spare[n]
    ensures BackupsOk(backups, more, files)
  {
    forall i | 0 <= i < |backups| ensures IsBackup(backups[i], more, files) {
      assert IsBackup(backups[i], spare, files);
    }
  }

  lemma SavedMore(backups: seq<Prepared>, spare: map<nat, string>, files: Files, b: Prepared)
    requires BackupsOk(backups, spare, files) && b.path in files && b.temp !in spare
    ensures BackupsOk(backups + [b], spare[b.temp := files[b.path]], files)
  {
    var more := backups + [b];
    forall i | 0 <= i < |more| ensures IsBackup(more[i], spare[b.temp := files[b.path]], files) {
      if i < |backups| { assert IsBackup(backups[i], spare, files); }
    }
    forall i, j | 0 <= i < j < |more| ensures more[i].temp != more[j].temp {
      assert IsBackup(backups[i], spare, files);
    }
  }

  lemma BackupMore(backups: seq<Prepared>, b: Prepared)
    ensures HasBackup(backups + [b], b.path)
    ensures forall p :: HasBackup(backups, p) ==> HasBackup(backups + [b], p)
  {
    var more := backups + [b];
    assert more[|backups|] == b;
    forall p | HasBackup(backups, p) ensures HasBackup(more, p) {
      var i :| 0 <= i < |backups| && backups[i].path == p;
      assert more[i].path == p;
    }
  }

  function PathsOf(ps: seq<Prepared>): (r: seq<string>)
    ensures |r| == |ps| && forall i :: 0 <= i < |ps| ==> r[i] == ps[i].path
  {
    seq(|ps|, i requires 0 <= i < |ps| => ps[i].path)
  }

  lemma ExistingMore(paths: seq<string>, files: Files, k: nat)
    requires k < |paths|
    ensures Existing(paths[..k + 1], files) == Existing(paths[..k], files) + if paths[k] in files then 1 else 0
  {
    assert paths[..k + 1][..k] == paths[..k];
  }

  lemma {:induction false} ExistingGrows(paths: seq<string>, files: Files, k: nat)
    requires k <= |paths|
    ensures Existing(paths[..k], files) <= Existing(paths, files)
    decreases |paths| - k
  {
    if k < |paths| {
      ExistingMore(paths, files, k);
      ExistingGrows(paths, files, k + 1);
    } else {
      assert paths[..k] == paths;
    }
  }

  lemma TempsMore(ps: seq<Prepared>, p: Prepared)
    ensures Temps(ps + [p]) == Temps(ps) + {p.temp}
  {
    var more := ps + [p];
    assert more[|ps|] == p;
    forall n | n in Temps(ps) ensures n in Temps(more) {
      var i :| 0 <= i < |ps| && ps[i].temp == n;
      assert more[i].temp == n;
    }
  }
}
