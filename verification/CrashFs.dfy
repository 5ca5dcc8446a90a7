/**
 A directory tree seen through the two failures a publisher must survive.

 `vis` is what a running process sees.  `past` remembers, for every name, the other values the name
 has had since its directory was last fsynced: a process kill keeps `vis`, a power loss may put any
 name back to any of those values and may tear the bytes of any file that was not fsynced.
 */
module CrashFs {
  import opened Wrappers

  /** The evaluation a chain is built from.  SHA-256 is taken as injective, so the snapshot digest and
      the snapshot itself identify each other; `eligible` is what the producers conclude from it. */
  datatype Snapshot = Snapshot(evaluationId: string, facts: string, eligible: bool)

  datatype Name =
    | Evaluations
    | ReviewQueue
    | EvaluationName(id: string)
    | DigestName(snapshot: Snapshot)
    | ArtifactName(index: nat)
    | RequestName(snapshot: Snapshot)
    | Temp(what: string, nonce: nat)
    | Foreign(text: string)

  datatype Path = StateRoot | Entry(parent: Path, name: Name)

  /** Bytes of the files of interest; `Torn` stands for any other content. */
  datatype Bytes = Canonical(snapshot: Snapshot, index: nat) | Probe | Torn(raw: string)

  datatype Node = Directory | File(bytes: Bytes, synced: bool)

  datatype Fs = Fs(vis: map<Path, Node>, past: map<Path, set<Option<Node>>>)

  function Look(fs: Fs, p: Path): Option<Node> {
    if p in fs.vis then Some(fs.vis[p]) else None
  }

  function Past(fs: Fs, p: Path): set<Option<Node>> {
    if p in fs.past then fs.past[p] else {}
  }

  /** Every value the name may have after a power loss, as far as its own directory entry goes. */
  function Candidates(fs: Fs, p: Path): set<Option<Node>> {
    {Look(fs, p)} + Past(fs, p)
  }

  /** Link, unlink and mkdir all give a name a new value without making it durable. */
  function SetName(fs: Fs, p: Path, x: Option<Node>): Fs {
    Fs(if x.Some? then fs.vis[p := x.value] else fs.vis - {p},
       fs.past[p := Candidates(fs, p)])
  }

  /** Writing to an open file, or fsyncing it, changes the file behind the name. */
  function SetBytes(fs: Fs, p: Path, node: Node): Fs {
    fs.(vis := fs.vis[p := node])
  }

  function SyncDir(fs: Fs, d: Path): Fs {
    fs.(past := fs.past - (set q | q in fs.past && q.Entry? && q.parent == d))
  }

  /** What a power loss decides: which remembered value each name falls back to, and the bytes of torn files. */
  datatype Loss = Loss(names: map<Path, Option<Node>>, torn: map<Path, Bytes>)

  function Kept(fs: Fs, loss: Loss, p: Path): Option<Node> {
    if p.Entry? && p in loss.names && loss.names[p] in Candidates(fs, p) then loss.names[p] else Look(fs, p)
  }

  /** A name survives only together with all its parent directories. */
  predicate Survives(fs: Fs, loss: Loss, p: Path) {
    Kept(fs, loss, p).Some? &&
    (p.Entry? ==> Survives(fs, loss, p.parent) && Kept(fs, loss, p.parent) == Some(Directory))
  }

  function Settle(loss: Loss, p: Path, node: Node): Node {
    if node.File? && !node.synced then File(if p in loss.torn then loss.torn[p] else node.bytes, true) else node
  }

  function PowerLoss(fs: Fs, loss: Loss): Fs {
    Fs(map p | p in fs.vis.Keys + fs.past.Keys && Survives(fs, loss, p) :: Settle(loss, p, Kept(fs, loss, p).value),
       map[])
  }

  /** The name and all its parent directories have reached the disk, with fsynced bytes. */
  ghost predicate Durable(fs: Fs, p: Path) {
    && p in fs.vis
    && Past(fs, p) == {}
    && (fs.vis[p].File? ==> fs.vis[p].synced)
    && (p.Entry? ==> Durable(fs, p.parent) && fs.vis[p.parent] == Directory)
  }

  /** Durable is the right word: no power loss can touch a durable name, whatever it decides elsewhere. */
  lemma {:induction false} DurableSurvives(fs: Fs, loss: Loss, p: Path)
    requires Durable(fs, p)
    ensures Survives(fs, loss, p)
    ensures Look(PowerLoss(fs, loss), p) == Look(fs, p)
    ensures Durable(PowerLoss(fs, loss), p)
    decreases p
  {
    assert Candidates(fs, p) == {Some(fs.vis[p])};
    if p.Entry? {
      DurableSurvives(fs, loss, p.parent);
      assert Candidates(fs, p.parent) == {Some(fs.vis[p.parent])};
    }
  }

  /** Conversely, a visible name that is not durable, in an otherwise intact tree, is lost by some power loss
      as soon as absence is among its remembered values. */
  lemma NotDurableCanVanish(fs: Fs, p: Path)
    requires p.Entry? && None in Past(fs, p)
    ensures Look(PowerLoss(fs, Loss(map[p := None], map[])), p) == None
  {
    assert Kept(fs, Loss(map[p := None], map[]), p) == None;
  }

  /** Durability of a name outlives every change that gives some other name a new value. */
  lemma {:induction false} DurableFrame(fs: Fs, q: Path, x: Option<Node>, p: Path)
    requires Durable(fs, p)
    requires !Reaches(q, p)
    ensures Durable(SetName(fs, q, x), p)
    ensures Look(SetName(fs, q, x), p) == Look(fs, p)
    decreases p
  {
    if p.Entry? { DurableFrame(fs, q, x, p.parent); }
  }

  /** `q` is `p` or one of its parent directories. */
  predicate Reaches(q: Path, p: Path) {
    q == p || (p.Entry? && Reaches(q, p.parent))
  }

  lemma {:induction false} DurableSync(fs: Fs, d: Path, p: Path)
    requires Durable(fs, p)
    ensures Durable(SyncDir(fs, d), p)
    decreases p
  {
    if p.Entry? { DurableSync(fs, d, p.parent); }
  }

  lemma {:induction false} DurableBytes(fs: Fs, q: Path, node: Node, p: Path)
    requires Durable(fs, p) && !Reaches(q, p)
    ensures Durable(SetBytes(fs, q, node), p)
    decreases p
  {
    if p.Entry? { DurableBytes(fs, q, node, p.parent); }
  }

  /** An fsync of a durable directory makes each of its visible, fsynced names durable. */
  lemma SyncMakesDurable(fs: Fs, p: Path)
    requires p.Entry? && p in fs.vis && Durable(fs, p.parent) && fs.vis[p.parent] == Directory
    requires fs.vis[p].File? ==> fs.vis[p].synced
    ensures Durable(SyncDir(fs, p.parent), p)
  {
    DurableSync(fs, p.parent, p.parent);
  }

  lemma DurableSyncAll(fs: Fs, d: Path)
    ensures forall p :: Durable(fs, p) ==> Durable(SyncDir(fs, d), p)
  {
    forall p | Durable(fs, p) ensures Durable(SyncDir(fs, d), p) {
      DurableSync(fs, d, p);
    }
  }

  // ----- the two failures, name by name -----

  /** A new value is seen at once; the old ones stay remembered, and other names are untouched. */
  lemma SetNameIs(fs: Fs, p: Path, x: Option<Node>)
    ensures var after := SetName(fs, p, x);
            && Look(after, p) == x && Past(after, p) == Past(fs, p) + {Look(fs, p)}
            && forall q :: q != p ==> Look(after, q) == Look(fs, q) && Past(after, q) == Past(fs, q)
  {
  }

  /** An fsync of a directory forgets the past of its own entries and of no other name. */
  lemma SyncDirIs(fs: Fs, d: Path)
    ensures var after := SyncDir(fs, d);
            && (forall p :: Look(after, p) == Look(fs, p))
            && (forall name :: Past(after, Entry(d, name)) == {})
            && (forall p: Path :: p.StateRoot? || p.parent != d ==> Past(after, p) == Past(fs, p))
  {
    var after := SyncDir(fs, d);
    forall p: Path | p.StateRoot? || p.parent != d ensures Past(after, p) == Past(fs, p) {
      assert p in after.past <==> p in fs.past;
    }
  }

  /** In a durable directory a power loss can bring back every remembered value, and any bytes for an unsynced file. */
  lemma EveryValueCanReturn(fs: Fs, p: Path, x: Option<Node>, bytes: Bytes) returns (loss: Loss)
    requires p.Entry? && Durable(fs, p.parent) && fs.vis[p.parent] == Directory
    requires x == Look(fs, p) || x in Past(fs, p)
    ensures Look(PowerLoss(fs, loss), p) ==
            match x
            case Some(File(_, false)) => Some(File(bytes, true))
            case _ => x
  {
    loss := Loss(map[p := x], map[p := bytes]);
    DurableSurvives(fs, loss, p.parent);
    assert x in Candidates(fs, p) && Kept(fs, loss, p) == x;
    assert Past(fs, p.parent) == {} && Candidates(fs, p.parent) == {Some(Directory)};
    assert Kept(fs, loss, p.parent) == Some(Directory);
    assert x.Some? ==> p in fs.vis || p in fs.past;
  }

  /** It can do no more: what is found was there, or is a file whose bytes were never fsynced. */
  lemma NothingElseReturns(fs: Fs, loss: Loss, p: Path)
    ensures var found := Look(PowerLoss(fs, loss), p);
            || found.None?
            || found == Look(fs, p) || found in Past(fs, p)
            || (found.value.File? && exists b ::
               Look(fs, p) == Some(File(b, false)) || Some(File(b, false)) in Past(fs, p))
  {
    var kept := Kept(fs, loss, p);
    assert kept in Candidates(fs, p);
    if kept.Some? && kept.value.File? && !kept.value.synced { assert kept == Some(File(kept.value.bytes, false)); }
  }
}
