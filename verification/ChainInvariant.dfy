/**
 Where the learning chain E, R, El, Q lives under a state directory, and the invariant that its
 publication keeps: an artifact is visible, or may reappear after a power loss, only with the
 producers' bytes and only on top of a durable predecessor.
 */
module ChainInvariant {
  import opened Wrappers
  import opened CrashFs

  const EvaluationsDir := Entry(StateRoot, Evaluations)
  const QueueDir := Entry(StateRoot, ReviewQueue)

  function EvaluationDir(s: Snapshot): Path {
    Entry(EvaluationsDir, EvaluationName(s.evaluationId))
  }

  function DigestDir(s: Snapshot): Path {
    Entry(EvaluationDir(s), DigestName(s))
  }

  /** Artifacts 0, 1, 2 are the enriched evaluation, the reflection and the eligibility; 3 is the queue request. */
  function Artifact(s: Snapshot, i: nat): Path {
    if i < 3 then Entry(DigestDir(s), ArtifactName(i)) else Entry(QueueDir, RequestName(s))
  }

  /** An ineligible chain has no queue request. */
  function Length(s: Snapshot): nat {
    if s.eligible then 4 else 3
  }

  function Content(s: Snapshot, i: nat): Node {
    File(Canonical(s, i), true)
  }

  predicate IsDirectoryPath(p: Path) {
    p.StateRoot? || p.name.Evaluations? || p.name.ReviewQueue? || p.name.EvaluationName? || p.name.DigestName?
  }

  predicate IsTemp(d: Path, p: Path) {
    p.Entry? && p.parent == d && p.name.Temp?
  }

  /** A well-formed tree whose directories and files are where the layout puts them. */
  ghost predicate Tree(fs: Fs) {
    && StateRoot in fs.vis && Past(fs, StateRoot) == {}
    && (forall p :: p in fs.vis && p.Entry? ==> p.parent in fs.vis && fs.vis[p.parent] == Directory)
    && (forall p, n :: Some(n) in Candidates(fs, p) ==> (n == Directory <==> IsDirectoryPath(p)))
  }

  /** Digest directories hold the three artifact names and temporary files only. */
  ghost predicate NoForeignEntries(fs: Fs) {
    forall p: Path, n :: Some(n) in Candidates(fs, p) && p.Entry? && p.parent.Entry? && p.parent.name.DigestName? ==>
      p.name.Temp? || (p.name.ArtifactName? && p.name.index < 3)
  }

  ghost predicate ArtifactOk(fs: Fs, s: Snapshot, i: nat) {
    forall n :: Some(n) in Candidates(fs, Artifact(s, i)) ==>
      && n == Content(s, i)
      && i < Length(s)
      && (i > 0 ==> Durable(fs, Artifact(s, i - 1)))
  }

  ghost predicate ArtifactsOk(fs: Fs) {
    forall s, i: nat :: i < 4 ==> ArtifactOk(fs, s, i)
  }

  ghost predicate Inv(fs: Fs) {
    Tree(fs) && NoForeignEntries(fs) && ArtifactsOk(fs)
  }

  // ----- what the invariant says about the disk -----

  /** The durable artifacts of every chain are a prefix of E, R, El, Q with exactly the producers' bytes. */
  lemma {:induction false} DurablePrefix(fs: Fs, s: Snapshot, i: nat)
    requires Inv(fs) && i < 4 && Artifact(s, i) in fs.vis
    ensures i < Length(s) && fs.vis[Artifact(s, i)] == Content(s, i)
    ensures forall j: nat :: j < i ==> Durable(fs, Artifact(s, j)) && fs.vis[Artifact(s, j)] == Content(s, j)
    decreases i
  {
    assert ArtifactOk(fs, s, i);
    assert Some(fs.vis[Artifact(s, i)]) in Candidates(fs, Artifact(s, i));
    if i > 0 { DurablePrefix(fs, s, i - 1); }
  }

  /** Power loss keeps the invariant, whatever subset of the pending changes it drops. */
  lemma PowerLossKeepsInv(fs: Fs, loss: Loss)
    requires Inv(fs)
    ensures Inv(PowerLoss(fs, loss))
  {
    PowerLossKeepsTree(fs, loss);
    var after := PowerLoss(fs, loss);
    forall p: Path, n | Some(n) in Candidates(after, p) && p.Entry? && p.parent.Entry? && p.parent.name.DigestName?
      ensures p.name.Temp? || (p.name.ArtifactName? && p.name.index < 3)
    {
      AfterLoss(fs, loss, p, n);
    }
    forall s, i: nat | i < 4 ensures ArtifactOk(after, s, i) {
      PowerLossKeepsArtifact(fs, loss, s, i);
    }
  }

  /** What is found after a power loss was one of the remembered values before it. */
  lemma AfterLoss(fs: Fs, loss: Loss, p: Path, n: Node)
    requires Some(n) in Candidates(PowerLoss(fs, loss), p)
    ensures Survives(fs, loss, p) && p in PowerLoss(fs, loss).vis
    ensures Kept(fs, loss, p) in Candidates(fs, p) && n == Settle(loss, p, Kept(fs, loss, p).value)
  {
  }

  lemma PowerLossKeepsTree(fs: Fs, loss: Loss)
    requires Tree(fs)
    ensures Tree(PowerLoss(fs, loss))
  {
    var after := PowerLoss(fs, loss);
    assert Kept(fs, loss, StateRoot) == Look(fs, StateRoot);
    forall p, n | Some(n) in Candidates(after, p) ensures n == Directory <==> IsDirectoryPath(p) {
      AfterLoss(fs, loss, p, n);
      assert Some(Kept(fs, loss, p).value) in Candidates(fs, p);
    }
    forall p | p in after.vis && p.Entry? ensures p.parent in after.vis && after.vis[p.parent] == Directory {
      assert Some(after.vis[p]) in Candidates(after, p);
      AfterLoss(fs, loss, p, after.vis[p]);
      assert Kept(fs, loss, p.parent) in Candidates(fs, p.parent);
    }
  }

  lemma PowerLossKeepsArtifact(fs: Fs, loss: Loss, s: Snapshot, i: nat)
    requires Inv(fs) && i < 4
    ensures ArtifactOk(PowerLoss(fs, loss), s, i)
  {
    var after := PowerLoss(fs, loss);
    assert ArtifactOk(fs, s, i);
    var p := Artifact(s, i);
    if p in after.vis {
      assert Kept(fs, loss, p) in Candidates(fs, p);
      assert Kept(fs, loss, p) == Some(Content(s, i));
      if i > 0 { DurableSurvives(fs, loss, Artifact(s, i - 1)); }
    }
  }

  // ----- the changes a publisher makes -----

  /** Names other than the directories of the layout and the artifacts are on no path to an artifact. */
  lemma OffThePath(q: Path, s: Snapshot, i: nat)
    requires i < 4 && q.Entry? && (q.name.Temp? || q.name.Foreign?)
    ensures !Reaches(q, Artifact(s, i)) && q != Artifact(s, i)
  {
    assert !Reaches(q, EvaluationsDir) && !Reaches(q, QueueDir);
    assert !Reaches(q, EvaluationDir(s)) && !Reaches(q, DigestDir(s));
  }

  /** Creating, linking to nothing, or removing a temporary file. */
  lemma TempKeepsInv(fs: Fs, q: Path, x: Option<Node>)
    requires Inv(fs) && q.Entry? && q.name.Temp?
    requires x.Some? ==> x.value.File? && q.parent in fs.vis && fs.vis[q.parent] == Directory
    ensures Inv(SetName(fs, q, x))
    ensures forall s, i: nat :: i < 4 && Durable(fs, Artifact(s, i)) ==> Durable(SetName(fs, q, x), Artifact(s, i))
  {
    var after := SetName(fs, q, x);
    forall s, i: nat | i < 4 && Durable(fs, Artifact(s, i)) ensures Durable(after, Artifact(s, i)) {
      OffThePath(q, s, i);
      DurableFrame(fs, q, x, Artifact(s, i));
    }
    CandidatesAfterSet(fs, q, x);
    TreeAfterSet(fs, q, x);
    forall s, i: nat | i < 4 ensures ArtifactOk(after, s, i) {
      assert ArtifactOk(fs, s, i);
      OffThePath(q, s, i);
    }
  }

  lemma CandidatesAfterSet(fs: Fs, q: Path, x: Option<Node>)
    ensures forall p :: p != q ==> Candidates(SetName(fs, q, x), p) == Candidates(fs, p)
    ensures Candidates(SetName(fs, q, x), q) == Candidates(fs, q) + {x}
  {
    assert forall p :: p != q ==>
        Look(SetName(fs, q, x), p) == Look(fs, p) && Past(SetName(fs, q, x), p) == Past(fs, p);
    assert Look(SetName(fs, q, x), q) == x;
  }

  lemma TreeAfterSet(fs: Fs, q: Path, x: Option<Node>)
    requires Tree(fs) && q.Entry?
    requires x.Some? ==> q.parent in fs.vis && fs.vis[q.parent] == Directory
                         && (x.value == Directory <==> IsDirectoryPath(q))
    requires x.None? ==> !IsDirectoryPath(q)
    ensures Tree(SetName(fs, q, x))
  {
    CandidatesAfterSet(fs, q, x);
    var after := SetName(fs, q, x);
    forall p | p in after.vis && p.Entry? ensures p.parent in after.vis && after.vis[p.parent] == Directory {
      if p == q { assert q.parent != q; }
      if p.parent == q && x.None? {
        assert false;
      }
      if p.parent == q && x.Some? && p != q {
        assert Some(fs.vis[q]) in Candidates(fs, q);
      }
    }
  }

  lemma TreeAfterBytes(fs: Fs, q: Path, node: Node)
    requires Tree(fs) && q in fs.vis && q.Entry? && !IsDirectoryPath(q) && node.File?
    ensures Tree(SetBytes(fs, q, node))
  {
    var after := SetBytes(fs, q, node);
    assert forall p :: p != q ==> Candidates(after, p) == Candidates(fs, p);
    assert Candidates(after, q) == {Some(node)} + Past(fs, q);
    assert Some(fs.vis[q]) in Candidates(fs, q);
  }

  lemma TreeAfterSync(fs: Fs, d: Path)
    requires Tree(fs)
    ensures Tree(SyncDir(fs, d))
  {
    assert forall p :: Candidates(SyncDir(fs, d), p) <= Candidates(fs, p);
  }

  /** Filling or fsyncing a temporary file. */
  lemma WriteKeepsInv(fs: Fs, q: Path, node: Node)
    requires Inv(fs) && q.Entry? && q.name.Temp? && q in fs.vis && node.File?
    ensures Inv(SetBytes(fs, q, node))
    ensures forall s, i: nat :: i < 4 && Durable(fs, Artifact(s, i)) ==> Durable(SetBytes(fs, q, node), Artifact(s, i))
  {
    var after := SetBytes(fs, q, node);
    forall s, i: nat | i < 4 && Durable(fs, Artifact(s, i)) ensures Durable(after, Artifact(s, i)) {
      OffThePath(q, s, i);
      DurableBytes(fs, q, node, Artifact(s, i));
    }
    assert forall p :: p != q ==> Candidates(after, p) == Candidates(fs, p);
    assert Some(fs.vis[q]) in Candidates(fs, q);
    assert forall n :: Some(n) in Candidates(after, q) ==> n == node || Some(n) in Candidates(fs, q);
    forall s, i: nat | i < 4 ensures ArtifactOk(after, s, i) {
      assert ArtifactOk(fs, s, i);
      OffThePath(q, s, i);
    }
  }

  lemma SyncKeepsInv(fs: Fs, d: Path)
    requires Inv(fs)
    ensures Inv(SyncDir(fs, d))
    ensures forall s, i: nat :: i < 4 && Durable(fs, Artifact(s, i)) ==> Durable(SyncDir(fs, d), Artifact(s, i))
  {
    var after := SyncDir(fs, d);
    forall s, i: nat | i < 4 && Durable(fs, Artifact(s, i)) ensures Durable(after, Artifact(s, i)) {
      DurableSync(fs, d, Artifact(s, i));
    }
    assert forall p :: Candidates(after, p) <= Candidates(fs, p);
    forall s, i: nat | i < 4 ensures ArtifactOk(after, s, i) {
      assert ArtifactOk(fs, s, i);
    }
  }

  /** Making a directory that is not there yet: nothing below it is visible, so nothing below it is durable. */
  lemma MkdirKeepsInv(fs: Fs, q: Path)
    requires Inv(fs) && q.Entry? && IsDirectoryPath(q) && q !in fs.vis
    requires q.parent in fs.vis && fs.vis[q.parent] == Directory
    requires !q.parent.Entry? || !q.parent.name.DigestName?
    ensures Inv(SetName(fs, q, Some(Directory)))
    ensures forall s, i: nat :: i < 4 && Durable(fs, Artifact(s, i)) ==>
              Durable(SetName(fs, q, Some(Directory)), Artifact(s, i))
  {
    var after := SetName(fs, q, Some(Directory));
    forall s, i: nat | i < 4 && Durable(fs, Artifact(s, i)) ensures Durable(after, Artifact(s, i)) {
      if Reaches(q, Artifact(s, i)) {
        DurableReaches(fs, q, Artifact(s, i));
        assert false;
      }
      DurableFrame(fs, q, Some(Directory), Artifact(s, i));
    }
    CandidatesAfterSet(fs, q, Some(Directory));
    TreeAfterSet(fs, q, Some(Directory));
    forall s, i: nat | i < 4 ensures ArtifactOk(after, s, i) {
      assert ArtifactOk(fs, s, i);
    }
  }

  lemma {:induction false} DurableReaches(fs: Fs, q: Path, p: Path)
    requires Durable(fs, p) && Reaches(q, p)
    ensures Durable(fs, q)
    decreases p
  {
    if q != p { DurableReaches(fs, q, p.parent); }
  }

  /** The one step that matters: linking artifact i is safe when artifact i - 1 is durable. */
  lemma LinkKeepsInv(fs: Fs, s: Snapshot, i: nat)
    requires Inv(fs) && i < Length(s) && Artifact(s, i) !in fs.vis
    requires Artifact(s, i).parent in fs.vis
    requires i > 0 ==> Durable(fs, Artifact(s, i - 1))
    ensures Inv(SetName(fs, Artifact(s, i), Some(Content(s, i))))
    ensures forall t, j: nat :: j < 4 && Durable(fs, Artifact(t, j)) ==>
              Durable(SetName(fs, Artifact(s, i), Some(Content(s, i))), Artifact(t, j))
  {
    var q, x := Artifact(s, i), Some(Content(s, i));
    var after := SetName(fs, q, x);
    forall t, j: nat | j < 4 && Durable(fs, Artifact(t, j)) ensures Durable(after, Artifact(t, j)) {
      if Reaches(q, Artifact(t, j)) {
        DurableReaches(fs, q, Artifact(t, j));
        assert false;
      }
      DurableFrame(fs, q, x, Artifact(t, j));
    }
    CandidatesAfterSet(fs, q, x);
    assert Some(fs.vis[q.parent]) in Candidates(fs, q.parent);
    TreeAfterSet(fs, q, x);
    forall t, j: nat | j < 4 ensures ArtifactOk(after, t, j) {
      assert ArtifactOk(fs, t, j);
    }
  }

  // ----- why the predecessor must be durable -----

  lemma {:induction false} DurableBefore(fs: Fs, q: Path, x: Option<Node>, p: Path)
    requires Durable(SetName(fs, q, x), p) && !Reaches(q, p)
    ensures Durable(fs, p)
    decreases p
  {
    assert Look(SetName(fs, q, x), p) == Look(fs, p) && Past(SetName(fs, q, x), p) == Past(fs, p);
    if p.Entry? {
      DurableBefore(fs, q, x, p.parent);
      assert Look(SetName(fs, q, x), p.parent) == Look(fs, p.parent);
    }
  }

  /** Linking the next artifact keeps the invariant exactly if the one before it is durable. */
  lemma LinkKeepsInvIff(fs: Fs, s: Snapshot, i: nat)
    requires Inv(fs) && 0 < i < Length(s) && Artifact(s, i) !in fs.vis && Artifact(s, i).parent in fs.vis
    ensures Inv(SetName(fs, Artifact(s, i), Some(Content(s, i)))) <==> Durable(fs, Artifact(s, i - 1))
  {
    var q := Artifact(s, i);
    var after := SetName(fs, q, Some(Content(s, i)));
    if Durable(fs, Artifact(s, i - 1)) {
      LinkKeepsInv(fs, s, i);
    } else if Inv(after) {
      assert ArtifactOk(after, s, i);
      assert Some(Content(s, i)) in Candidates(after, q);
      assert !Reaches(q, Artifact(s, i - 1)) by { NotAbove(s, i); }
      DurableBefore(fs, q, Some(Content(s, i)), Artifact(s, i - 1));
    }
  }

  lemma NotAbove(s: Snapshot, i: nat)
    requires 0 < i < 4
    ensures !Reaches(Artifact(s, i), Artifact(s, i - 1))
  {
    var q := Artifact(s, i);
    assert q != StateRoot && !Reaches(q, StateRoot);
    assert !Reaches(q, EvaluationsDir);
    assert !Reaches(q, EvaluationDir(s));
    assert !Reaches(q, DigestDir(s));
    assert Artifact(s, i - 1).parent == DigestDir(s) && Artifact(s, i - 1) != q;
  }

  /** The loss that drops just one name. */
  function Only(p: Path): Loss {
    Loss(map[p := None], map[])
  }

  lemma {:induction false} DirectoriesSurvive(fs: Fs, e: Path, d: Path)
    requires Tree(fs) && d in fs.vis && fs.vis[d] == Directory && !IsDirectoryPath(e)
    ensures Survives(fs, Only(e), d) && Kept(fs, Only(e), d) == Some(Directory)
    decreases d
  {
    assert Some(Directory) in Candidates(fs, d);
    assert d != e;
    if d.Entry? { DirectoriesSurvive(fs, e, d.parent); }
  }

  /** An artifact whose absence is still remembered can vanish from under its successor. */
  lemma SuccessorAlone(fs: Fs, s: Snapshot, i: nat)
    requires Tree(fs) && 0 < i < 4 && None in Past(fs, Artifact(s, i - 1)) && Artifact(s, i) !in fs.vis
    requires Artifact(s, i).parent in fs.vis && fs.vis[Artifact(s, i).parent] == Directory
    ensures var after := PowerLoss(SetName(fs, Artifact(s, i), Some(Content(s, i))), Only(Artifact(s, i - 1)));
            Artifact(s, i) in after.vis && Artifact(s, i - 1) !in after.vis
  {
    var e, q := Artifact(s, i - 1), Artifact(s, i);
    var linked := SetName(fs, q, Some(Content(s, i)));
    assert e != q;
    TreeAfterSet(fs, q, Some(Content(s, i)));
    DirectoriesSurvive(linked, e, q.parent);
    NotDurableCanVanish(linked, e);
    assert Kept(linked, Only(e), q) == Some(Content(s, i));
    assert Survives(linked, Only(e), q);
  }

  /** The evaluation is linked, the directories are durable, and its own directory entry is not yet fsynced. */
  function JustLinked(s: Snapshot): Fs {
    Fs(map[StateRoot := Directory, EvaluationsDir := Directory, EvaluationDir(s) := Directory,
        DigestDir(s) := Directory,
           Artifact(s, 0) := Content(s, 0)],
       map[Artifact(s, 0) := {None}])
  }

  lemma JustLinkedInv(s: Snapshot)
    ensures Inv(JustLinked(s))
  {
    var fs := JustLinked(s);
    assert forall p :: p in fs.vis ==>
      p in {StateRoot, EvaluationsDir, EvaluationDir(s), DigestDir(s), Artifact(s, 0)};
    forall p, n | Some(n) in Candidates(fs, p) ensures p in fs.vis && n == fs.vis[p] {}
  }

  /**
   The fsync between two artifacts cannot be dropped: after the link of E and before its fsync, linking R breaks the
   invariant, and one power loss then leaves R without E.
   */
  lemma SyncCannotBeDropped(s: Snapshot)
    ensures var fs := JustLinked(s);
            var early := SetName(fs, Artifact(s, 1), Some(Content(s, 1)));
            var left := PowerLoss(early, Only(Artifact(s, 0)));
            && Inv(fs) && !Inv(early)
            && Artifact(s, 1) in left.vis && Artifact(s, 0) !in left.vis
  {
    JustLinkedInv(s);
    hide Inv;
    LinkKeepsInvIff(JustLinked(s), s, 1);
    assert Tree(JustLinked(s)) by { TreeOfInv(JustLinked(s)); }
    SuccessorAlone(JustLinked(s), s, 1);
  }

  lemma TreeOfInv(fs: Fs)
    requires Inv(fs)
    ensures Tree(fs)
  {
  }
}
