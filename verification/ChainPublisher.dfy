/**
 The publisher of the learning chain, statement by statement.  Every change to the directory tree is
 one call on `StateDisk`; `fuel` says after how many changes the process is cut, so a run may stop
 between any two of them.  A negative `fuel` is an uninterrupted run.
 */
module ChainPublisher {
  import opened Wrappers
  import opened CrashFs
  import opened ChainInvariant

  datatype Outcome = Published | Interrupted | Rejected(code: string)

  // ----- what a complete run leaves behind -----

  function WithoutTemps(vis: map<Path, Node>, d: Path): map<Path, Node> {
    vis - (set p | p in vis && IsTemp(d, p))
  }

  function Swept(vis: map<Path, Node>, s: Snapshot): map<Path, Node> {
    vis - (set p | p in vis && (IsTemp(StateRoot, p) || IsTemp(DigestDir(s), p) || IsTemp(QueueDir, p)))
  }

  function Layout(s: Snapshot, k: nat): map<Path, Node> {
    map[EvaluationsDir := Directory, EvaluationDir(s) := Directory, DigestDir(s) := Directory] +
    (if k == 4 then map[QueueDir := Directory] else map[])
  }

  lemma LayoutIs(s: Snapshot, vis: map<Path, Node>)
    ensures var one := map[EvaluationsDir := Directory] + vis;
            var two := map[EvaluationDir(s) := Directory] + one;
            map[DigestDir(s) := Directory] + two == Layout(s, 0) + vis
  {
    hide DigestDir; hide EvaluationDir;
  }

  /** The first k artifacts with the producers' bytes. */
  function Artifacts(s: Snapshot, k: nat): map<Path, Node> {
    if k == 0 then map[] else Artifacts(s, k - 1)[Artifact(s, k - 1) := Content(s, k - 1)]
  }

  /** The tree once the first k artifacts are in place; entries of `vis` that were there are never replaced. */
  function Extended(vis: map<Path, Node>, s: Snapshot, k: nat): map<Path, Node> {
    Artifacts(s, k) + Layout(s, k) + vis
  }

  function Completed(vis: map<Path, Node>, s: Snapshot): map<Path, Node> {
    Extended(Swept(vis, s), s, Length(s))
  }

  lemma {:induction false} ArtifactsAt(s: Snapshot, k: nat, p: Path)
    requires k <= 4
    ensures p in Artifacts(s, k) <==> exists i: nat :: i < k && p == Artifact(s, i)
    ensures forall i: nat :: i < k ==>
        Artifact(s, i) in Artifacts(s, k) && Artifacts(s, k)[Artifact(s, i)] == Content(s, i)
    decreases k
  {
    if k > 0 {
      ArtifactsAt(s, k - 1, p);
      if p == Artifact(s, k - 1) { assert k - 1 < k; }
    }
  }

  /** Visible artifacts, of this chain and of every other, are never changed or removed. */
  ghost predicate SameArtifacts(before: map<Path, Node>, after: map<Path, Node>) {
    forall i: nat, t :: i < 4 && Artifact(t, i) in before ==>
      Artifact(t, i) in after && after[Artifact(t, i)] == before[Artifact(t, i)]
  }

  /** What no step of a publisher gives up: visible artifacts, and the durability of everything but temporary files. */
  ghost predicate Keeps(before: Fs, after: Fs) {
    && SameArtifacts(before.vis, after.vis)
    && forall p :: Durable(before, p) && !(p.Entry? && p.name.Temp?) ==> Durable(after, p)
  }

  lemma KeepsSelf(fs: Fs)
    ensures Keeps(fs, fs)
  {
  }

  lemma DirectoryAt(fs: Fs, p: Path)
    requires Tree(fs) && p in fs.vis && IsDirectoryPath(p)
    ensures fs.vis[p] == Directory
  {
    assert Some(fs.vis[p]) in Candidates(fs, p);
  }

  lemma RootDurable(fs: Fs)
    requires Tree(fs)
    ensures Durable(fs, StateRoot) && StateRoot in fs.vis && fs.vis[StateRoot] == Directory
  {
    assert Some(fs.vis[StateRoot]) in Candidates(fs, StateRoot);
  }

  lemma ParentDirectory(fs: Fs, s: Snapshot, i: nat)
    requires Tree(fs) && i < 4 && Durable(fs, Artifact(s, i).parent)
    ensures Artifact(s, i).parent in fs.vis && fs.vis[Artifact(s, i).parent] == Directory
  {
    DirectoryAt(fs, Artifact(s, i).parent);
  }

  lemma ExistingBecomesDurable(fs: Fs, s: Snapshot, i: nat)
    requires Inv(fs) && i < 4 && Artifact(s, i) in fs.vis && Durable(fs, Artifact(s, i).parent)
    ensures Durable(SyncDir(fs, Artifact(s, i).parent), Artifact(s, i))
  {
    DurablePrefix(fs, s, i);
    ParentDirectory(fs, s, i);
    SyncMakesDurable(fs, Artifact(s, i));
  }

  lemma KeepsTransitive(a: Fs, b: Fs, c: Fs)
    requires Keeps(a, b) && Keeps(b, c)
    ensures Keeps(a, c)
  {
  }

  lemma KeepsDurable(before: Fs, after: Fs, p: Path)
    requires Keeps(before, after) && Durable(before, p) && (p.Entry? ==> !p.name.Temp?)
    ensures Durable(after, p)
  {
  }

  lemma TempKeeps(fs: Fs, q: Path, x: Option<Node>)
    requires Tree(fs) && q.Entry? && q.name.Temp?
    ensures Keeps(fs, SetName(fs, q, x))
  {
    forall p | Durable(fs, p) && !(p.Entry? && p.name.Temp?) ensures Durable(SetName(fs, q, x), p) {
      TempOffDurable(fs, q, p);
      DurableFrame(fs, q, x, p);
    }
  }

  lemma BytesKeeps(fs: Fs, q: Path, node: Node)
    requires Tree(fs) && q.Entry? && q.name.Temp?
    ensures Keeps(fs, SetBytes(fs, q, node))
  {
    forall p | Durable(fs, p) && !(p.Entry? && p.name.Temp?) ensures Durable(SetBytes(fs, q, node), p) {
      TempOffDurable(fs, q, p);
      DurableBytes(fs, q, node, p);
    }
  }

  lemma {:induction false} TempOffDurable(fs: Fs, q: Path, p: Path)
    requires Tree(fs) && q.Entry? && q.name.Temp? && Durable(fs, p) && q != p
    ensures !Reaches(q, p)
    decreases p
  {
    if p.Entry? {
      assert Some(fs.vis[p.parent]) in Candidates(fs, p.parent);
      TempOffDurable(fs, q, p.parent);
    }
  }

  /** A new name is on no durable path. */
  lemma NewNameKeeps(fs: Fs, q: Path, x: Option<Node>)
    requires q !in fs.vis
    ensures Keeps(fs, SetName(fs, q, x))
  {
    forall p | Durable(fs, p) ensures Durable(SetName(fs, q, x), p) {
      if Reaches(q, p) {
        DurableReaches(fs, q, p);
        assert false;
      }
      DurableFrame(fs, q, x, p);
    }
  }

  ghost predicate SameBut(before: map<Path, Node>, after: map<Path, Node>, q: Path) {
    forall p :: p != q ==> (p in before <==> p in after) && (p in before ==> before[p] == after[p])
  }

  lemma ExtendedNext(v: map<Path, Node>, s: Snapshot, i: nat)
    requires i < 4
    ensures Artifact(s, i) in v ==>
              Artifact(s, i) in Extended(v, s, i) && Extended(v, s, i + 1) == QueueLayout(i) + Extended(v, s, i)
    ensures Artifact(s, i) !in v ==>
              && Artifact(s, i) !in Extended(v, s, i)
              && Extended(v, s, i + 1) == (QueueLayout(i) + Extended(v, s, i))[Artifact(s, i) := Content(s, i)]
  {
    ArtifactsAt(s, i, Artifact(s, i));
    ArtifactsAt(s, i, QueueDir);
    var a, c := Artifact(s, i), Content(s, i);
    assert Artifacts(s, i + 1) == Artifacts(s, i)[a := c];
    assert Layout(s, i + 1) == Layout(s, i) + QueueLayout(i);
    MergeOne(Artifacts(s, i), Layout(s, i), QueueLayout(i), v, a, c);
  }

  lemma ExtendedStart(v: map<Path, Node>, s: Snapshot)
    ensures Extended(v, s, 0) == Layout(s, 0) + v
  {
  }

  lemma ExtendedTemps(v: map<Path, Node>, s: Snapshot, i: nat)
    requires i < 4 && forall p :: p in v ==> !IsTemp(DigestDir(s), p) && !IsTemp(QueueDir, p)
    ensures forall p :: p in Extended(v, s, i) ==> !IsTemp(Artifact(s, i).parent, p)
  {
    forall p | p in Extended(v, s, i) ensures !IsTemp(Artifact(s, i).parent, p) {
      ArtifactsAt(s, i, p);
    }
  }

  function QueueLayout(i: nat): map<Path, Node> {
    if i == 3 then map[QueueDir := Directory] else map[]
  }

  lemma MergeOne(
      artifacts: map<Path, Node>, layout: map<Path, Node>, queue: map<Path, Node>, v: map<Path, Node>, a: Path, c: Node)
    requires a !in layout && a !in queue && artifacts.Keys !! queue.Keys && layout.Keys !! queue.Keys
    ensures a in v ==> artifacts[a := c] + (layout + queue) + v == queue + (artifacts + layout + v)
    ensures a !in v ==> artifacts[a := c] + (layout + queue) + v == (queue + (artifacts + layout + v))[a := c]
  {
  }

  /** A second complete run finds everything in place. */
  lemma CompletedTwice(vis: map<Path, Node>, s: Snapshot)
    ensures Completed(Completed(vis, s), s) == Completed(vis, s)
    ensures forall p :: p in Completed(vis, s) ==>
        !IsTemp(StateRoot, p) && !IsTemp(DigestDir(s), p) && !IsTemp(QueueDir, p)
    ensures forall i: nat :: i < 4 && !(i < Length(s)) && Artifact(s, i) !in vis ==>
        Artifact(s, i) !in Completed(vis, s)
    ensures forall i: nat :: i < Length(s) ==> Artifact(s, i) in Completed(vis, s)
  {
    var v, k := Swept(vis, s), Length(s);
    forall p | p in Extended(v, s, k)
      ensures !IsTemp(StateRoot, p) && !IsTemp(DigestDir(s), p) && !IsTemp(QueueDir, p)
    {
      ArtifactsAt(s, k, p);
    }
    assert Swept(Extended(v, s, k), s) == Extended(v, s, k);
    forall i: nat | i < 4 ensures Artifact(s, i) in Extended(v, s, k) <==> i < k || Artifact(s, i) in v {
      ArtifactsAt(s, k, Artifact(s, i));
    }
  }

  // ----- preflight: the two prefix loops, and what they accept -----

  lemma OneLess(m: map<Path, Node>, gone: set<Path>, names: set<Path>)
    requires names <= gone
    ensures names == gone ==> m - (gone - names) == m
    ensures forall p :: p in names ==> m - (gone - names) - {p} == m - (gone - (names - {p}))
  {
    forall p | p in names ensures m - (gone - names) - {p} == m - (gone - (names - {p})) {
      assert gone - names + {p} == gone - (names - {p});
    }
  }

  /** Present artifacts come before absent ones. */
  predicate PrefixClosed(presence: seq<bool>) {
    forall i, j :: 0 <= i < j < |presence| && presence[j] ==> presence[i]
  }

  method UpstreamLoop(presence: seq<bool>) returns (accepted: bool)
    ensures accepted <==> PrefixClosed(presence)
  {
    var upstreamPresent := true;
    for k := 0 to |presence|
      invariant PrefixClosed(presence[..k])
      invariant upstreamPresent <==> (forall i :: 0 <= i < k ==> presence[i])
    {
      var exists' := presence[k];
      if exists' && !upstreamPresent {
        return false;
      }
      upstreamPresent := if !upstreamPresent then exists' else exists';
      assert presence[..k + 1] == presence[..k] + [presence[k]];
    }
    assert presence[..|presence|] == presence;
    accepted := true;
  }

  method MissingLoop(presence: seq<bool>) returns (accepted: bool)
    ensures accepted <==> PrefixClosed(presence)
  {
    var seenMissing := false;
    for k := 0 to |presence|
      invariant PrefixClosed(presence[..k])
      invariant !seenMissing <==> (forall i :: 0 <= i < k ==> presence[i])
    {
      if !presence[k] {
        seenMissing := true;
      } else if seenMissing {
        return false;
      }
      assert presence[..k + 1] == presence[..k] + [presence[k]];
    }
    assert presence[..|presence|] == presence;
    accepted := true;
  }

  predicate Stray(vis: map<Path, Node>, s: Snapshot, p: Path) {
    p in vis && p.Entry? && p.parent == DigestDir(s) && !(p.name.ArtifactName? && p.name.index < 3)
  }

  predicate Present(vis: map<Path, Node>, s: Snapshot, i: nat) {
    Artifact(s, i) in vis
  }

  predicate BytesMatch(vis: map<Path, Node>, s: Snapshot, i: nat) {
    Artifact(s, i) in vis ==> vis[Artifact(s, i)].File? && vis[Artifact(s, i)].bytes == Canonical(s, i)
  }

  /** The trees a chain may be published onto or resumed from. */
  ghost predicate Publishable(vis: map<Path, Node>, s: Snapshot) {
    && (forall p :: !Stray(vis, s, p))
    && (!s.eligible ==> !Present(vis, s, 3))
    && (forall i: nat, j: nat :: i < j < Length(s) && Present(vis, s, j) ==> Present(vis, s, i))
    && (forall i: nat :: i < Length(s) ==> BytesMatch(vis, s, i))
  }

  /** Under the invariant every chain is publishable: no crash leaves a tree that preflight would refuse. */
  lemma InvIsPublishable(fs: Fs, s: Snapshot)
    requires Inv(fs)
    ensures Publishable(Swept(fs.vis, s), s)
  {
    var vis := Swept(fs.vis, s);
    forall p | p in vis ensures !Stray(vis, s, p) {
      assert Some(fs.vis[p]) in Candidates(fs, p);
    }
    forall j: nat | j < 4 && Present(vis, s, j)
      ensures j < Length(s) && BytesMatch(vis, s, j) && forall i: nat :: i < j ==> Present(vis, s, i)
    {
      DurablePrefix(fs, s, j);
    }
  }

  /** The directory of an evaluation's artifacts, named by its id and by its digest. */
  function Home(id: string, digest: Snapshot): Path {
    Entry(Entry(Entry(StateRoot, Evaluations), EvaluationName(id)), DigestName(digest))
  }

  /** Where the four artifacts of an evaluation lie. */
  function Place(s: Snapshot, i: nat): Path
    requires i < 4
  {
    if i == 3 then Entry(Entry(StateRoot, ReviewQueue), RequestName(s))
        else Entry(Home(s.evaluationId, s), ArtifactName(i))
  }

  ghost predicate Stands(fs: Fs, s: Snapshot, i: nat)
    requires i < 4
  {
    var p := Place(s, i);
    Durable(fs, p) && fs.vis[p] == File(Canonical(s, i), true)
  }

  /**
   The complete chain: evaluation, reflection and eligibility durable with the producers' bytes, the queue request
   if and only if the evaluation is eligible, and no temporaries.
   */
  ghost predicate ChainComplete(fs: Fs, s: Snapshot) {
    && Stands(fs, s, 0) && Stands(fs, s, 1) && Stands(fs, s, 2)
    && (s.eligible ==> Stands(fs, s, 3))
    && (Place(s, 3) in fs.vis ==> s.eligible)
    && (forall p :: p in fs.vis && p.Entry? && p.name.Temp? ==>
          p.parent !in {StateRoot, Home(s.evaluationId, s), Entry(StateRoot, ReviewQueue)})
  }

  // ----- what the preflight answers -----

  ghost predicate OnlyArtifacts(vis: map<Path, Node>, s: Snapshot) {
    forall p :: p in vis && p.Entry? && p.parent == Home(s.evaluationId, s) ==>
      p.name == ArtifactName(0) || p.name == ArtifactName(1) || p.name == ArtifactName(2)
  }

  ghost predicate InOrder(vis: map<Path, Node>, s: Snapshot) {
    forall i: nat, j: nat :: i < j < 4 && Place(s, j) in vis ==> Place(s, i) in vis
  }

  ghost predicate ProducersBytes(vis: map<Path, Node>, s: Snapshot) {
    forall i: nat :: i < 4 && Place(s, i) in vis ==>
      vis[Place(s, i)].File? && vis[Place(s, i)].bytes == Canonical(s, i)
  }

  ghost function Verdict(vis: map<Path, Node>, s: Snapshot): Outcome {
    if !OnlyArtifacts(vis, s) then Rejected("unexpected_entry")
    else if !s.eligible && Place(s, 3) in vis then Rejected("corruption")
    else if !InOrder(vis, s) then Rejected("non_prefix")
    else if !ProducersBytes(vis, s) then Rejected("byte_mismatch")
    else Published
  }

  /** Why a resume is refused: no evaluation at the given place, or one that does not belong there. */
  ghost function RefusedResume(vis: map<Path, Node>, id: string, digest: Snapshot): Option<string> {
    var home := Home(id, digest);
    var root := Entry(home, ArtifactName(0));
    if root !in vis then
      Some(if Entry(home, ArtifactName(1)) in vis || Entry(home, ArtifactName(2)) in vis then "non_prefix"
           else "missing_e")
    else
      match vis[root]
      case File(Canonical(parsed, artifact), _) =>
        if artifact != 0 || parsed.evaluationId != id then Some("path_binding")
        else if parsed != digest then Some("digest_mismatch")
        else None
      case _ => Some("noncanonical_e")
  }

  lemma PlacesAre(vis: map<Path, Node>, s: Snapshot)
    ensures forall i: nat :: i < 4 ==> (Present(vis, s, i) <==> Place(s, i) in vis)
    ensures OnlyArtifacts(vis, s) <==> forall p :: !Stray(vis, s, p)
    ensures forall i: nat :: i < 4 ==> Place(s, i) == Artifact(s, i)
  {
    assert DigestDir(s) == Home(s.evaluationId, s);
    if forall p :: !Stray(vis, s, p) {
      forall p | p in vis && p.Entry? && p.parent == Home(s.evaluationId, s)
        ensures p.name == ArtifactName(0) || p.name == ArtifactName(1) || p.name == ArtifactName(2)
      {
        assert !Stray(vis, s, p);
      }
    }
  }

  /** The preflight accepts exactly the trees that hold the producers' bytes in the order of the chain. */
  lemma AcceptedIsPublishable(vis: map<Path, Node>, s: Snapshot)
    ensures Verdict(vis, s) == Published <==> Publishable(vis, s)
  {
    PlacesAre(vis, s);
    hide Artifact; hide Place; hide Stray; hide OnlyArtifacts;
    if Publishable(vis, s) {
      forall i: nat, j: nat | i < j < 4 && Place(s, j) in vis ensures Place(s, i) in vis {
        assert Present(vis, s, j);
      }
      forall i: nat | i < 4 && Place(s, i) in vis
        ensures vis[Place(s, i)].File? && vis[Place(s, i)].bytes == Canonical(s, i)
      {
        assert Present(vis, s, i) && BytesMatch(vis, s, i);
      }
    } else if Verdict(vis, s) == Published {
      forall i: nat, j: nat | i < j < Length(s) && Present(vis, s, j) ensures Present(vis, s, i) {
        assert Place(s, j) in vis;
      }
      forall i: nat | i < Length(s) ensures BytesMatch(vis, s, i) {
        assert Place(s, i) in vis ==> vis[Place(s, i)].File?;
      }
    }
  }

  lemma DurableArtifactsStay(fs: Fs)
    requires Inv(fs)
    ensures forall s, i: nat :: i < 4 && Artifact(s, i) in fs.vis ==> fs.vis[Artifact(s, i)] == Content(s, i)
  {
    forall s, i: nat | i < 4 && Artifact(s, i) in fs.vis ensures fs.vis[Artifact(s, i)] == Content(s, i) {
      DurablePrefix(fs, s, i);
    }
  }

  lemma CompletedIsComplete(vis: map<Path, Node>, fs: Fs, s: Snapshot)
    requires Inv(fs) && fs.vis == Completed(vis, s)
    requires forall i: nat :: i < Length(s) ==> Durable(fs, Artifact(s, i))
    ensures ChainComplete(fs, s)
  {
    CompletedTwice(vis, s);
    DurableArtifactsStay(fs);
    assert forall i: nat :: i < 4 ==> Place(s, i) == Artifact(s, i);
    if !s.eligible && Artifact(s, 3) in fs.vis {
      DurablePrefix(fs, s, 3);
      assert false;
    }
  }

  class StateDisk {
    var fs: Fs
    var fuel: int

    constructor (tree: Fs, changes: int)
      ensures fs == tree && fuel == changes
    {
      fs := tree;
      fuel := changes;
    }

    // ----- the audited changes -----

    method Tick() returns (ok: bool)
      modifies `fuel
      ensures old(fuel) < 0 ==> ok && fuel < 0
    {
      ok := fuel != 0;
      if fuel > 0 { fuel := fuel - 1; }
    }

    /** Creating, linking to and removing temporary files. */
    method ChangeTemp(q: Path, x: Option<Node>) returns (ok: bool)
      requires Tree(fs) && q.Entry? && q.name.Temp?
      requires x.Some? ==> x.value.File? && q.parent in fs.vis && fs.vis[q.parent] == Directory
      modifies this
      ensures fs == if ok then SetName(old(fs), q, x) else old(fs)
      ensures old(fuel) < 0 ==> ok && fuel < 0
      ensures Tree(fs) && (old(Inv(fs)) ==> Inv(fs))
      ensures Keeps(old(fs), fs)
    {
      ok := Tick();
      if ok {
        TempKeeps(fs, q, x);
        TreeAfterSet(fs, q, x);
        if Inv(fs) { TempKeepsInv(fs, q, x); }
        fs := SetName(fs, q, x);
      }
    }

    /** write_all and fsync_file on an open temporary file. */
    method WriteTemp(q: Path, node: Node) returns (ok: bool)
      requires Tree(fs) && q.Entry? && q.name.Temp? && q in fs.vis && node.File?
      modifies this
      ensures fs == if ok then SetBytes(old(fs), q, node) else old(fs)
      ensures old(fuel) < 0 ==> ok && fuel < 0
      ensures Tree(fs) && (old(Inv(fs)) ==> Inv(fs))
      ensures Keeps(old(fs), fs)
    {
      ok := Tick();
      if ok {
        BytesKeeps(fs, q, node);
        TreeAfterBytes(fs, q, node);
        if Inv(fs) { WriteKeepsInv(fs, q, node); }
        fs := SetBytes(fs, q, node);
      }
    }

    method FsyncDir(d: Path) returns (ok: bool)
      requires Tree(fs) && d in fs.vis
      modifies this
      ensures fs == if ok then SyncDir(old(fs), d) else old(fs)
      ensures old(fuel) < 0 ==> ok && fuel < 0
      ensures Tree(fs) && (old(Inv(fs)) ==> Inv(fs))
      ensures Keeps(old(fs), fs)
    {
      ok := Tick();
      if ok {
        DurableSyncAll(fs, d);
        TreeAfterSync(fs, d);
        if Inv(fs) { SyncKeepsInv(fs, d); }
        fs := SyncDir(fs, d);
      }
    }

    method Mkdir(q: Path) returns (ok: bool)
      requires Tree(fs) && q.Entry? && IsDirectoryPath(q) && q !in fs.vis
      requires q.parent in fs.vis && fs.vis[q.parent] == Directory
      requires !q.parent.Entry? || !q.parent.name.DigestName?
      modifies this
      ensures fs == if ok then SetName(old(fs), q, Some(Directory)) else old(fs)
      ensures old(fuel) < 0 ==> ok && fuel < 0
      ensures Tree(fs) && (old(Inv(fs)) ==> Inv(fs))
      ensures Keeps(old(fs), fs)
    {
      ok := Tick();
      if ok {
        NewNameKeeps(fs, q, Some(Directory));
        TreeAfterSet(fs, q, Some(Directory));
        if Inv(fs) { MkdirKeepsInv(fs, q); }
        fs := SetName(fs, q, Some(Directory));
      }
    }

    /** The no-replace link that makes artifact i final. */
    method LinkArtifact(s: Snapshot, i: nat, temp: Path) returns (ok: bool)
      requires Tree(fs) && i < Length(s) && Artifact(s, i) !in fs.vis
      requires Artifact(s, i).parent in fs.vis
      requires temp in fs.vis && fs.vis[temp] == Content(s, i)
      modifies this
      ensures fs == if ok then SetName(old(fs), Artifact(s, i), old(Some(fs.vis[temp]))) else old(fs)
      ensures old(fuel) < 0 ==> ok && fuel < 0
      ensures Tree(fs) && (old(Inv(fs) && (i > 0 ==> Durable(fs, Artifact(s, i - 1)))) ==> Inv(fs))
      ensures Keeps(old(fs), fs)
    {
      ok := Tick();
      if ok {
        var q, x := Artifact(s, i), Some(fs.vis[temp]);
        NewNameKeeps(fs, q, x);
        assert Some(fs.vis[q.parent]) in Candidates(fs, q.parent);
        TreeAfterSet(fs, q, x);
        if Inv(fs) && (i > 0 ==> Durable(fs, Artifact(s, i - 1))) { LinkKeepsInv(fs, s, i); }
        fs := SetName(fs, q, x);
      }
    }

    // ----- preflight -----

    method CleanupTemps(d: Path) returns (ok: bool)
      requires Tree(fs)
      modifies this
      ensures Tree(fs) && (old(Inv(fs)) ==> Inv(fs))
      ensures ok ==> fs.vis == WithoutTemps(old(fs.vis), d)
      ensures old(fuel) < 0 ==> ok && fuel < 0
      ensures Keeps(old(fs), fs)
    {
      if d !in fs.vis {
        assert forall p :: p in fs.vis && p.Entry? ==> p.parent in fs.vis;
        return true;
      }
      ghost var start := fs.vis;
      var names := set p | p in fs.vis && IsTemp(d, p);
      ghost var gone := names;
      OneLess(start, gone, names);
      while names != {}
        invariant names <= gone && names <= fs.vis.Keys && fs.vis == start - (gone - names)
        invariant Tree(fs) && (old(Inv(fs)) ==> Inv(fs))
        invariant Keeps(old(fs), fs)
        invariant old(fuel) < 0 ==> fuel < 0
        decreases names
      {
        var name :| name in names;
        OneLess(start, gone, names);
        ok := ChangeTemp(name, None);
        if !ok {
          return;
        }
        names := names - {name};
      }
      ok := true;
    }

    /** Temp cleanup in the state root, the digest directory and the queue directory. */
    method Sweep(s: Snapshot) returns (ok: bool)
      requires Tree(fs)
      modifies this
      ensures Tree(fs) && (old(Inv(fs)) ==> Inv(fs))
      ensures Keeps(old(fs), fs)
      ensures old(fuel) < 0 ==> ok && fuel < 0
      ensures ok ==> fs.vis == Swept(old(fs.vis), s)
    {
      ok := CleanupTemps(StateRoot);
      if ok { ok := CleanupTemps(DigestDir(s)); }
      if ok { ok := CleanupTemps(QueueDir); }
    }

    /** The ordered checks of the preflight; they read only. */
    method Check(s: Snapshot) returns (result: Outcome, presence: seq<bool>)
      requires Tree(fs) && forall p :: p in fs.vis ==> !IsTemp(DigestDir(s), p)
      ensures result == Verdict(fs.vis, s) && !result.Interrupted?
      ensures result.Published? <==> Publishable(fs.vis, s)
      ensures result.Published? ==>
                |presence| == Length(s) && forall i: nat :: i < Length(s) ==> presence[i] == Present(fs.vis, s, i)
    {
      PlacesAre(fs.vis, s);
      presence := [];
      var stray := set p | p in fs.vis && Stray(fs.vis, s, p);
      if stray != {} {
        return Rejected("unexpected_entry"), presence;
      }
      assert forall p :: Stray(fs.vis, s, p) ==> p in stray;
      for i := 0 to Length(s)
        invariant |presence| == i && forall k: nat :: k < i ==> presence[k] == Present(fs.vis, s, k)
      {
        presence := presence + [Present(fs.vis, s, i)];
      }
      if !s.eligible && Present(fs.vis, s, 3) {
        return Rejected("corruption"), presence;
      }
      var upstream := UpstreamLoop(presence);
      if !upstream {
        var i, j :| 0 <= i < j < |presence| && presence[j] && !presence[i];
        assert Present(fs.vis, s, j) && !Present(fs.vis, s, i);
        assert Place(s, j) in fs.vis && Place(s, i) !in fs.vis;
        return Rejected("non_prefix"), presence;
      }
      var prefix := MissingLoop(presence);
      assert prefix;
      forall i: nat, j: nat | i < j < Length(s) && Present(fs.vis, s, j) ensures Present(fs.vis, s, i) {
        assert presence[j] && presence[i];
      }
      for i := 0 to Length(s)
        invariant forall k: nat :: k < i ==> BytesMatch(fs.vis, s, k)
      {
        if presence[i] && (fs.vis[Artifact(s, i)] == Directory || fs.vis[Artifact(s, i)].bytes != Canonical(s, i)) {
          assert !BytesMatch(fs.vis, s, i) && !Publishable(fs.vis, s);
          AcceptedIsPublishable(fs.vis, s);
          return Rejected("byte_mismatch"), presence;
        }
      }
      AcceptedIsPublishable(fs.vis, s);
      result := Published;
    }

    /** open_exclusive, write_all, fsync_file. */
    method StageTemp(temp: Path, bytes: Bytes) returns (ok: bool)
      requires Tree(fs) && temp.Entry? && temp.name.Temp? && temp !in fs.vis
      requires temp.parent in fs.vis && fs.vis[temp.parent] == Directory
      modifies this
      ensures Tree(fs) && (old(Inv(fs)) ==> Inv(fs))
      ensures if ok then fs.vis == old(fs.vis)[temp := File(bytes, true)] else SameBut(old(fs.vis), fs.vis, temp)
      ensures old(fuel) < 0 ==> ok && fuel < 0
      ensures Keeps(old(fs), fs)
    {
      ok := ChangeTemp(temp, Some(File(Torn(""), false)));
      if ok { ok := WriteTemp(temp, File(bytes, false)); }
      if ok { ok := WriteTemp(temp, File(bytes, true)); }
    }

    method CapabilityProbe(nonce: nat) returns (ok: bool)
      requires Tree(fs)
      requires forall p :: p in fs.vis ==> !IsTemp(StateRoot, p)
      modifies this
      ensures Tree(fs) && (old(Inv(fs)) ==> Inv(fs))
      ensures ok ==> fs.vis == old(fs.vis)
      ensures old(fuel) < 0 ==> ok && fuel < 0
      ensures Keeps(old(fs), fs)
    {
      var source := Entry(StateRoot, Temp("probe", nonce));
      assert IsTemp(StateRoot, source);
      assert Some(fs.vis[StateRoot]) in Candidates(fs, StateRoot);
      ok := StageTemp(source, Probe);
      if ok { ok := ProbeLink(source, Entry(StateRoot, Temp("probe-target", nonce))); }
      if ok { ok := FsyncDir(StateRoot); }
    }

    method ProbeLink(source: Path, target: Path) returns (ok: bool)
      requires Tree(fs) && IsTemp(StateRoot, source) && IsTemp(StateRoot, target)
      requires source in fs.vis && target !in fs.vis
      modifies this
      ensures Tree(fs) && (old(Inv(fs)) ==> Inv(fs))
      ensures ok ==> fs.vis == old(fs.vis) - {source}
      ensures old(fuel) < 0 ==> ok && fuel < 0
      ensures Keeps(old(fs), fs)
    {
      assert Some(fs.vis[StateRoot]) in Candidates(fs, StateRoot) && Some(fs.vis[source]) in Candidates(fs, source);
      ok := ChangeTemp(target, Some(fs.vis[source]));
      if ok { ok := ChangeTemp(target, None); }
      if ok { ok := ChangeTemp(source, None); }
    }

    /** mkdir the level if it is missing; fsync its parent regardless. */
    method EnsureDir(child: Path) returns (ok: bool)
      requires Tree(fs) && child.Entry? && IsDirectoryPath(child) && IsDirectoryPath(child.parent)
      requires Durable(fs, child.parent) && fs.vis[child.parent] == Directory
      requires !child.parent.Entry? || !child.parent.name.DigestName?
      modifies this
      ensures Tree(fs) && (old(Inv(fs)) ==> Inv(fs))
      ensures ok ==> Durable(fs, child) && fs.vis == map[child := Directory] + old(fs.vis) && fs.vis[child] == Directory
      ensures old(fuel) < 0 ==> ok && fuel < 0
      ensures Keeps(old(fs), fs)
    {
      hide Inv; hide Tree; hide Keeps;
      ghost var start := fs;
      ok := true;
      if child !in fs.vis {
        ok := Mkdir(child);
        if ok { KeepsDurable(start, fs, child.parent); }
      } else {
        KeepsSelf(fs);
      }
      if ok {
        DirectoryAt(fs, child);
        ghost var before := fs;
        ok := FsyncDir(child.parent);
        if ok { SyncMakesDurable(before, child); }
        KeepsTransitive(start, before, fs);
      }
    }

    /** Temp file, fsync, read back, no-replace link, unlink, directory fsync. */
    method PublishFile(s: Snapshot, i: nat, nonce: nat) returns (result: Outcome)
      requires Tree(fs) && i < Length(s)
      requires var d := Artifact(s, i).parent; Durable(fs, d) && fs.vis[d] == Directory
      requires forall p :: p in fs.vis ==> !IsTemp(Artifact(s, i).parent, p)
      modifies this
      ensures Tree(fs) && (old(Inv(fs) && (i > 0 ==> Durable(fs, Artifact(s, i - 1)))) ==> Inv(fs))
      ensures result.Rejected? ==> old(Artifact(s, i) in fs.vis)
      ensures result.Published? && old(Artifact(s, i) !in fs.vis) ==>
                fs.vis == old(fs.vis)[Artifact(s, i) := Content(s, i)] && Durable(fs, Artifact(s, i))
      ensures old(fuel) < 0 ==> fuel < 0 && !result.Interrupted?
      ensures Keeps(old(fs), fs)
    {
      var target := Artifact(s, i);
      var temp := Entry(target.parent, Temp("artifact", nonce));
      assert IsTemp(target.parent, temp);
      var ok := StageTemp(temp, Canonical(s, i));
      if !ok {
        return Interrupted;
      }
      if fs.vis[temp].bytes != Canonical(s, i) {
        return Rejected("temp_mismatch");
      }
      if target in fs.vis {
        if fs.vis[target] == Directory || fs.vis[target].bytes != Canonical(s, i) {
          return Rejected("conflict");
        }
      } else {
        ok := LinkArtifact(s, i, temp);
        if !ok {
          return Interrupted;
        }
      }
      ok := Settle(s, i, temp);
      result := if ok then Published else Interrupted;
    }

    /** Unlink the temporary name and fsync the directory. */
    method Settle(s: Snapshot, i: nat, temp: Path) returns (ok: bool)
      requires Tree(fs) && i < 4 && Artifact(s, i) in fs.vis && IsTemp(Artifact(s, i).parent, temp)
      requires var d := Artifact(s, i).parent; Durable(fs, d) && fs.vis[d] == Directory
      modifies this
      ensures Tree(fs) && (old(Inv(fs)) ==> Inv(fs))
      ensures ok ==> fs.vis == old(fs.vis) - {temp}
      ensures ok && old(fs.vis[Artifact(s, i)]) == Content(s, i) ==> Durable(fs, Artifact(s, i))
      ensures !ok ==> SameBut(old(fs.vis), fs.vis, temp)
      ensures old(fuel) < 0 ==> ok && fuel < 0
      ensures Keeps(old(fs), fs)
    {
      var target := Artifact(s, i);
      ok := ChangeTemp(temp, None);
      if ok {
        ghost var before := fs;
        ok := FsyncDir(target.parent);
        if ok && before.vis[target] == Content(s, i) { SyncMakesDurable(before, target); }
      }
    }

    method RunChain(s: Snapshot, nonce: nat) returns (result: Outcome)
      requires Tree(fs)
      modifies this
      ensures Tree(fs) && (old(Inv(fs)) ==> Inv(fs))
      ensures Keeps(old(fs), fs)
      ensures old(fuel) < 0 ==> fuel < 0 && !result.Interrupted?
      ensures result.Rejected? ==> !Publishable(Swept(old(fs.vis), s), s) && fs.vis == Swept(old(fs.vis), s)
      ensures result.Rejected? ==> result == Verdict(fs.vis, s)
      ensures result.Published? ==> Verdict(Swept(old(fs.vis), s), s) == Published
      ensures result.Published? ==> Publishable(Swept(old(fs.vis), s), s) && fs.vis == Completed(old(fs.vis), s)
      ensures result.Published? && old(Inv(fs)) ==> forall i: nat :: i < Length(s) ==> Durable(fs, Artifact(s, i))
      ensures result.Published? && old(Inv(fs)) ==> ChainComplete(fs, s)
    {
      hide Inv; hide Tree; hide Keeps; hide Extended; hide Durable; hide ChainComplete; hide Verdict;
      ghost var a := fs;
      var ok := Sweep(s);
      if !ok {
        return Interrupted;
      }
      ghost var b := fs;
      var presence;
      result, presence := Check(s);
      if result.Rejected? {
        return;
      }
      result := Publish(s, presence, nonce);
      KeepsTransitive(a, b, fs);
      if result.Published? && !s.eligible && QueueDir in fs.vis {
        ghost var c := fs;
        ok := FsyncDir(QueueDir);
        KeepsTransitive(a, c, fs);
        forall i: nat | i < Length(s) && ok && Durable(c, Artifact(s, i)) ensures Durable(fs, Artifact(s, i)) {
          KeepsDurable(c, fs, Artifact(s, i));
        }
        if !ok {
          return Interrupted;
        }
      }
      if result.Published? && Inv(a) { CompletedIsComplete(a.vis, fs, s); }
    }

    /** Everything after the preflight: probe, directory levels, artifacts. */
    method Publish(s: Snapshot, presence: seq<bool>, nonce: nat) returns (result: Outcome)
      requires Tree(fs) && fs.vis == Swept(fs.vis, s)
      requires |presence| == Length(s) && forall i: nat :: i < Length(s) ==> presence[i] == Present(fs.vis, s, i)
      modifies this
      ensures Tree(fs) && (old(Inv(fs)) ==> Inv(fs))
      ensures Keeps(old(fs), fs)
      ensures !result.Rejected?
      ensures old(fuel) < 0 ==> fuel < 0 && result.Published?
      ensures result.Published? ==> fs.vis == Extended(old(fs.vis), s, Length(s))
      ensures result.Published? && old(Inv(fs)) ==> forall i: nat :: i < Length(s) ==> Durable(fs, Artifact(s, i))
    {
      hide Inv; hide Keeps; hide Durable; hide Extended;
      ghost var v := fs.vis;
      ghost var a := fs;
      RootDurable(fs);
      assert forall p :: p in v ==> !IsTemp(StateRoot, p) && !IsTemp(DigestDir(s), p) && !IsTemp(QueueDir, p);
      var ok := CapabilityProbe(nonce);
      if !ok {
        return Interrupted;
      }
      ghost var b := fs;
      RootDurable(fs);
      ok := EnsureLayout(s);
      KeepsTransitive(a, b, fs);
      if !ok {
        return Interrupted;
      }
      ghost var c := fs;
      assert fs.vis == Extended(v, s, 0) by { ExtendedStart(v, s); }
      result := PublishAll(s, presence, v, nonce);
      KeepsTransitive(a, c, fs);
    }

    method EnsureLayout(s: Snapshot) returns (ok: bool)
      requires Tree(fs) && Durable(fs, StateRoot) && fs.vis[StateRoot] == Directory
      modifies this
      ensures Tree(fs) && (old(Inv(fs)) ==> Inv(fs))
      ensures ok ==> fs.vis == Layout(s, 0) + old(fs.vis) && Durable(fs, DigestDir(s))
      ensures old(fuel) < 0 ==> ok && fuel < 0
      ensures Keeps(old(fs), fs)
    {
      hide Inv; hide Tree; hide Keeps; hide Durable; hide Layout;
      ghost var a := fs;
      ok := EnsureDir(EvaluationsDir);
      ghost var b := fs;
      if ok {
        ok := EnsureDir(EvaluationDir(s));
        KeepsTransitive(a, b, fs);
      }
      ghost var c := fs;
      if ok {
        ok := EnsureDir(DigestDir(s));
        KeepsTransitive(a, c, fs);
        LayoutIs(s, a.vis);
      }
    }

    method PublishAll(s: Snapshot, presence: seq<bool>, ghost v: map<Path, Node>, nonce: nat) returns (result: Outcome)
      requires Tree(fs) && Durable(fs, DigestDir(s)) && fs.vis == Extended(v, s, 0)
      requires |presence| == Length(s) && forall i: nat :: i < Length(s) ==> presence[i] == Present(v, s, i)
      requires forall p :: p in v ==> !IsTemp(DigestDir(s), p) && !IsTemp(QueueDir, p)
      modifies this
      ensures Tree(fs) && (old(Inv(fs)) ==> Inv(fs))
      ensures Keeps(old(fs), fs)
      ensures !result.Rejected?
      ensures old(fuel) < 0 ==> fuel < 0 && result.Published?
      ensures result.Published? ==> fs.vis == Extended(v, s, Length(s))
      ensures result.Published? && old(Inv(fs)) ==> forall i: nat :: i < Length(s) ==> Durable(fs, Artifact(s, i))
    {
      hide Inv; hide Tree; hide Keeps; hide Durable; hide Extended;
      ghost var start := fs;
      KeepsSelf(fs);
      for i := 0 to Length(s)
        invariant Tree(fs) && (Inv(start) ==> Inv(fs))
        invariant Keeps(start, fs)
        invariant old(fuel) < 0 ==> fuel < 0
        invariant fs.vis == Extended(v, s, i)
        invariant Inv(start) ==> forall j: nat :: j < i ==> Durable(fs, Artifact(s, j))
      {
        ghost var before := fs;
        KeepsDurable(start, fs, DigestDir(s));
        result := PublishStep(s, i, presence[i], v, nonce);
        KeepsTransitive(start, before, fs);
        forall j: nat | j < i && Durable(before, Artifact(s, j)) ensures Durable(fs, Artifact(s, j)) {
          KeepsDurable(before, fs, Artifact(s, j));
        }
        if result != Published {
          return;
        }
      }
      result := Published;
    }

    /** One turn of the publication loop: fsync what already exists, publish what does not. */
    method PublishStep(s: Snapshot, i: nat, existed: bool, ghost v: map<Path, Node>, nonce: nat)
        returns (result: Outcome)
      requires Tree(fs) && i < Length(s) && Durable(fs, DigestDir(s))
      requires fs.vis == Extended(v, s, i) && existed == (Artifact(s, i) in v)
      requires forall p :: p in v ==> !IsTemp(DigestDir(s), p) && !IsTemp(QueueDir, p)
      modifies this
      ensures Tree(fs)
      ensures old(Inv(fs) && (i > 0 ==> Durable(fs, Artifact(s, i - 1)))) ==> Inv(fs)
      ensures !result.Rejected?
      ensures old(fuel) < 0 ==> fuel < 0 && result.Published?
      ensures Keeps(old(fs), fs)
      ensures result.Published? ==> fs.vis == Extended(v, s, i + 1)
      ensures result.Published? && old(Inv(fs) && (i > 0 ==> Durable(fs, Artifact(s, i - 1)))) ==>
                Durable(fs, Artifact(s, i))
    {
      hide Inv; hide Tree; hide Keeps; hide Extended; hide Durable;
      ghost var start := fs;
      ghost var sound := Inv(fs) && (i > 0 ==> Durable(fs, Artifact(s, i - 1)));
      ExtendedNext(v, s, i);
      ExtendedTemps(v, s, i);
      RootDurable(fs);
      KeepsSelf(fs);
      var ok := true;
      if i == 3 {
        ok := EnsureDir(QueueDir);
        if !ok {
          return Interrupted;
        }
        if sound { KeepsDurable(start, fs, Artifact(s, i - 1)); }
      }
      ghost var ready := fs;
      ParentDirectory(fs, s, i);
      if existed {
        ok := FsyncDir(Artifact(s, i).parent);
        if ok && Inv(ready) { ExistingBecomesDurable(ready, s, i); }
        result := if ok then Published else Interrupted;
      } else {
        result := PublishFile(s, i, nonce);
      }
      KeepsTransitive(start, ready, fs);
    }

    // ----- entry points -----

    method Persist(s: Snapshot, nonce: nat) returns (result: Outcome)
      requires Inv(fs)
      modifies this
      ensures Inv(fs) && Keeps(old(fs), fs)
      ensures !result.Rejected?
      ensures old(fuel) < 0 ==> fuel < 0 && result.Published?
      ensures result.Published? ==> fs.vis == Completed(old(fs.vis), s)
      ensures result.Published? ==> forall i: nat :: i < Length(s) ==> Durable(fs, Artifact(s, i))
      ensures result.Published? ==> ChainComplete(fs, s)
    {
      hide ChainComplete;
      InvIsPublishable(fs, s);
      result := RunChain(s, nonce);
    }

    /** State-rooted recovery: the evaluation is read back from disk and must belong where it was found. */
    method Resume(evaluationId: string, digest: Snapshot, nonce: nat) returns (result: Outcome)
      requires Inv(fs)
      modifies this
      ensures Inv(fs) && Keeps(old(fs), fs)
      ensures digest.evaluationId == evaluationId ==> (result.Rejected? <==> old(Artifact(digest, 0) !in fs.vis))
      ensures digest.evaluationId != evaluationId ==> result.Rejected?
      ensures result.Rejected? ==> fs == old(fs)
      ensures old(RefusedResume(fs.vis, evaluationId, digest)).Some? ==>
                result == Rejected(old(RefusedResume(fs.vis, evaluationId, digest)).value)
      ensures old(RefusedResume(fs.vis, evaluationId, digest)).None? ==> !result.Rejected?
      ensures old(fuel) < 0 ==> fuel < 0 && !result.Interrupted?
      ensures result.Published? ==> fs.vis == Completed(old(fs.vis), digest)
      ensures result.Published? ==> forall i: nat :: i < Length(digest) ==> Durable(fs, Artifact(digest, i))
      ensures result.Published? ==> ChainComplete(fs, digest)
    {
      hide ChainComplete;
      var dir := Entry(Entry(EvaluationsDir, EvaluationName(evaluationId)), DigestName(digest));
      var root := Entry(dir, ArtifactName(0));
      if root !in fs.vis {
        if Entry(dir, ArtifactName(1)) in fs.vis || Entry(dir, ArtifactName(2)) in fs.vis {
          return Rejected("non_prefix");
        }
        return Rejected("missing_e");
      }
      if digest.evaluationId == evaluationId { DurablePrefix(fs, digest, 0); }
      if fs.vis[root] == Directory || !fs.vis[root].bytes.Canonical? {
        return Rejected("noncanonical_e");
      }
      var parsed := fs.vis[root].bytes.snapshot;
      if fs.vis[root].bytes.index != 0 || parsed.evaluationId != evaluationId {
        return Rejected("path_binding");
      }
      if parsed != digest {
        return Rejected("digest_mismatch");
      }
      InvIsPublishable(fs, parsed);
      result := RunChain(parsed, nonce);
    }
  }

  // ----- whole histories -----

  datatype Event =
    | PersistRun(s: Snapshot, nonce: nat, fuel: int)
    | ResumeRun(evaluationId: string, digest: Snapshot, nonce: nat, fuel: int)
    | Blackout(loss: Loss)

  /** An empty state directory satisfies the invariant. */
  lemma EmptyStateDir()
    ensures Inv(Fs(map[StateRoot := Directory], map[]))
  {
  }

  /** Any number of persist and resume runs, each cut anywhere, mixed with power losses: the invariant holds
      throughout, and what is durable at the start is never changed. */
  method Replay(disk: StateDisk, events: seq<Event>)
    requires Inv(disk.fs)
    modifies disk
    ensures Inv(disk.fs)
    ensures forall s, i: nat :: i < 4 && old(Durable(disk.fs, Artifact(s, i))) ==>
              Look(disk.fs, Artifact(s, i)) == Some(Content(s, i))
  {
    DurableArtifactsStay(disk.fs);
    for k := 0 to |events|
      invariant Inv(disk.fs)
      invariant forall s, i: nat :: i < 4 && old(Durable(disk.fs, Artifact(s, i))) ==> Durable(disk.fs, Artifact(s, i))
    {
      ghost var before := disk.fs;
      match events[k] {
        case PersistRun(s, nonce, fuel) =>
          disk.fuel := fuel;
          var _ := disk.Persist(s, nonce);
        case ResumeRun(id, digest, nonce, fuel) =>
          disk.fuel := fuel;
          var _ := disk.Resume(id, digest, nonce);
        case Blackout(loss) =>
          PowerLossKeepsInv(disk.fs, loss);
          disk.fs := PowerLoss(disk.fs, loss);
          forall s, i: nat | i < 4 && Durable(before, Artifact(s, i)) ensures Durable(disk.fs, Artifact(s, i)) {
            DurableSurvives(before, loss, Artifact(s, i));
          }
      }
    }
    DurableArtifactsStay(disk.fs);
  }

  /** After any such history one uninterrupted persist completes the chain; repeating it changes no byte. */
  method Converge(disk: StateDisk, events: seq<Event>, s: Snapshot, nonce: nat)
      returns (ghost complete: map<Path, Node>)
    requires Inv(disk.fs)
    modifies disk
    ensures Inv(disk.fs) && ChainComplete(disk.fs, s)
    ensures disk.fs.vis == complete
  {
    Replay(disk, events);
    disk.fuel := -1;
    ghost var start := disk.fs.vis;
    var first := disk.Persist(s, nonce);
    complete := disk.fs.vis;
    CompletedTwice(start, s);
    var again := disk.Resume(s.evaluationId, s, nonce);
    assert disk.fs.vis == complete;
    var second := disk.Persist(s, nonce);
  }

  /** From an empty state directory, whatever happened before, one uninterrupted persist completes the chain. */
  method CompleteFromEmpty(events: seq<Event>, s: Snapshot, nonce: nat) returns (disk: StateDisk)
    ensures fresh(disk) && Inv(disk.fs) && ChainComplete(disk.fs, s)
  {
    EmptyStateDir();
    disk := new StateDisk(Fs(map[StateRoot := Directory], map[]), 0);
    ghost var complete := Converge(disk, events, s, nonce);
  }
}
