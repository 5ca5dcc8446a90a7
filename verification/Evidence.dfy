/**
 Evidence composition, sufficiency, verdict and the evaluation of an experiment bundle.

 Floats are exact reals; a number remembers whether it was an int or a float, because the canonical tokens of
 1 and 1.0 differ.  SHA-256 is the constructor of an identifier.
 */
module Evidence {
  import opened Wrappers
  import opened FrontMatter

  datatype Num = Whole(n: int) | Float(r: real) | NotFinite

  function Value(x: Num): real
    requires x.Whole? || x.Float?
  {
    if x.Whole? then x.n as real else x.r
  }

  predicate Finite(x: Num) {
    x.Whole? || x.Float?
  }

  datatype Name = Name(text: string) | NotAString

  predicate NonEmpty(x: Name) {
    x.Name? && x.text != ""
  }

  // ----- memory records -----

  datatype Links = NoLinks | Many(ids: seq<string>) | One(id: string)

  datatype MemoryRecord = MemoryRecord(id: string, status: string, confidence: string, supersededBy: Links)

  datatype Stratum = Verified | Unknown | Contradicted

  /** classify_memory_record: contradicted before verified before unknown. */
  function Classify(m: MemoryRecord): Stratum {
    if m.status == "conflicted" || m.status == "conflict" then Contradicted
    else if m.supersededBy.Many? && m.supersededBy.ids != [] then Contradicted
    else if m.supersededBy.One? && Strip(m.supersededBy.id) != "" then Contradicted
    else if m.confidence == "confirmed" && m.status == "active" then Verified
    else Unknown
  }

  ghost predicate Superseded(m: MemoryRecord) {
    match m.supersededBy
    case NoLinks => false
    case Many(ids) => |ids| >= 1
    case One(id) => exists i :: 0 <= i < |id| && !IsBlank(id[i])
  }

  ghost predicate Disputed(m: MemoryRecord) {
    m.status in {"conflicted", "conflict"} || Superseded(m)
  }

  ghost predicate Trusted(m: MemoryRecord) {
    m.confidence == "confirmed" && m.status == "active" && !Superseded(m)
  }

  /** A record is verified only if it is confirmed, active and not superseded; what disputes it goes before that. */
  lemma StrataAre(m: MemoryRecord)
    ensures Classify(m) == Contradicted <==> Disputed(m)
    ensures Classify(m) == Verified <==> Trusted(m)
    ensures Classify(m) == Unknown <==> !Disputed(m) && !Trusted(m)
  {
    if m.supersededBy.One? { StripIsEmpty(m.supersededBy.id); }
  }

  lemma {:induction false} StripIsEmpty(s: string)
    ensures Strip(s) == "" <==> forall i :: 0 <= i < |s| ==> IsBlank(s[i])
    decreases |s|
  {
    if s != "" && IsBlank(s[0]) {
      StripIsEmpty(s[1..]);
      assert forall i :: 1 <= i < |s| ==> s[i] == s[1..][i - 1];
      assert (forall i :: 0 <= i < |s[1..]| ==> IsBlank(s[1..][i])) ==> forall i :: 1 <= i < |s| ==> IsBlank(s[i]);
    } else if s != "" {
      KeepsFirst(s);
    }
  }

  lemma {:induction false} KeepsFirst(s: string)
    requires s != "" && !IsBlank(s[0])
    ensures StripRight(s) != ""
    decreases |s|
  {
    if IsBlank(s[|s| - 1]) { KeepsFirst(s[..|s| - 1]); }
  }

  datatype Composition = Composition(verified: int, unknown: int, contradicted: int)

  function Total(c: Composition): int {
    c.verified + c.unknown + c.contradicted
  }

  ghost function Members(records: seq<MemoryRecord>, s: Stratum): set<int> {
    set k | 0 <= k < |records| && Classify(records[k]) == s
  }

  function Counted(records: seq<MemoryRecord>): Composition {
    if records == [] then Composition(0, 0, 0)
    else
      var c := Counted(records[..|records| - 1]);
      match Classify(records[|records| - 1])
      case Verified => c.(verified := c.verified + 1)
      case Unknown => c.(unknown := c.unknown + 1)
      case Contradicted => c.(contradicted := c.contradicted + 1)
  }

  lemma MembersMore(records: seq<MemoryRecord>, s: Stratum)
    requires records != []
    ensures var n := |records| - 1;
            |Members(records, s)| == |Members(records[..n], s)| + if Classify(records[n]) == s then 1 else 0
  {
    hide Classify;
    var n := |records| - 1;
    assert n !in Members(records[..n], s);
    assert Members(records, s) == Members(records[..n], s) + if Classify(records[n]) == s then {n} else {};
  }

  /** Every record is counted once, in its stratum. */
  lemma CountedIs(records: seq<MemoryRecord>)
    ensures var c := Counted(records);
            && c.verified == |set k | 0 <= k < |records| && Trusted(records[k])|
            && c.contradicted == |set k | 0 <= k < |records| && Disputed(records[k])|
            && c.unknown == |set k | 0 <= k < |records| && !Disputed(records[k]) && !Trusted(records[k])|
            && c.verified + c.unknown + c.contradicted == |records|
  {
    CountedIsMembers(records);
    hide Members; hide Counted;
    MembersAre(records);
  }

  lemma MembersAre(records: seq<MemoryRecord>)
    ensures Members(records, Verified) == set k | 0 <= k < |records| && Trusted(records[k])
    ensures Members(records, Contradicted) == set k | 0 <= k < |records| && Disputed(records[k])
    ensures Members(records, Unknown) == set k | 0 <= k < |records| && !Disputed(records[k]) && !Trusted(records[k])
  {
    hide Disputed; hide Trusted; hide Classify;
    forall k | 0 <= k < |records|
      ensures k in Members(records, Verified) <==> Trusted(records[k])
      ensures k in Members(records, Contradicted) <==> Disputed(records[k])
      ensures k in Members(records, Unknown) <==> !Disputed(records[k]) && !Trusted(records[k])
    {
      StrataAre(records[k]);
    }
  }

  lemma {:induction false} CountedIsMembers(records: seq<MemoryRecord>)
    ensures var c := Counted(records);
            && c.verified == |Members(records, Verified)| && c.unknown == |Members(records, Unknown)|
            && c.contradicted == |Members(records, Contradicted)| && Total(c) == |records|
    decreases |records|
  {
    if records != [] {
      var n := |records| - 1;
      CountedIsMembers(records[..n]);
      MembersMore(records, Verified);
      MembersMore(records, Unknown);
      MembersMore(records, Contradicted);
      hide Members; hide Classify;
    }
  }

  /** build_memory_evidence_composition. */
  method BuildComposition(records: seq<MemoryRecord>) returns (entries: seq<(string, Stratum)>, c: Composition)
    ensures c == Counted(records) && |entries| == Total(c)
    ensures forall k :: 0 <= k < |entries| ==> k < |records| && entries[k] == (records[k].id, Classify(records[k]))
    ensures forall k :: 0 <= k < |entries| ==>
              entries[k].1 == if Disputed(records[k]) then Contradicted else if Trusted(records[k])
                  then Verified else Unknown
    ensures |entries| == |records| == c.verified + c.unknown + c.contradicted
    ensures c.verified == |set k | 0 <= k < |records| && Trusted(records[k])|
    ensures c.contradicted == |set k | 0 <= k < |records| && Disputed(records[k])|
  {
    entries, c := [], Composition(0, 0, 0);
    for k := 0 to |records|
      invariant c == Counted(records[..k]) && |entries| == k
      invariant forall j :: 0 <= j < k ==> entries[j] == (records[j].id, Classify(records[j]))
      invariant forall j :: 0 <= j < k ==>
        entries[j].1 == if Disputed(records[j]) then Contradicted else if Trusted(records[j]) then Verified else Unknown
    {
      StrataAre(records[k]);
      var stratum := Classify(records[k]);
      assert records[..k + 1][..k] == records[..k];
      entries := entries + [(records[k].id, stratum)];
      match stratum {
        case Verified => c := c.(verified := c.verified + 1);
        case Unknown => c := c.(unknown := c.unknown + 1);
        case Contradicted => c := c.(contradicted := c.contradicted + 1);
      }
    }
    assert records[..|records|] == records;
    CountedIs(records);
  }

  // ----- sufficiency and verdict -----

  datatype Status = Sufficient | Insufficient | NoStatus
  datatype Verdict = A | B | C | NoVerdict

  /** What a caller may put beside the three thresholds. */
  datatype Json =
    | Null | Bool(flag: bool) | Number(number: Num) | Text(text: string)
    | Array(items: seq<Json>) | Object(members: seq<Member>)

  datatype Member = Member(key: string, value: Json)

  datatype Thresholds = Thresholds(deltaMin: Num, ratioMin: Num, frozen: bool, extras: seq<Member>)

  function Quotient(part: int, whole: int): real
    requires whole != 0
  {
    part as real / whole as real
  }

  function Ratio(c: Composition): Num {
    if Total(c) <= 0 then Float(0.0) else Float(Quotient(c.verified, Total(c)))
  }

  /** check_evidence_sufficiency. */
  function Sufficiency(c: Composition, ratioMin: Num): Status
    requires Finite(ratioMin)
  {
    if Total(c) <= 0 then Insufficient else if Ratio(c).r >= Value(ratioMin) then Sufficient else Insufficient
  }

  /** generate_validation_verdict. */
  function VerdictOf(delta: Num, sufficient: bool, t: Thresholds): Verdict
    requires Finite(delta) && Finite(t.deltaMin)
  {
    if !t.frozen then C else if !sufficient then C else if Value(delta) > Value(t.deltaMin) then A else B
  }

  // ----- the evaluation -----

  datatype Experiment = Experiment(task: Name, without: Name, with': Name)

  datatype Identity = Identity(experiment: Experiment, first: Num, second: Num, delta: Num, composition: Composition,
                               deltaMin: Num, ratioMin: Num, frozen: bool)

  datatype EvaluationId = Digest(of: Identity) | Malformed(text: string)

  datatype Snapshot = Snapshot(id: EvaluationId, experiment: Experiment, delta: Num, composition: Composition,
                               thresholds: Thresholds, status: Status, ratio: Num, verdict: Verdict,
                               recordSource: string, stale: bool)

  datatype Comparison = Comparison(task: Name, firstRun: Name, secondRun: Name, first: Num, second: Num, delta: Num)

  datatype RunOutcome = RunOutcome(run: Name, score: Num, usedIds: seq<string>)

  datatype Bundle = Bundle(experiment: Experiment, without: RunOutcome, with': RunOutcome, comparison: Comparison,
                           records: seq<MemoryRecord>, thresholds: Thresholds)

  function Distance(a: Num, b: real): real
    requires Finite(a)
  {
    if Value(a) >= b then Value(a) - b else b - Value(a)
  }

  const TOLERANCE := 0.000000001

  predicate IdentitiesMatch(b: Bundle) {
    && NonEmpty(b.experiment.task) && b.comparison.task == b.experiment.task
    && b.comparison.firstRun == b.experiment.without && b.comparison.secondRun == b.experiment.with'
    && b.without.run == b.comparison.firstRun && b.with'.run == b.comparison.secondRun
  }

  predicate ScoresMatch(b: Bundle) {
    var c := b.comparison;
    && Finite(b.without.score) && Finite(b.with'.score) && Finite(c.first) && Finite(c.second) && Finite(c.delta)
    && Distance(c.first, Value(b.without.score)) <= TOLERANCE
    && Distance(c.second, Value(b.with'.score)) <= TOLERANCE
    && Distance(c.delta, Value(c.second) - Value(c.first)) <= TOLERANCE
  }

  /** The checks of evaluate_experiment_bundle; no identity can be formed from a non-finite threshold. */
  predicate BundleOk(b: Bundle) {
    && IdentitiesMatch(b)
    && b.without.usedIds == [] && b.with'.usedIds != []
    && ScoresMatch(b)
    && Finite(b.thresholds.ratioMin) && 0.0 <= Value(b.thresholds.ratioMin) <= 1.0
    && Finite(b.thresholds.deltaMin)
  }

  function ToFloat(x: Num): Num
    requires Finite(x)
  {
    Float(Value(x))
  }

  /** evaluate_experiment_bundle; nothing where the original raises. */
  function Evaluate(b: Bundle): Option<Snapshot> {
    if !BundleOk(b) then None
    else
      var c := Counted(b.records);
      var t := b.thresholds;
      var delta := ToFloat(b.comparison.delta);
      var status := Sufficiency(c, t.ratioMin);
      var id := Digest(Identity(b.experiment, ToFloat(b.comparison.first), ToFloat(b.comparison.second), delta, c,
                                t.deltaMin, t.ratioMin, t.frozen));
      Some(Snapshot(id, b.experiment, delta, c, t, status, Ratio(c), VerdictOf(delta, status == Sufficient, t),
                    "caller_provided", true))
  }
}
