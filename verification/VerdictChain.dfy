/** The later links of the learning chain: reflection, eligibility and queue request, each checking the one before. */
module VerdictChain {
  import opened Wrappers
  import opened Evidence

  /** An evaluation wrapped with its own identifier. */
  datatype Enriched = Enriched(sourceId: EvaluationId, snapshot: Snapshot)

  function Enrich(s: Snapshot): Enriched {
    Enriched(s.id, s)
  }

  // ----- reflection -----

  datatype Outcome = Outcome(experiment: Experiment, verdict: Verdict, delta: Num, composition: Composition,
                             status: Status, ratio: Num)

  /** `digest` is the snapshot itself, SHA-256 being injective; the fixed claims are left out. */
  datatype Reflection = Reflection(sourceId: EvaluationId, digest: Snapshot, outcome: Outcome,
                                   uncertainties: seq<string>, missing: seq<string>)

  const FORBIDDEN := ["trust", "ranking", "weight", "per_memory_utility", "recommendation", "remove", "delete"]

  /**
   str.casefold, as far as it brings forth ASCII characters; every other character folds to characters outside ASCII,
   which no forbidden term holds.
   */
  function FoldChar(c: char): string {
    match c
    case '\U{DF}' => "ss"
    case '\U{130}' => "i\U{307}"
    case '\U{149}' => "\U{2BC}n"
    case '\U{17F}' => "s"
    case '\U{1F0}' => "j\U{30C}"
    case '\U{1E96}' => "h\U{331}"
    case '\U{1E97}' => "t\U{308}"
    case '\U{1E98}' => "w\U{30A}"
    case '\U{1E99}' => "y\U{30A}"
    case '\U{1E9A}' => "a\U{2BE}"
    case '\U{1E9E}' => "ss"
    case '\U{212A}' => "k"
    case '\U{FB00}' => "ff"
    case '\U{FB01}' => "fi"
    case '\U{FB02}' => "fl"
    case '\U{FB03}' => "ffi"
    case '\U{FB04}' => "ffl"
    case '\U{FB05}' => "st"
    case '\U{FB06}' => "st"
    case _ => if 'A' <= c <= 'Z' then [c - 'A' + 'a'] else [c]
  }

  function Fold(s: string): string {
    if s == "" then "" else FoldChar(s[0]) + Fold(s[1..])
  }

  predicate Contains(s: string, term: string) {
    term <= s || (s != "" && Contains(s[1..], term))
  }

  predicate ForbiddenKey(key: string) {
    exists k :: 0 <= k < |FORBIDDEN| && Contains(Fold(key), FORBIDDEN[k])
  }

  /** _scan_keys: no forbidden key at any depth. */
  predicate KeysOk(node: Json) {
    match node
    case Array(items) => forall i :: 0 <= i < |items| ==> KeysOk(items[i])
    case Object(members) => forall i :: 0 <= i < |members| ==> !ForbiddenKey(members[i].key) && KeysOk(members[i].value)
    case _ => true
  }

  /** The canonical form exists: no number at any depth is infinite or NaN. */
  predicate Serializable(node: Json) {
    match node
    case Number(x) => Finite(x)
    case Array(items) => forall i :: 0 <= i < |items| ==> Serializable(items[i])
    case Object(members) => forall i :: 0 <= i < |members| ==> Serializable(members[i].value)
    case _ => true
  }

  predicate ExtrasOk(extras: seq<Member>) {
    KeysOk(Object(extras)) && Serializable(Object(extras))
  }

  /** _validate_type_closure accepts. */
  predicate TypesOk(s: Snapshot) {
    && s.id.Digest?
    && NonEmpty(s.experiment.task) && NonEmpty(s.experiment.without) && NonEmpty(s.experiment.with')
    && Finite(s.delta)
    && s.composition.verified >= 0 && s.composition.unknown >= 0 && s.composition.contradicted >= 0
    && Finite(s.thresholds.deltaMin) && Finite(s.thresholds.ratioMin) && 0.0 <= Value(s.thresholds.ratioMin) <= 1.0
    && ExtrasOk(s.thresholds.extras)
  }

  /** _validate_recompute accepts; written out as there, not through the evaluation's functions. */
  predicate RecomputeOk(s: Snapshot)
    requires TypesOk(s)
  {
    var c := s.composition;
    var total := c.verified + c.unknown + c.contradicted;
    var ratio := if total == 0 then 0.0 else Quotient(c.verified, total);
    var status := if total == 0 then Insufficient
                  else if ratio >= Value(s.thresholds.ratioMin) then Sufficient else Insufficient;
    var verdict := if !s.thresholds.frozen then C
                   else if status == Insufficient then C
                   else if Value(s.delta) > Value(s.thresholds.deltaMin) then A
                   else B;
    && s.status in {Sufficient, Insufficient} && s.verdict in {A, B, C}
    && s.ratio == Float(ratio) && s.status == status && s.verdict == verdict
  }

  predicate Admitted(e: Enriched) {
    TypesOk(e.snapshot) && RecomputeOk(e.snapshot) && e.sourceId == e.snapshot.id
  }

  function Project(s: Snapshot): Outcome {
    Outcome(s.experiment, s.verdict, s.delta, s.composition, s.status, s.ratio)
  }

  /** build_reflection; nothing where the original raises. */
  function BuildReflection(e: Enriched): Option<Reflection> {
    if !Admitted(e) then None
    else
      var s := e.snapshot;
      var uncertainties :=
        (if s.composition.unknown > 0 then ["U-1"] else [])
        + (if s.composition.contradicted > 0 then ["U-2"] else [])
        + (if s.stale then ["U-3"] else []);
      Some(Reflection(s.id, s, Project(s), uncertainties, if s.recordSource == "caller_provided" then ["M-1"] else []))
  }

  // ----- eligibility -----

  datatype Row = Row(caseId: string, verdict: Verdict, contradicted: bool, unknown: bool, eligible: bool)

  const MATRIX: seq<Row> := [
    Row("case_01", A, false, false, true), Row("case_02", A, false, true, true),
    Row("case_03", A, true, false, true), Row("case_04", A, true, true, true),
    Row("case_05", B, false, false, true), Row("case_06", B, false, true, true),
    Row("case_07", B, true, false, true), Row("case_08", B, true, true, true),
    Row("case_09", C, false, false, false), Row("case_10", C, false, true, false),
    Row("case_11", C, true, false, false), Row("case_12", C, true, true, false)
  ]

  predicate Matches(row: Row, o: Outcome) {
    row.verdict == o.verdict && row.contradicted == (o.composition.contradicted > 0)
        && row.unknown == (o.composition.unknown > 0)
  }

  function MatchesFrom(o: Outcome, k: nat): (r: seq<Row>)
    requires k <= |MATRIX|
    decreases |MATRIX| - k
  {
    if k == |MATRIX| then []
    else (if Matches(MATRIX[k], o) then [MATRIX[k]] else []) + MatchesFrom(o, k + 1)
  }

  datatype Eligibility = Eligibility(source: Reflection, caseId: string, eligible: bool, reasons: seq<string>)

  datatype Gate = Source | P1 | P2 | P3 | P4 | P5 | P6 | P7 | P8 | Upstream | NoRow

  datatype EligibilityResult = Built(value: Eligibility) | Refused(gate: Gate)

  /** _validate_preconditions: the first check that fails, if any. */
  function Preconditions(o: Outcome, s: Snapshot): Option<Gate>
    requires TypesOk(s)
  {
    var c := o.composition;
    var total := c.verified + c.unknown + c.contradicted;
    if o.verdict == NoVerdict || o.status == NoStatus then Some(P1)
    else if c.verified < 0 || c.unknown < 0 || c.contradicted < 0 then Some(P2)
    else
      var expected := if total == 0 then 0.0 else Quotient(c.verified, total);
      if o.ratio != Float(expected) then Some(P3)
      else
        var status := if total == 0 then Insufficient
                      else if o.ratio.r >= Value(s.thresholds.ratioMin) then Sufficient else Insufficient;
        if o.status != status then Some(P3)
        else if o.verdict in {A, B} && (o.status != Sufficient || !s.thresholds.frozen) then Some(P4)
        else if !Finite(o.delta) then Some(P5)
        else if o.verdict == A && !(Value(o.delta) > Value(s.thresholds.deltaMin)) then Some(P5)
        else if o.verdict == B && !(Value(o.delta) <= Value(s.thresholds.deltaMin)) then Some(P6)
        else if o.verdict == C && s.thresholds.frozen && o.status == Sufficient then Some(P7)
        else if o != Project(s) then Some(P8)
        else None
  }

  function Reasons(o: Outcome, s: Snapshot): seq<string> {
    (if o.verdict == A then ["verdict A"]
     else if o.verdict == B then ["verdict B"]
     else (if !s.thresholds.frozen then ["verdict C: not frozen"] else [])
          + (if o.status == Insufficient then ["verdict C: insufficient"] else []))
    + (if o.composition.unknown > 0 then ["unknown records present"] else [])
    + (if o.composition.contradicted > 0 then ["contradicted records present"] else [])
  }

  /** build_eligibility. */
  function BuildEligibility(r: Reflection, e: Enriched): EligibilityResult {
    var expected := BuildReflection(e);
    if expected.None? then Refused(Source)
    else
      var failed := Preconditions(r.outcome, e.snapshot);
      if failed.Some? then Refused(failed.value)
      else if r != expected.value then Refused(Upstream)
      else
        var rows := MatchesFrom(r.outcome, 0);
        if |rows| != 1 then Refused(NoRow)
        else Built(Eligibility(r, rows[0].caseId, rows[0].eligible, Reasons(r.outcome, e.snapshot)))
  }

  // ----- the queue request -----

  datatype Request = Request(item: Eligibility, sourceId: EvaluationId, digest: Snapshot, outcome: Outcome,
          missing: seq<string>)

  datatype RequestResult = Queued(value: Request) | UpstreamGate | IneligibleGate

  /** build_review_queue_request. */
  function BuildRequest(el: Eligibility, r: Reflection, e: Enriched): RequestResult {
    var expected := BuildEligibility(r, e);
    if expected.Refused? || expected.value != el then UpstreamGate
    else if !el.eligible then IneligibleGate
    else Queued(Request(el, r.sourceId, r.digest, r.outcome, r.missing))
  }

  // ----- the separate computations agree -----

  function RowIndex(o: Outcome): nat {
    (match o.verdict case A => 0 case B => 4 case _ => 8)
    + (if o.composition.contradicted > 0 then 2 else 0) + (if o.composition.unknown > 0 then 1 else 0)
  }

  /** The matrix has exactly one row for every combination, and it is eligible exactly for A and B. */
  lemma MatrixIsTotal(o: Outcome)
    requires o.verdict in {A, B, C}
    ensures MatchesFrom(o, 0) == [MATRIX[RowIndex(o)]] && Matches(MATRIX[RowIndex(o)], o)
    ensures MATRIX[RowIndex(o)].eligible <==> o.verdict in {A, B}
  {
    Block(o, 8, C);
    Block(o, 4, B);
    Block(o, 0, A);
    assert MatchesFrom(o, 12) == [];
    RowAt(o);
    hide MATRIX; hide MatchesFrom; hide Matches;
  }

  lemma RowAt(o: Outcome)
    requires o.verdict in {A, B, C}
    ensures Matches(MATRIX[RowIndex(o)], o) && (MATRIX[RowIndex(o)].eligible <==> o.verdict in {A, B})
  {
  }

  /** The four rows of one verdict. */
  lemma Block(o: Outcome, k: nat, v: Verdict)
    requires (k, v) in {(0, A), (4, B), (8, C)} && o.verdict in {A, B, C}
    ensures MatchesFrom(o, k) == (if o.verdict == v then [MATRIX[RowIndex(o)]] else []) + MatchesFrom(o, k + 4)
  {
    Four(o, k);
    RowVerdicts(k, v);
    var rest := MatchesFrom(o, k + 4);
    hide MATRIX; hide MatchesFrom;
    assert [] + rest == rest;
    var c, u := o.composition.contradicted > 0, o.composition.unknown > 0;
    assert If(MATRIX[k], o) == if o.verdict == v && !c && !u then [MATRIX[k]] else [];
    assert If(MATRIX[k + 1], o) == if o.verdict == v && !c && u then [MATRIX[k + 1]] else [];
    assert If(MATRIX[k + 2], o) == if o.verdict == v && c && !u then [MATRIX[k + 2]] else [];
    assert If(MATRIX[k + 3], o) == if o.verdict == v && c && u then [MATRIX[k + 3]] else [];
    hide If; hide Matches;
  }

  lemma RowVerdicts(k: nat, v: Verdict)
    requires (k, v) in {(0, A), (4, B), (8, C)}
    ensures MATRIX[k].verdict == v && !MATRIX[k].contradicted && !MATRIX[k].unknown
    ensures MATRIX[k + 1].verdict == v && !MATRIX[k + 1].contradicted && MATRIX[k + 1].unknown
    ensures MATRIX[k + 2].verdict == v && MATRIX[k + 2].contradicted && !MATRIX[k + 2].unknown
    ensures MATRIX[k + 3].verdict == v && MATRIX[k + 3].contradicted && MATRIX[k + 3].unknown
  {
  }

  function If(row: Row, o: Outcome): seq<Row> {
    if Matches(row, o) then [row] else []
  }

  lemma Four(o: Outcome, k: nat)
    requires k + 4 <= |MATRIX|
    ensures MatchesFrom(o, k) ==
      If(MATRIX[k], o) + (If(MATRIX[k + 1], o)
          + (If(MATRIX[k + 2], o) + (If(MATRIX[k + 3], o) + MatchesFrom(o, k + 4))))
  {
    hide Matches; hide MATRIX;
    assert MatchesFrom(o, k + 3) == If(MATRIX[k + 3], o) + MatchesFrom(o, k + 4);
    assert MatchesFrom(o, k + 2) == If(MATRIX[k + 2], o) + MatchesFrom(o, k + 3);
    assert MatchesFrom(o, k + 1) == If(MATRIX[k + 1], o) + MatchesFrom(o, k + 2);
  }

  ghost predicate Recomputed(s: Snapshot)
    requires TypesOk(s)
  {
    && s.ratio == Ratio(s.composition) && s.status == Sufficiency(s.composition, s.thresholds.ratioMin)
    && s.verdict == VerdictOf(s.delta, s.status == Sufficient, s.thresholds)
  }

  /** The reflection recomputes what the evaluation computed. */
  lemma RecomputeAgrees(s: Snapshot)
    requires TypesOk(s)
    ensures RecomputeOk(s) <==> Recomputed(s)
  {
    hide Quotient; hide ExtrasOk;
  }

  /** An admitted snapshot has its ratio, status and verdict determined by its counts, delta and thresholds. */
  lemma AdmittedIsDetermined(e: Enriched)
    requires Admitted(e)
    ensures var s := e.snapshot;
            && s.ratio == Ratio(s.composition) && s.status == Sufficiency(s.composition, s.thresholds.ratioMin)
            && s.verdict == VerdictOf(s.delta, s.status == Sufficient, s.thresholds)
  {
    hide RecomputeOk; hide TypesOk; hide Ratio; hide Sufficiency; hide VerdictOf;
    RecomputeAgrees(e.snapshot);
  }

  /** Every admitted snapshot passes P1 to P8. */
  lemma PreconditionsHold(s: Snapshot)
    requires TypesOk(s) && RecomputeOk(s)
    ensures Preconditions(Project(s), s) == None
    ensures s.verdict in {A, B, C} && (s.verdict in {A, B} <==> s.thresholds.frozen && s.status == Sufficient)
  {
    hide Quotient; hide ExtrasOk;
  }

  /** Whatever reflection admits passes every precondition and reaches exactly one row. */
  lemma AdmittedIsEligibleOrNot(e: Enriched)
    requires Admitted(e)
    ensures Preconditions(Project(e.snapshot), e.snapshot) == None
    ensures var result := BuildEligibility(BuildReflection(e).value, e);
            && result.Built?
            && (result.value.eligible <==> e.snapshot.verdict in {A, B})
            && (result.value.eligible <==> e.snapshot.thresholds.frozen && e.snapshot.status == Sufficient)
  {
    PreconditionsHold(e.snapshot);
    MatrixIsTotal(Project(e.snapshot));
    hide MATRIX; hide MatchesFrom; hide Preconditions; hide TypesOk; hide RecomputeOk; hide Reasons;
  }

  /** Eligibility is built from the one reflection of the enriched evaluation and from no other. */
  lemma OnlyTheReflection(r: Reflection, e: Enriched)
    ensures BuildEligibility(r, e).Built? <==> BuildReflection(e) == Some(r)
  {
    if BuildReflection(e) == Some(r) { AdmittedIsEligibleOrNot(e); }
    hide MatchesFrom; hide Admitted; hide Preconditions;
  }

  /**
   A queue request exists exactly for the one reflection and the one eligibility of an admitted evaluation whose
   thresholds were frozen and whose evidence suffices; then its ratio and verdict are what the evaluation computes from
   counts, delta and thresholds.
   */
  lemma RequestIffEligible(el: Eligibility, r: Reflection, e: Enriched)
    ensures BuildRequest(el, r, e).Queued? <==>
      && BuildReflection(e) == Some(r) && BuildEligibility(r, e) == Built(el)
      && e.snapshot.thresholds.frozen
      && Sufficiency(e.snapshot.composition, e.snapshot.thresholds.ratioMin) == Sufficient
    ensures BuildRequest(el, r, e).Queued? ==>
      var s := e.snapshot;
      && s.ratio == Ratio(s.composition)
      && s.verdict == (if Value(s.delta) > Value(s.thresholds.deltaMin) then A else B)
  {
    OnlyTheReflection(r, e);
    if BuildReflection(e) == Some(r) {
      AdmittedIsEligibleOrNot(e);
      AdmittedIsDetermined(e);
    }
    hide BuildReflection; hide BuildEligibility; hide Sufficiency; hide Ratio;
  }

  /** What of an evaluation reflection does not take on trust. */
  predicate RunsNamed(b: Bundle) {
    && NonEmpty(b.experiment.without) && NonEmpty(b.experiment.with')
    && ExtrasOk(b.thresholds.extras)
  }

  /**
   The whole chain over an evaluation: reflection admits it exactly when both runs are named and nothing beside the
   thresholds holds a forbidden key or a non-finite number, at any depth; then eligibility follows, and a request
   exactly for verdicts A and B.
   */
  lemma EvaluationGoesThrough(b: Bundle)
    requires Evaluate(b).Some?
    ensures var s := Evaluate(b).value; var e := Enrich(s);
      && (BuildReflection(e).Some? <==> RunsNamed(b))
      && (RunsNamed(b) ==>
           var r := BuildReflection(e).value;
           var result := BuildEligibility(r, e);
           && result.Built?
           && (result.value.eligible <==> s.verdict in {A, B})
           && (result.value.eligible <==>
              b.thresholds.frozen && Sufficiency(Counted(b.records), b.thresholds.ratioMin) == Sufficient)
           && (BuildRequest(result.value, r, e).Queued? <==> result.value.eligible))
  {
    var s := Evaluate(b).value;
    var e := Enrich(s);
    EvaluationIsAdmitted(b);
    hide Evaluate; hide Admitted; hide RunsNamed; hide BuildEligibility; hide BuildRequest;
    if RunsNamed(b) {
      AdmittedIsEligibleOrNot(e);
      var r := BuildReflection(e).value;
      RequestIffEligible(BuildEligibility(r, e).value, r, e);
    }
  }

  lemma EvaluationIsAdmitted(b: Bundle)
    requires Evaluate(b).Some?
    ensures Admitted(Enrich(Evaluate(b).value)) <==> RunsNamed(b)
    ensures var s := Evaluate(b).value;
      s.thresholds == b.thresholds && s.status == Sufficiency(Counted(b.records), b.thresholds.ratioMin)
  {
    var s := Evaluate(b).value;
    EvaluationIsTyped(b);
    if RunsNamed(b) { RecomputeAgrees(s); }
    hide TypesOk; hide RecomputeOk; hide RunsNamed; hide Sufficiency; hide Ratio; hide VerdictOf; hide BundleOk;
    hide Counted;
  }

  lemma EvaluationIsTyped(b: Bundle)
    requires Evaluate(b).Some?
    ensures TypesOk(Evaluate(b).value) <==> RunsNamed(b)
  {
    CountsAreNatural(b.records);
    BundleFacts(b);
    hide ExtrasOk; hide Counted; hide BundleOk; hide Evaluate; hide NonEmpty; hide Value;
  }

  lemma CountsAreNatural(records: seq<MemoryRecord>)
    ensures var c := Counted(records); c.verified >= 0 && c.unknown >= 0 && c.contradicted >= 0
  {
    CountedIs(records);
    hide Counted;
  }

  lemma BundleFacts(b: Bundle)
    requires Evaluate(b).Some?
    ensures var s := Evaluate(b).value;
      && s.id.Digest? && s.experiment == b.experiment && s.composition == Counted(b.records)
      && s.thresholds == b.thresholds
      && Finite(s.delta) && NonEmpty(b.experiment.task)
      && Finite(b.thresholds.deltaMin) && Finite(b.thresholds.ratioMin) && 0.0 <= Value(b.thresholds.ratioMin) <= 1.0
  {
    hide Counted; hide Sufficiency; hide Ratio; hide VerdictOf;
  }

  /** Two evaluations with the same identifier are the same in everything the identifier covers. */
  lemma SameIdSameVerdict(a: Bundle, b: Bundle)
    requires Evaluate(a).Some? && Evaluate(b).Some? && Evaluate(a).value.id == Evaluate(b).value.id
    ensures var s, t := Evaluate(a).value, Evaluate(b).value;
            s.verdict == t.verdict && s.status == t.status && s.ratio == t.ratio && s.composition == t.composition
                && s.delta == t.delta
  {
    hide Counted;
  }
}
