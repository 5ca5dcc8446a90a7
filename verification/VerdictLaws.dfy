/** What each link of the chain says, in its own words: conditions, figures, case and reasons. */
module VerdictLaws {
  import opened Wrappers
  import opened Evidence
  import opened VerdictChain

  // ----- the evaluation -----

  /** At most 0.000000001 apart. */
  ghost predicate Near(a: real, b: real) {
    -1.0 <= (a - b) * 1000000000.0 <= 1.0
  }

  ghost predicate Named(x: Name) {
    x.Name? && |x.text| > 0
  }

  ghost predicate IsNumber(x: Num) {
    !x.NotFinite?
  }

  /** The bundle speaks of one task and two runs, with a bare first and an aided second one. */
  ghost predicate OneExperiment(b: Bundle) {
    && Named(b.experiment.task) && b.comparison.task == b.experiment.task
    && b.without.run == b.comparison.firstRun == b.experiment.without
    && b.with'.run == b.comparison.secondRun == b.experiment.with'
    && |b.without.usedIds| == 0 && |b.with'.usedIds| > 0
  }

  /** The scores of the runs, those of the comparison and their difference are the same figures. */
  ghost predicate SameFigures(b: Bundle) {
    var c := b.comparison;
    && IsNumber(b.without.score) && IsNumber(b.with'.score) && IsNumber(c.first) && IsNumber(c.second)
    && IsNumber(c.delta)
    && Near(Value(c.first), Value(b.without.score)) && Near(Value(c.second), Value(b.with'.score))
    && Near(Value(c.delta), Value(c.second) - Value(c.first))
  }

  ghost predicate Bounds(t: Thresholds) {
    IsNumber(t.deltaMin) && IsNumber(t.ratioMin) && 0.0 <= Value(t.ratioMin) <= 1.0
  }

  /** An evaluation is made exactly of a consistent bundle. */
  lemma EvaluateIff(b: Bundle)
    ensures Evaluate(b).Some? <==> OneExperiment(b) && SameFigures(b) && Bounds(b.thresholds)
  {
    hide Evaluate;
    EvaluateIsOk(b);
  }

  lemma EvaluateIsOk(b: Bundle)
    ensures Evaluate(b).Some? <==> BundleOk(b)
  {
    hide BundleOk;
  }

  /** The share of verified records reaches the threshold; without records it does not. */
  ghost predicate Enough(c: Composition, t: Thresholds)
    requires IsNumber(t.ratioMin)
  {
    var total := c.verified + c.unknown + c.contradicted;
    total > 0 && c.verified as real >= Value(t.ratioMin) * total as real
  }

  lemma Share(part: int, whole: int, least: real)
    requires whole > 0
    ensures Quotient(part, whole) >= least <==> part as real >= least * whole as real
  {
    var q := Quotient(part, whole);
    assert q * whole as real == part as real;
    if q >= least { assert (q - least) * whole as real >= 0.0; }
    if q < least { assert (least - q) * whole as real > 0.0; }
  }

  lemma SufficiencyIs(c: Composition, t: Thresholds)
    requires IsNumber(t.ratioMin)
    ensures Sufficiency(c, t.ratioMin) == if Enough(c, t) then Sufficient else Insufficient
  {
    hide Quotient;
    if Total(c) > 0 { Share(c.verified, Total(c), Value(t.ratioMin)); }
  }

  /**
   The verdict is C unless the thresholds were frozen and the evidence is enough; then it is A exactly if the gain is
   above its threshold.
   */
  lemma EvaluationIs(b: Bundle)
    requires Evaluate(b).Some?
    ensures var s, t := Evaluate(b).value, b.thresholds;
            && IsNumber(t.ratioMin) && IsNumber(t.deltaMin) && IsNumber(b.comparison.delta)
            && s.composition.verified == |set k | 0 <= k < |b.records| && Trusted(b.records[k])|
            && s.composition.contradicted == |set k | 0 <= k < |b.records| && Disputed(b.records[k])|
            && s.composition.verified + s.composition.unknown + s.composition.contradicted == |b.records|
            && (s.status == Sufficient <==> Enough(s.composition, t)) && s.status != NoStatus
            && (s.verdict == C <==> !t.frozen || !Enough(s.composition, t))
            && (s.verdict == A <==>
                  t.frozen && Enough(s.composition, t) && Value(b.comparison.delta) > Value(t.deltaMin))
            && s.verdict != NoVerdict
            && s.thresholds == t && s.experiment == b.experiment && Value(s.delta) == Value(b.comparison.delta)
            && s.recordSource == "caller_provided" && s.stale
  {
    CountedIs(b.records);
    hide Counted; hide Ratio; hide Enough; hide Sufficiency; hide Trusted; hide Disputed; hide IdentitiesMatch;
    SufficiencyIs(Evaluate(b).value.composition, b.thresholds);
  }

  // ----- reflection -----

  lemma ReflectionIs(r: Reflection, e: Enriched)
    requires BuildReflection(e) == Some(r)
    ensures var s := e.snapshot;
            && r.sourceId == e.sourceId == s.id && r.digest == s
            && r.outcome.experiment == s.experiment && r.outcome.verdict == s.verdict && r.outcome.delta == s.delta
            && r.outcome.composition == s.composition && r.outcome.status == s.status && r.outcome.ratio == s.ratio
            && (forall u :: u in r.uncertainties <==>
                  || (u == "U-1" && s.composition.unknown > 0)
                  || (u == "U-2" && s.composition.contradicted > 0)
                  || (u == "U-3" && s.stale))
            && |r.uncertainties| <= 3
            && r.missing == if s.recordSource == "caller_provided" then ["M-1"] else []
  {
    hide TypesOk; hide RecomputeOk;
  }

  // ----- eligibility -----

  /** Four cases for each verdict: contradicted records count two, unknown ones count one. */
  ghost function Case(o: Outcome): int {
    1 + (if o.verdict == A then 0 else if o.verdict == B then 4 else 8)
    + (if o.composition.contradicted > 0 then 2 else 0) + (if o.composition.unknown > 0 then 1 else 0)
  }

  const DIGITS := "0123456789"

  lemma CaseIds(k: nat)
    requires k < 12
    ensures MATRIX[k].caseId == "case_" + [DIGITS[(k + 1) / 10], DIGITS[(k + 1) % 10]]
  {
  }

  lemma EligibilityIs(el: Eligibility, r: Reflection, e: Enriched)
    requires BuildEligibility(r, e) == Built(el)
    ensures BuildReflection(e) == Some(r) && el.source == r && r.outcome.verdict in {A, B, C}
    ensures var o, frozen := r.outcome, e.snapshot.thresholds.frozen;
            && (el.eligible <==> o.verdict == A || o.verdict == B)
            && el.caseId == "case_" + [DIGITS[Case(o) / 10], DIGITS[Case(o) % 10]]
            && (forall x :: x in el.reasons <==>
                  || (x == "verdict A" && o.verdict == A)
                  || (x == "verdict B" && o.verdict == B)
                  || (x == "verdict C: not frozen" && o.verdict == C && !frozen)
                  || (x == "verdict C: insufficient" && o.verdict == C && o.status == Insufficient)
                  || (x == "unknown records present" && o.composition.unknown > 0)
                  || (x == "contradicted records present" && o.composition.contradicted > 0))
  {
    OnlyTheReflection(r, e);
    AdmittedVerdict(e);
    var o := r.outcome;
    MatrixIsTotal(o);
    CaseIds(RowIndex(o));
    hide MATRIX; hide MatchesFrom; hide Preconditions; hide TypesOk; hide RecomputeOk; hide DIGITS;
  }

  lemma AdmittedVerdict(e: Enriched)
    requires Admitted(e)
    ensures e.snapshot.verdict in {A, B, C}
  {
  }

  /** A request carries the eligible case, and what the reflection says of its evaluation. */
  lemma RequestIs(q: Request, el: Eligibility, r: Reflection, e: Enriched)
    requires BuildRequest(el, r, e) == Queued(q)
    ensures BuildEligibility(r, e) == Built(el) && el.eligible
    ensures q.item == el && q.sourceId == r.sourceId && q.digest == r.digest && q.outcome == r.outcome
         && q.missing == r.missing
  {
    hide BuildEligibility;
  }

  // ----- what may stand beside the thresholds -----

  ghost predicate At(s: string, i: nat, term: string) {
    i + |term| <= |s| && s[i..i + |term|] == term
  }

  lemma {:induction false} ContainsIs(s: string, term: string)
    ensures Contains(s, term) <==> exists i: nat :: At(s, i, term)
    decreases |s|
  {
    if term <= s { assert At(s, 0, term); }
    if s != "" {
      ContainsIs(s[1..], term);
      if i: nat :| At(s[1..], i, term) {
        assert s[1..][i..i + |term|] == s[i + 1..i + 1 + |term|]; assert At(s, i + 1, term);
      }
      if i: nat :| At(s, i, term) {
        if i > 0 { assert s[1..][i - 1..i - 1 + |term|] == s[i..i + |term|]; assert At(s[1..], i - 1, term); }
      }
    }
  }

  const TERMS := {"trust", "ranking", "weight", "per_memory_utility", "recommendation", "remove", "delete"}

  ghost predicate Occurs(term: string, s: string) {
    exists i: nat :: At(s, i, term)
  }

  /** A key is refused exactly if one of the seven terms stands in its folded form. */
  lemma ForbiddenIs(key: string)
    ensures ForbiddenKey(key) <==> exists term :: term in TERMS && Occurs(term, Fold(key))
  {
    hide At; hide Contains; hide Fold;
    var f := Fold(key);
    forall term ensures Contains(f, term) <==> Occurs(term, f) { ContainsIs(f, term); }
    hide Occurs;
    TermsAre();
    hide FORBIDDEN; hide TERMS;
    if ForbiddenKey(key) {
      var k :| 0 <= k < |FORBIDDEN| && Contains(f, FORBIDDEN[k]);
      assert FORBIDDEN[k] in FORBIDDEN && FORBIDDEN[k] in TERMS;
    }
    if term :| term in TERMS && Occurs(term, f) {
      assert term in FORBIDDEN;
      var k :| 0 <= k < |FORBIDDEN| && FORBIDDEN[k] == term;
      assert Contains(f, FORBIDDEN[k]);
    }
  }

  lemma TermsAre()
    ensures forall term :: term in FORBIDDEN <==> term in TERMS
  {
  }

  /** Of ASCII text only the capitals are folded. */
  lemma {:induction false} FoldOfAscii(s: string)
    requires forall i :: 0 <= i < |s| ==> s[i] < '\U{80}'
    ensures |Fold(s)| == |s|
    ensures forall i :: 0 <= i < |s| ==> Fold(s)[i] == if 'A' <= s[i] <= 'Z' then s[i] - 'A' + 'a' else s[i]
    decreases |s|
  {
    if s != "" {
      FoldOfAscii(s[1..]);
      assert FoldChar(s[0]) == [if 'A' <= s[0] <= 'Z' then s[0] - 'A' + 'a' else s[0]];
    }
  }

  /** The value at a place: at each level, the position among the items or the members. */
  ghost function Within(node: Json, path: seq<nat>): Option<Json>
    decreases |path|
  {
    if path == [] then Some(node)
    else
      match node
      case Array(items) => if path[0] < |items| then Within(items[path[0]], path[1..]) else None
      case Object(members) => if path[0] < |members| then Within(members[path[0]].value, path[1..]) else None
      case _ => None
  }

  /** At no place a key with one of the terms, or a number that is infinite or not a number. */
  ghost predicate GoodAt(node: Json, path: seq<nat>) {
    match Within(node, path)
    case Some(Object(members)) => forall k :: 0 <= k < |members| ==> !ForbiddenKey(members[k].key)
    case Some(Number(x)) => !x.NotFinite?
    case _ => true
  }

  lemma {:induction false} GoodEverywhere(node: Json, path: seq<nat>)
    requires KeysOk(node) && Serializable(node)
    ensures GoodAt(node, path)
    decreases |path|
  {
    hide ForbiddenKey;
    if path != [] {
      var k, rest := path[0], path[1..];
      match node
      case Array(items) => if k < |items| { GoodEverywhere(items[k], rest); }
      case Object(members) => if k < |members| { GoodEverywhere(members[k].value, rest); }
      case _ =>
    }
  }

  lemma {:induction false} OkIfGood(node: Json)
    requires forall path :: GoodAt(node, path)
    ensures KeysOk(node) && Serializable(node)
    decreases node
  {
    hide ForbiddenKey;
    assert GoodAt(node, []);
    match node
    case Array(items) =>
      forall k | 0 <= k < |items| ensures KeysOk(items[k]) && Serializable(items[k]) {
        forall path ensures GoodAt(items[k], path) {
          assert ([k] + path)[1..] == path;
          assert GoodAt(node, [k] + path);
        }
        OkIfGood(items[k]);
      }
    case Object(members) =>
      forall k | 0 <= k < |members| ensures KeysOk(members[k].value) && Serializable(members[k].value) {
        forall path ensures GoodAt(members[k].value, path) {
          assert ([k] + path)[1..] == path;
          assert GoodAt(node, [k] + path);
        }
        OkIfGood(members[k].value);
      }
    case _ =>
  }

  /** The extras are accepted exactly if all is well at every place, at any depth. */
  lemma ExtrasOkIff(extras: seq<Member>)
    ensures ExtrasOk(extras) <==> forall path :: GoodAt(Object(extras), path)
  {
    hide KeysOk; hide Serializable; hide GoodAt;
    if ExtrasOk(extras) {
      forall path ensures GoodAt(Object(extras), path) { GoodEverywhere(Object(extras), path); }
    }
    if forall path :: GoodAt(Object(extras), path) { OkIfGood(Object(extras)); }
  }
}
