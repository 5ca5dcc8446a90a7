/**
 The canonical bytes of a decision and the strict decoder.

 `hash` stands for the prefixed SHA-256 of a byte string; nothing but the form of its results is used.
 */
module DecisionCodec {
  import opened Wrappers
  import opened JsonText
  import opened JsonObject
  import RecordedAt

  /** The eight keys of a decision, less the constant schema version. */
  datatype Decision = Decision(item: Str, slot: int, action: Str, claim: Str, reason: Str, recordedAt: Str, digest: Str)

  const KEYS: seq<string> := ["action", "decision_digest", "decision_seq", "operator_claim", "reason", "recorded_at",
                              "review_queue_item_id", "schema_version"]

  const DIGEST_AT := 1

  function Values(d: Decision): (r: seq<Value>)
    ensures |r| == |KEYS|
  {
    [Text(d.action), Text(d.digest), Integer(d.slot), Text(d.claim), Text(d.reason), Text(d.recordedAt), Text(d.item),
        Integer(1)]
  }

  function Members(d: Decision): (r: seq<Member>)
    ensures |r| == |KEYS|
  {
    seq(|KEYS|, i requires 0 <= i < |KEYS| => Member(Codes(KEYS[i]), Values(d)[i]))
  }

  /** canonical_bytes of the decision. */
  function CanonicalBytes(d: Decision): string {
    PrintObject(Members(d))
  }

  /** The preimage of the digest: everything but the digest itself. */
  function DigestInput(d: Decision): string {
    PrintObject(Members(d)[..DIGEST_AT] + Members(d)[DIGEST_AT + 1..])
  }

  // ----- the schema -----

  predicate HexDigest(prefix: string, s: Str) {
    && |s| == |prefix| + 64 && s[..|prefix|] == Codes(prefix)
    && forall i :: |prefix| <= i < |s| ==> 0x30 <= s[i] <= 0x39 || 0x61 <= s[i] <= 0x66
  }

  predicate IsAction(s: Str) {
    s == Codes("accept") || s == Codes("reject") || s == Codes("defer") || s == Codes("revise")
  }

  /** validate_schema accepts. */
  predicate Schema(hash: string -> Str, d: Decision) {
    && HexDigest("rq_", d.item) && (d.slot == 1 || d.slot == 2) && IsAction(d.action)
    && d.claim != [] && d.reason != [] && RecordedAt.Accepted(d.recordedAt)
    && HexDigest("dcd_", d.digest) && d.digest == hash(DigestInput(d))
  }

  /** build_decision; nothing where the original raises. */
  function Build(hash: string -> Str, item: Str, slot: int, action: Str, claim: Str, reason: Str,
          recordedAt: Str): Option<Decision> {
    var bare := Decision(item, slot, action, claim, reason, recordedAt, []);
    var d := bare.(digest := hash(DigestInput(bare)));
    if Schema(hash, d) then Some(d) else None
  }

  // ----- the decoder -----

  function FindFrom(ms: seq<Member>, key: Str, k: nat): (r: Option<Value>)
    requires k <= |ms|
    ensures r.Some? ==> exists i :: k <= i < |ms| && ms[i] == Member(key, r.value)
    ensures r.None? ==> forall i :: k <= i < |ms| ==> ms[i].key != key
    decreases |ms| - k
  {
    if k == |ms| then None else if ms[k].key == key then Some(ms[k].value) else FindFrom(ms, key, k + 1)
  }

  predicate HasKeys(ms: seq<Member>) {
    && |ms| == |KEYS|
    && forall i :: 0 <= i < |KEYS| ==> FindFrom(ms, Codes(KEYS[i]), 0).Some?
  }

  /** The members in the order of the canonical form. */
  function SortedMembers(ms: seq<Member>): (r: seq<Member>)
    requires HasKeys(ms)
    ensures |r| == |KEYS|
  {
    seq(|KEYS|, i requires 0 <= i < |KEYS| => Member(Codes(KEYS[i]), FindFrom(ms, Codes(KEYS[i]), 0).value))
  }

  predicate Ascii(s: string) {
    forall i :: 0 <= i < |s| ==> s[i] < '\U{80}'
  }

  predicate WellTyped(ms: seq<Member>) {
    && |ms| == |KEYS|
    && ms[0].value.Text? && ms[1].value.Text? && ms[2].value.Integer? && ms[3].value.Text? && ms[4].value.Text?
    && ms[5].value.Text? && ms[6].value.Text? && ms[7].value == Integer(1)
  }

  function FromMembers(ms: seq<Member>): Decision
    requires WellTyped(ms)
  {
    Decision(ms[6].value.text, ms[2].value.n, ms[0].value.text, ms[3].value.text, ms[4].value.text, ms[5].value.text,
             ms[1].value.text)
  }

  /**
   decode_event; nothing where the original raises.  A byte above 127 is never canonical, so whether it is
   valid UTF-8 does not matter.
   */
  function Decode(hash: string -> Str, raw: string, item: Str, slot: int): Option<Decision> {
    if !Ascii(raw) then None
    else
      var parsed := ReadObject(raw);
      if parsed.None? || !HasKeys(parsed.value) then None
      else
        var ms := SortedMembers(parsed.value);
        if PrintObject(ms) != raw || !WellTyped(ms) then None
        else
          var d := FromMembers(ms);
          if !Schema(hash, d) || d.item != item || d.slot != slot then None else Some(d)
  }

  // ----- the keys -----

  lemma CodesIsWhole(s: string)
    requires Ascii(s)
    ensures Whole(Codes(s)) && Merge(Codes(s)) == Codes(s)
  {
    MergeIffWhole(Codes(s));
  }

  lemma AsciiIsWhole(s: Str)
    requires forall i :: 0 <= i < |s| ==> s[i] < 0x80
    ensures Merge(s) == s
  {
    MergeIffWhole(s);
  }

  lemma CodesApart(a: string, b: string)
    requires |a| != |b| || (a != "" && a[0] != b[0])
    ensures Codes(a) != Codes(b)
  {
    if |a| == |b| { assert Codes(a)[0] != Codes(b)[0]; }
  }

  lemma KeysApart(i: nat, j: nat)
    requires i < j < |KEYS|
    ensures Codes(KEYS[i]) != Codes(KEYS[j])
  {
    CodesApart(KEYS[i], KEYS[j]);
  }

  lemma KeysAscii(i: nat)
    requires i < |KEYS|
    ensures Merge(Codes(KEYS[i])) == Codes(KEYS[i])
  {
    CodesIsWhole(KEYS[i]);
  }

  // ----- the round trip -----

  /** What reading back does to a decision: the two free texts get their surrogate halves joined. */
  function JoinedDecision(d: Decision): Decision {
    d.(claim := Merge(d.claim), reason := Merge(d.reason))
  }

  lemma PlainFields(hash: string -> Str, d: Decision)
    requires Schema(hash, d)
    ensures Merge(d.item) == d.item && Merge(d.action) == d.action && Merge(d.recordedAt) == d.recordedAt
        && Merge(d.digest) == d.digest
  {
    hide Merge; hide IsAction; hide HexDigest;
    assert Ascii("rq_") && Ascii("dcd_");
    AsciiIsWhole(d.item) by { HexIsAscii("rq_", d.item); }
    AsciiIsWhole(d.digest) by { HexIsAscii("dcd_", d.digest); }
    AsciiIsWhole(d.action) by { ActionIsAscii(d.action); }
    AsciiIsWhole(d.recordedAt) by { StampIsAscii(d.recordedAt); }
  }

  lemma HexIsAscii(prefix: string, s: Str)
    requires HexDigest(prefix, s) && Ascii(prefix)
    ensures forall i :: 0 <= i < |s| ==> s[i] < 0x80
  {
    forall i | 0 <= i < |s| ensures s[i] < 0x80 {
      if i < |prefix| { assert s[i] == s[..|prefix|][i]; }
    }
  }

  lemma ActionIsAscii(s: Str)
    requires IsAction(s)
    ensures forall i :: 0 <= i < |s| ==> s[i] < 0x80
  {
    assert Ascii("accept") && Ascii("reject") && Ascii("defer") && Ascii("revise");
  }

  lemma StampIsAscii(v: Str)
    requires RecordedAt.Accepted(v)
    ensures forall i :: 0 <= i < |v| ==> v[i] < 0x80
  {
  }

  lemma MembersDistinct(d: Decision)
    ensures DistinctKeys(Members(d))
  {
    hide Codes; hide Values;
    var ms := Members(d);
    forall i, j | 0 <= i < j < |ms| ensures ms[i].key != ms[j].key { KeysApart(i, j); }
  }

  ghost predicate Plain(d: Decision) {
    Merge(d.item) == d.item && Merge(d.action) == d.action && Merge(d.recordedAt) == d.recordedAt
        && Merge(d.digest) == d.digest
  }

  lemma ValuesJoined(d: Decision, i: nat)
    requires Plain(d) && i < |KEYS|
    ensures Joined(Values(d)[i]) == Values(JoinedDecision(d))[i]
  {
    hide Merge;
    var vs := Values(d);
    assert vs[0] == Text(d.action) && vs[1] == Text(d.digest) && vs[3] == Text(d.claim) && vs[4] == Text(d.reason);
  }

  lemma MembersJoined(hash: string -> Str, d: Decision)
    requires Schema(hash, d)
    ensures JoinedMembers(Members(d)) == Members(JoinedDecision(d)) && DistinctKeys(Members(JoinedDecision(d)))
  {
    assert Plain(d) by { PlainFields(hash, d); }
    hide Schema; hide Merge; hide Codes; hide Values; hide JoinedDecision; hide DistinctKeys; hide Joined; hide Plain;
    MembersDistinct(JoinedDecision(d));
    forall i | 0 <= i < |KEYS| ensures JoinedMembers(Members(d))[i] == Members(JoinedDecision(d))[i] {
      KeysAscii(i);
      ValuesJoined(d, i);
      assert Members(d)[i] == Member(Codes(KEYS[i]), Values(d)[i]);
    }
  }

  lemma SortedIsSame(d: Decision)
    requires DistinctKeys(Members(d))
    ensures HasKeys(Members(d)) && SortedMembers(Members(d)) == Members(d)
  {
    hide Codes; hide Values;
    var ms := Members(d);
    forall i | 0 <= i < |KEYS| ensures FindFrom(ms, Codes(KEYS[i]), 0) == Some(ms[i].value) {
      assert ms[i].key == Codes(KEYS[i]);
      var found := FindFrom(ms, Codes(KEYS[i]), 0);
    }
  }

  lemma {:induction false} SamePrint(a: seq<Member>, b: seq<Member>)
    requires |a| == |b| > 0 && forall i :: 0 <= i < |a| ==> PrintMember(a[i]) == PrintMember(b[i])
    ensures PrintMembers(a) == PrintMembers(b)
    decreases |a|
  {
    hide PrintMember;
    if |a| > 1 { SamePrint(a[1..], b[1..]); }
  }

  /** Joining the halves does not change the printed form, so neither the bytes nor the digest change. */
  lemma JoinedPrintsAlike(d: Decision)
    ensures CanonicalBytes(JoinedDecision(d)) == CanonicalBytes(d) && DigestInput(JoinedDecision(d)) == DigestInput(d)
  {
    var ms, js := Members(d), Members(JoinedDecision(d));
    EscapeMerged(d.claim);
    EscapeMerged(d.reason);
    hide Codes; hide Merge; hide Escape;
    forall i | 0 <= i < |KEYS| ensures PrintMember(js[i]) == PrintMember(ms[i]) {}
    hide PrintMember; hide Members;
    SamePrint(js, ms);
    SamePrint(js[..DIGEST_AT] + js[DIGEST_AT + 1..], ms[..DIGEST_AT] + ms[DIGEST_AT + 1..]);
  }

  lemma JoinedSchema(hash: string -> Str, d: Decision)
    requires Schema(hash, d)
    ensures Schema(hash, JoinedDecision(d))
  {
    JoinedPrintsAlike(d);
    hide DigestInput; hide IsAction; hide HexDigest;
  }

  lemma MembersTyped(d: Decision)
    ensures WellTyped(Members(d)) && FromMembers(Members(d)) == d
  {
  }

  lemma {:induction false} PrintedIsAscii(s: Str)
    ensures Ascii(Escape(s))
    decreases |s|
  {
    if s != [] {
      PrintedIsAscii(s[1..]);
      CodePrintsAscii(s[0]);
    }
  }

  lemma CodePrintsAscii(c: Code)
    ensures Ascii(EscapeCode(c))
  {
  }

  lemma {:induction false} NatIsAscii(n: nat)
    ensures Ascii(PrintNat(n))
    decreases n
  {
    if n >= 10 { NatIsAscii(n / 10); }
  }

  lemma {:induction false} MembersAreAscii(ms: seq<Member>)
    requires ms != []
    ensures Ascii(PrintMembers(ms))
    decreases |ms|
  {
    var m := ms[0];
    PrintedIsAscii(m.key);
    if m.value.Text? {
      PrintedIsAscii(m.value.text);
    } else {
      NatIsAscii(if m.value.n < 0 then -m.value.n else m.value.n);
    }
    assert Ascii(PrintMember(m)) by { hide Escape; hide PrintNat; }
    hide PrintMember;
    if |ms| > 1 { MembersAreAscii(ms[1..]); }
  }

  /** Decoding the canonical bytes of a valid decision always succeeds; it gives back the joined decision. */
  lemma DecodeOfCanonical(hash: string -> Str, d: Decision)
    requires Schema(hash, d)
    ensures Decode(hash, CanonicalBytes(d), d.item, d.slot) == Some(JoinedDecision(d))
  {
    var ms := Members(d);
    hide Schema; hide ReadObject; hide Members; hide PrintMembers; hide WellTyped; hide FromMembers;
    hide HasKeys; hide SortedMembers;
    MembersAreAscii(ms);
    assert Ascii(CanonicalBytes(d));
    MembersJoined(hash, d);
    ObjectBack(ms);
    var j := JoinedDecision(d);
    SortedIsSame(j);
    JoinedPrintsAlike(d);
    MembersTyped(j);
    JoinedSchema(hash, d);
  }

  /** The same decision comes back exactly when no text holds the two halves of a pair next to each other. */
  lemma RoundTrip(hash: string -> Str, d: Decision)
    requires Schema(hash, d)
    ensures Decode(hash, CanonicalBytes(d), d.item, d.slot) == Some(d) <==> Whole(d.claim) && Whole(d.reason)
  {
    hide Schema; hide Decode; hide Whole; hide Merge;
    DecodeOfCanonical(hash, d);
    MergeIffWhole(d.claim);
    MergeIffWhole(d.reason);
  }

  /** In particular what build_decision makes of texts without surrogates. */
  lemma BuildRoundTrip(hash: string -> Str, item: Str, slot: int, action: Str, claim: Str, reason: Str, recordedAt: Str)
    requires Build(hash, item, slot, action, claim, reason, recordedAt).Some?
    requires forall i :: 0 <= i < |claim| ==> !High(claim[i])
    requires forall i :: 0 <= i < |reason| ==> !High(reason[i])
    ensures var d := Build(hash, item, slot, action, claim, reason, recordedAt).value;
            d.item == item && d.slot == slot && d.claim == claim
                && Decode(hash, CanonicalBytes(d), item, slot) == Some(d)
  {
    hide Schema; hide Decode;
    RoundTrip(hash, Build(hash, item, slot, action, claim, reason, recordedAt).value);
  }

  /** Every accepted byte string is the canonical form of its result, which is valid and survives the round trip. */
  lemma AcceptedIsCanonical(hash: string -> Str, raw: string, item: Str, slot: int)
    requires Decode(hash, raw, item, slot).Some?
    ensures var d := Decode(hash, raw, item, slot).value;
            && CanonicalBytes(d) == raw && Schema(hash, d) && d.item == item && d.slot == slot
            && Whole(d.claim) && Whole(d.reason)
  {
    hide Schema; hide ReadObject; hide PrintMembers; hide Whole; hide HasKeys; hide SortedMembers; hide Members;
    var parsed := ReadObject(raw).value;
    var ms := SortedMembers(parsed);
    var d := FromMembers(ms);
    SortedIsMembers(parsed);
    ReadObjectIsWhole(raw);
    SortedWhole(parsed, 3);
    SortedWhole(parsed, 4);
  }

  lemma SortedIsMembers(parsed: seq<Member>)
    requires HasKeys(parsed) && WellTyped(SortedMembers(parsed))
    ensures Members(FromMembers(SortedMembers(parsed))) == SortedMembers(parsed)
  {
    hide Codes; hide FindFrom; hide HasKeys;
    var ms := SortedMembers(parsed);
    var d := FromMembers(ms);
    forall i | 0 <= i < |KEYS| ensures Members(d)[i] == ms[i] {
      assert ms[i].key == Codes(KEYS[i]);
      assert ms[i].value == Values(d)[i];
    }
  }

  lemma SortedWhole(parsed: seq<Member>, i: nat)
    requires HasKeys(parsed) && i < |KEYS| && forall j :: 0 <= j < |parsed| ==> WholeValue(parsed[j].value)
    ensures WholeValue(SortedMembers(parsed)[i].value)
  {
    hide WholeValue;
  }

  /** No two decisions share their bytes, unless they only differ in how their surrogate halves are joined. */
  lemma CanonicalIsInjective(hash: string -> Str, d: Decision, e: Decision)
    requires Schema(hash, d) && Schema(hash, e) && d.item == e.item && d.slot == e.slot
    ensures CanonicalBytes(d) == CanonicalBytes(e) <==> JoinedDecision(d) == JoinedDecision(e)
  {
    hide Schema; hide Decode; hide CanonicalBytes; hide JoinedDecision;
    DecodeOfCanonical(hash, d);
    DecodeOfCanonical(hash, e);
    JoinedPrintsAlike(d);
    JoinedPrintsAlike(e);
  }
}
