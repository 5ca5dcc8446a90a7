/** The text of a decision: what stands under which name, in which order, and how each character is written. */
module DecisionText {
  import opened Wrappers
  import opened JsonText
  import opened JsonObject
  import opened DecisionCodec
  import RecordedAt

  // ----- characters -----

  const HEX := "0123456789abcdef"

  function Unicode4(u: int): string
    requires 0 <= u < 0x10000
  {
    ['\\', 'u', HEX[u / 0x1000], HEX[u / 0x100 % 0x10], HEX[u / 0x10 % 0x10], HEX[u % 0x10]]
  }

  /** How a character is written (RFC 8259 section 7): itself, a short escape, or lower-case UTF-16 units. */
  lemma EscapeLaw(c: Code)
    ensures c == 0x22 ==> EscapeCode(c) == "\\\""
    ensures c == 0x5C ==> EscapeCode(c) == "\\\\"
    ensures c == 0x08 ==> EscapeCode(c) == "\\b"
    ensures c == 0x09 ==> EscapeCode(c) == "\\t"
    ensures c == 0x0A ==> EscapeCode(c) == "\\n"
    ensures c == 0x0C ==> EscapeCode(c) == "\\f"
    ensures c == 0x0D ==> EscapeCode(c) == "\\r"
    ensures 0x20 <= c <= 0x7E && c != 0x22 && c != 0x5C ==> EscapeCode(c) == [c as char]
    ensures (c < 0x20 && c !in {0x08, 0x09, 0x0A, 0x0C, 0x0D}) || 0x7F <= c <= 0xFFFF ==> EscapeCode(c) == Unicode4(c)
    ensures 0x10000 <= c ==>
              EscapeCode(c) == Unicode4(0xD800 + (c - 0x10000) / 0x400) + Unicode4(0xDC00 + (c - 0x10000) % 0x400)
  {
    if c < 0x10000 {
      UnitLaw(c);
    } else {
      UnitLaw(0xD800 + (c - 0x10000) / 0x400);
      UnitLaw(0xDC00 + (c - 0x10000) % 0x400);
    }
  }

  lemma UnitLaw(u: int)
    requires 0 <= u < 0x10000
    ensures UnitEscape(u) == Unicode4(u)
  {
    assert u / 256 % 16 == u / 0x100 % 0x10;
    HexLaw(u / 4096);
    HexLaw(u / 256 % 16);
    HexLaw(u / 16 % 16);
    HexLaw(u % 16);
    hide HexDigit;
  }

  lemma HexLaw(n: int)
    requires 0 <= n < 16
    ensures HexDigit(n) == HEX[n]
  {
  }

  // ----- keys -----

  predicate Letter(c: char) {
    'a' <= c <= 'z' || c == '_'
  }

  lemma {:induction false} PlainEscape(k: string)
    requires forall i :: 0 <= i < |k| ==> Letter(k[i])
    ensures Escape(Codes(k)) == k
    decreases |k|
  {
    if k != "" {
      assert Codes(k)[1..] == Codes(k[1..]);
      PlainEscape(k[1..]);
      assert EscapeCode(Codes(k)[0]) == [k[0]];
      assert k == [k[0]] + k[1..];
    } else {
      assert Codes(k) == [];
    }
  }

  function Pair(key: string, value: Str): string {
    "\"" + key + "\":\"" + Escape(value) + "\""
  }

  lemma TextMember(key: string, value: Str)
    requires forall i :: 0 <= i < |key| ==> Letter(key[i])
    ensures PrintMember(Member(Codes(key), Text(value))) == Pair(key, value)
  {
    hide Escape; hide Codes;
    PlainEscape(key);
    assert "\"" + key + "\"" + ":" + ("\"" + Escape(value) + "\"") == Pair(key, value);
  }

  lemma NumberMember(key: string, n: int)
    requires (forall i :: 0 <= i < |key| ==> Letter(key[i])) && n in {1, 2}
    ensures PrintMember(Member(Codes(key), Integer(n))) == "\"" + key + "\":" + (if n == 1 then "1" else "2")
  {
    hide Escape; hide Codes;
    PlainEscape(key);
    assert PrintNat(n) == if n == 1 then "1" else "2";
  }

  /** The names under which the values stand, in the order of the text. */
  lemma MembersAre(d: Decision)
    ensures Members(d) == [
      Member(Codes("action"), Text(d.action)), Member(Codes("decision_digest"), Text(d.digest)),
      Member(Codes("decision_seq"), Integer(d.slot)), Member(Codes("operator_claim"), Text(d.claim)),
      Member(Codes("reason"), Text(d.reason)), Member(Codes("recorded_at"), Text(d.recordedAt)),
      Member(Codes("review_queue_item_id"), Text(d.item)), Member(Codes("schema_version"), Integer(1))]
  {
    hide Codes;
  }

  lemma KeysAreLetters()
    ensures forall key, i :: key in KEYS && 0 <= i < |key| ==> Letter(key[i])
  {
  }

  /** The pairs of the text, in their order. */
  function Pairs(d: Decision): seq<string> {
    [Pair("action", d.action), Pair("decision_digest", d.digest), "\"decision_seq\":"
        + (if d.slot == 1 then "1" else "2"),
     Pair("operator_claim", d.claim), Pair("reason", d.reason), Pair("recorded_at", d.recordedAt),
     Pair("review_queue_item_id", d.item), "\"schema_version\":1"]
  }

  function Commas(parts: seq<string>): string
    requires parts != []
  {
    if |parts| == 1 then parts[0] else parts[0] + "," + Commas(parts[1..])
  }

  lemma MemberAt(d: Decision, i: nat)
    requires i < 8
    ensures i < |KEYS| && KEYS[i] in KEYS && Members(d)[i] == Member(Codes(KEYS[i]), Values(d)[i])
  {
    hide Codes; hide Values;
  }

  lemma TextPairsAre(d: Decision, i: nat)
    requires i in {0, 1, 3, 4, 5, 6}
    ensures Values(d)[i].Text? && Pairs(d)[i] == Pair(KEYS[i], Values(d)[i].text)
  {
    hide Pair;
  }

  lemma NumberPairsAre(d: Decision, i: nat)
    requires i in {2, 7} && d.slot in {1, 2}
    ensures Values(d)[i].Integer? && Values(d)[i].n in {1, 2}
    ensures Pairs(d)[i] == "\"" + KEYS[i] + "\":" + (if Values(d)[i].n == 1 then "1" else "2")
  {
    hide Pair;
    assert "\"decision_seq\":" == "\"" + "decision_seq" + "\":";
    assert "\"schema_version\":1" == "\"" + "schema_version" + "\":" + "1";
  }

  lemma TextPairs(d: Decision, i: nat)
    requires i in {0, 1, 3, 4, 5, 6}
    ensures PrintMember(Members(d)[i]) == Pairs(d)[i]
  {
    hide *;
    MemberAt(d, i);
    TextPairsAre(d, i);
    KeysAreLetters();
    TextMember(KEYS[i], Values(d)[i].text);
  }

  lemma NumberPairs(d: Decision, i: nat)
    requires i in {2, 7} && d.slot in {1, 2}
    ensures PrintMember(Members(d)[i]) == Pairs(d)[i]
  {
    hide *;
    MemberAt(d, i);
    NumberPairsAre(d, i);
    KeysAreLetters();
    NumberMember(KEYS[i], Values(d)[i].n);
  }

  lemma {:induction false} PrintedCommas(ms: seq<Member>, parts: seq<string>)
    requires |ms| == |parts| > 0 && forall i :: 0 <= i < |ms| ==> PrintMember(ms[i]) == parts[i]
    ensures PrintMembers(ms) == Commas(parts)
    decreases |ms|
  {
    hide PrintMember;
    if |ms| > 1 { PrintedCommas(ms[1..], parts[1..]); }
  }

  /** The canonical text of a decision, and the text its digest is taken of: the same without the digest's own pair. */
  lemma CanonicalText(d: Decision)
    requires d.slot in {1, 2}
    ensures CanonicalBytes(d) == "{" + Commas(Pairs(d)) + "}"
    ensures DigestInput(d) == "{" + Commas(Pairs(d)[..1] + Pairs(d)[2..]) + "}"
  {
    var ms, parts := Members(d), Pairs(d);
    forall i | 0 <= i < 8 ensures PrintMember(ms[i]) == parts[i] {
      if i == 2 || i == 7 { NumberPairs(d, i); } else { TextPairs(d, i); }
    }
    hide Members; hide PrintMember; hide Pairs;
    PrintedCommas(ms, parts);
    PrintedCommas(ms[..1] + ms[2..], parts[..1] + parts[2..]);
  }

  /** Code point order. */
  predicate Before(a: Str, b: Str) {
    b != [] && (a == [] || a[0] < b[0] || (a[0] == b[0] && Before(a[1..], b[1..])))
  }

  lemma {:induction false} BeforeAt(a: string, b: string, n: nat)
    requires n < |a| && n < |b| && a[..n] == b[..n] && a[n] < b[n]
    ensures Before(Codes(a), Codes(b))
    decreases n
  {
    var x, y := Codes(a), Codes(b);
    assert x != [] && y != [];
    if n > 0 {
      assert a[0] == a[..n][0] == b[..n][0] == b[0];
      assert x[1..] == Codes(a[1..]) && y[1..] == Codes(b[1..]);
      assert a[1..][..n - 1] == a[..n][1..] && b[1..][..n - 1] == b[..n][1..];
      BeforeAt(a[1..], b[1..], n - 1);
    }
  }

  /** Where two neighbouring keys differ first. */
  const DIFFER: seq<nat> := [0, 9, 0, 0, 2, 2, 0]

  lemma KeysDiffer(i: nat)
    requires i < 7
    ensures var n, a, b := DIFFER[i], KEYS[i], KEYS[i + 1];
            n < |a| && n < |b| && a[..n] == b[..n] && a[n] < b[n]
  {
  }

  /** The keys ascend, as sort_keys puts them. */
  lemma KeysAscend(d: Decision, i: nat)
    requires i + 1 < |Members(d)|
    ensures Before(Members(d)[i].key, Members(d)[i + 1].key)
  {
    KeysDiffer(i);
    hide Codes; hide Values;
    assert Members(d)[i].key == Codes(KEYS[i]) && Members(d)[i + 1].key == Codes(KEYS[i + 1]);
    var n, a, b := DIFFER[i], KEYS[i], KEYS[i + 1];
    hide KEYS; hide DIFFER; hide Before;
    BeforeAt(a, b, n);
  }

  // ----- what the decoder takes from the text -----

  ghost predicate Holds(ms: seq<Member>, key: string, v: Value) {
    FindFrom(ms, Codes(key), 0) == Some(v)
  }

  /** Every field of the result is what the text holds under its name. */
  lemma DecodedFields(hash: string -> Str, raw: string, item: Str, slot: int)
    requires Decode(hash, raw, item, slot).Some?
    ensures ReadObject(raw).Some?
    ensures var d, ms := Decode(hash, raw, item, slot).value, ReadObject(raw).value;
            && |ms| == 8
            && Holds(ms, "review_queue_item_id", Text(d.item)) && Holds(ms, "decision_seq", Integer(d.slot))
            && Holds(ms, "action", Text(d.action)) && Holds(ms, "operator_claim", Text(d.claim))
            && Holds(ms, "reason", Text(d.reason)) && Holds(ms, "recorded_at", Text(d.recordedAt))
            && Holds(ms, "decision_digest", Text(d.digest)) && Holds(ms, "schema_version", Integer(1))
  {
    hide Schema; hide ReadObject; hide PrintMembers; hide FindFrom; hide Codes;
    var ms := ReadObject(raw).value;
    var sorted := SortedMembers(ms);
    assert forall i :: 0 <= i < |KEYS| ==> sorted[i].value == FindFrom(ms, Codes(KEYS[i]), 0).value;
    assert KEYS[0] == "action" && KEYS[1] == "decision_digest" && KEYS[2] == "decision_seq"
        && KEYS[3] == "operator_claim";
    assert KEYS[4] == "reason" && KEYS[5] == "recorded_at" && KEYS[6] == "review_queue_item_id";
    assert KEYS[7] == "schema_version";
  }

  // ----- what can be built -----

  predicate HexTail(s: Str, k: nat) {
    |s| == k + 64 && forall i :: k <= i < |s| ==> '0' as int <= s[i] <= '9' as int || 'a' as int <= s[i] <= 'f' as int
  }

  /** The fields of a decision are as they should be, but for the digest. */
  ghost predicate FieldsOk(item: Str, slot: int, action: Str, claim: Str, reason: Str, recordedAt: Str) {
    && |item| >= 3 && item[..3] == Codes("rq_") && HexTail(item, 3) && slot in {1, 2}
    && action in [Codes("accept"), Codes("reject"), Codes("defer"), Codes("revise")]
    && claim != [] && reason != [] && RecordedAt.Accepted(recordedAt)
  }

  /** The digest is that of the text without its own pair. */
  ghost predicate DigestOk(hash: string -> Str, d: Decision) {
    && |d.digest| >= 4 && d.digest[..4] == Codes("dcd_") && HexTail(d.digest, 4)
    && d.digest == hash("{" + Commas(Pairs(d)[..1] + Pairs(d)[2..]) + "}")
  }

  lemma SchemaIff(hash: string -> Str, d: Decision)
    ensures Schema(hash, d) <==>
            FieldsOk(d.item, d.slot, d.action, d.claim, d.reason, d.recordedAt) && DigestOk(hash, d)
  {
    if d.slot in {1, 2} { CanonicalText(d); }
    HexDigestIs(d);
    hide RecordedAt.Accepted; hide DigestInput; hide Pairs; hide Commas; hide Codes; hide HexDigest; hide HexTail;
  }

  lemma HexDigestIs(d: Decision)
    ensures HexDigest("rq_", d.item) <==> |d.item| >= 3 && d.item[..3] == Codes("rq_") && HexTail(d.item, 3)
    ensures HexDigest("dcd_", d.digest) <==>
            |d.digest| >= 4 && d.digest[..4] == Codes("dcd_") && HexTail(d.digest, 4)
  {
    hide Codes;
  }

  /** build_decision succeeds exactly on valid fields, keeps them, and adds the digest. */
  lemma BuildIff(hash: string -> Str, item: Str, slot: int, action: Str, claim: Str, reason: Str, recordedAt: Str)
    requires forall s :: |hash(s)| == 68 && hash(s)[..4] == Codes("dcd_") && HexTail(hash(s), 4)
    ensures var d := Build(hash, item, slot, action, claim, reason, recordedAt);
            && (d.Some? <==> FieldsOk(item, slot, action, claim, reason, recordedAt))
            && (d.Some? ==>
                  && d.value == Decision(item, slot, action, claim, reason, recordedAt, d.value.digest)
                  && DigestOk(hash, d.value))
  {
    var bare := Decision(item, slot, action, claim, reason, recordedAt, []);
    var d := bare.(digest := hash(DigestInput(bare)));
    SameDigestInput(bare, d.digest);
    SchemaIff(hash, d);
    if slot in {1, 2} { CanonicalText(d); }
    hide Codes; hide Schema; hide FieldsOk; hide Pairs; hide Commas; hide DigestInput; hide HexTail;
  }

  /** Accepted are exactly the canonical texts of valid decisions for that slot, without adjacent surrogate halves. */
  lemma DecodeIff(hash: string -> Str, raw: string, item: Str, slot: int, d: Decision)
    ensures Decode(hash, raw, item, slot) == Some(d) <==>
            && FieldsOk(d.item, d.slot, d.action, d.claim, d.reason, d.recordedAt) && DigestOk(hash, d)
            && d.item == item && d.slot == slot && Whole(d.claim) && Whole(d.reason)
            && raw == "{" + Commas(Pairs(d)) + "}"
  {
    hide *;
    SchemaIff(hash, d);
    if Decode(hash, raw, item, slot) == Some(d) {
      AcceptedIsCanonical(hash, raw, item, slot);
      SlotOfFields(d);
      CanonicalText(d);
    } else if Schema(hash, d) && d.item == item && d.slot == slot {
      SlotOfFields(d);
      CanonicalText(d);
      RoundTrip(hash, d);
    }
  }

  lemma SlotOfFields(d: Decision)
    requires FieldsOk(d.item, d.slot, d.action, d.claim, d.reason, d.recordedAt)
    ensures d.slot in {1, 2}
  {
  }

  lemma SameDigestInput(d: Decision, digest: Str)
    ensures DigestInput(d.(digest := digest)) == DigestInput(d)
  {
    hide Codes; hide PrintObject;
    var e := d.(digest := digest);
    MembersAre(d);
    MembersAre(e);
    assert Members(d)[..DIGEST_AT] + Members(d)[DIGEST_AT + 1..] ==
        Members(e)[..DIGEST_AT] + Members(e)[DIGEST_AT + 1..];
  }
}
