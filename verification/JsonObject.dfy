/**
 Flat JSON objects of strings and integers, RFC 8259: the compact printer and the decoder.

 The decoder gives up on every other value; a document with such a value is refused by the schema anyway.
 */
module JsonObject {
  import opened Wrappers
  import opened JsonText

  datatype Value = Text(text: Str) | Integer(n: int)

  datatype Member = Member(key: Str, value: Value)

  // ----- the printer -----

  function PrintNat(n: nat): (r: string)
    ensures |r| > 0 && IsDigit(r[0])
    ensures r[0] == '0' ==> n == 0
  {
    if n < 10 then [DigitChar(n)] else PrintNat(n / 10) + [DigitChar(n % 10)]
  }

  function DigitChar(d: int): (c: char)
    requires 0 <= d <= 9
    ensures IsDigit(c) && DigitValue(c) == d
  {
    '0' + d as char
  }

  predicate IsDigit(c: char) {
    '0' <= c <= '9'
  }

  function DigitValue(c: char): int
    requires IsDigit(c)
  {
    c as int - '0' as int
  }

  function PrintValue(v: Value): string {
    match v
    case Text(s) => Quote(s)
    case Integer(n) => if n < 0 then "-" + PrintNat(-n) else PrintNat(n)
  }

  function PrintMember(m: Member): string {
    Quote(m.key) + ":" + PrintValue(m.value)
  }

  function PrintMembers(ms: seq<Member>): string
    requires ms != []
  {
    if |ms| == 1 then PrintMember(ms[0]) else PrintMember(ms[0]) + "," + PrintMembers(ms[1..])
  }

  function PrintObject(ms: seq<Member>): string {
    "{" + (if ms == [] then "" else PrintMembers(ms)) + "}"
  }

  // ----- the decoder -----

  predicate IsSpace(c: char) {
    c == ' ' || c == '\t' || c == '\n' || c == '\r'
  }

  function SkipSpace(s: string): (r: string)
    ensures |r| <= |s|
    ensures s != "" && !IsSpace(s[0]) ==> r == s
  {
    if s != "" && IsSpace(s[0]) then SkipSpace(s[1..]) else s
  }

  function ReadDigits(s: string, value: nat): (r: Read<nat>)
    ensures |r.rest| <= |s|
    decreases |s|
  {
    if s != "" && IsDigit(s[0]) then ReadDigits(s[1..], value * 10 + DigitValue(s[0])) else Read(value, s)
  }

  /** A run of digits without a leading zero. */
  function ReadNat(s: string): (r: Option<Read<nat>>)
    ensures r.Some? ==> |r.value.rest| < |s|
  {
    if s == "" || !IsDigit(s[0]) then None
    else if s[0] == '0' then Some(Read(0, s[1..]))
    else Some(ReadDigits(s[1..], DigitValue(s[0])))
  }

  predicate Fraction(s: string) {
    s != "" && (s[0] == '.' || s[0] == 'e' || s[0] == 'E')
  }

  function ReadInteger(s: string): (r: Option<Read<int>>)
    ensures r.Some? ==> |r.value.rest| < |s|
  {
    var negative := s != "" && s[0] == '-';
    var digits := ReadNat(if negative then s[1..] else s);
    if digits.None? || Fraction(digits.value.rest) then None
    else
      var n: int := if negative then 0 - digits.value.value else digits.value.value;
      Some(Read(n, digits.value.rest))
  }

  function ReadValue(s: string): (r: Option<Read<Value>>)
    ensures r.Some? ==> |r.value.rest| < |s|
  {
    if s != "" && s[0] == '"' then
      var text := ReadString(s);
      if text.None? then None else Some(Read(Text(text.value.value), text.value.rest))
    else
      var n := ReadInteger(s);
      if n.None? then None else Some(Read(Integer(n.value.value), n.value.rest))
  }

  function ReadMember(s: string): (r: Option<Read<Member>>)
    ensures r.Some? ==> |r.value.rest| < |s|
  {
    var key := ReadString(s);
    if key.None? then None
    else
      var colon := SkipSpace(key.value.rest);
      if colon == "" || colon[0] != ':' then None
      else
        var value := ReadValue(SkipSpace(colon[1..]));
        if value.None? then None else Some(Read(Member(key.value.value, value.value.value), value.value.rest))
  }

  function ReadMembers(s: string): (r: Option<Read<seq<Member>>>)
    decreases |s|
  {
    var first := ReadMember(s);
    if first.None? then None
    else
      var after := SkipSpace(first.value.rest);
      if after == "" then None
      else if after[0] == '}' then Some(Read([first.value.value], after[1..]))
      else if after[0] != ',' then None
      else
        var more := ReadMembers(SkipSpace(after[1..]));
        if more.None? then None else Some(Read([first.value.value] + more.value.value, more.value.rest))
  }

  predicate DistinctKeys(ms: seq<Member>) {
    forall i, j :: 0 <= i < j < |ms| ==> ms[i].key != ms[j].key
  }

  /** json.loads with duplicate keys refused. */
  function ReadObject(s: string): Option<seq<Member>> {
    var open := SkipSpace(s);
    if open == "" || open[0] != '{' then None
    else
      var inside := SkipSpace(open[1..]);
      var members := if inside != "" && inside[0] == '}' then Some(Read([], inside[1..])) else ReadMembers(inside);
      if members.None? || SkipSpace(members.value.rest) != "" || !DistinctKeys(members.value.value) then None
      else Some(members.value.value)
  }

  // ----- what reading a printed object gives -----

  function Joined(v: Value): Value {
    match v
    case Text(s) => Text(Merge(s))
    case Integer(_) => v
  }

  function JoinedMember(m: Member): Member {
    Member(Merge(m.key), Joined(m.value))
  }

  function JoinedMembers(ms: seq<Member>): (r: seq<Member>)
    ensures |r| == |ms| && forall i :: 0 <= i < |ms| ==> r[i] == JoinedMember(ms[i])
  {
    seq(|ms|, i requires 0 <= i < |ms| => JoinedMember(ms[i]))
  }

  lemma {:induction false} DigitsOfNat(n: nat, rest: string)
    ensures ReadDigits(PrintNat(n) + rest, 0) == ReadDigits(rest, n)
    decreases n
  {
    if n < 10 {
      assert (PrintNat(n) + rest)[1..] == rest;
    } else {
      var last := [DigitChar(n % 10)];
      DigitsOfNat(n / 10, last + rest);
      assert PrintNat(n) + rest == PrintNat(n / 10) + (last + rest);
      assert (last + rest)[0] == DigitChar(n % 10) && (last + rest)[1..] == rest;
    }
  }

  predicate Ends(rest: string) {
    rest == "" || (!IsDigit(rest[0]) && !Fraction(rest))
  }

  lemma NatBack(n: nat, rest: string)
    requires Ends(rest)
    ensures ReadNat(PrintNat(n) + rest) == Some(Read(n, rest))
  {
    var s := PrintNat(n) + rest;
    assert s[0] == PrintNat(n)[0];
    if n == 0 {
      assert s[0] == '0' && s[1..] == rest;
    } else {
      DigitsOfNat(n, rest);
      assert ReadDigits(s, 0) == ReadDigits(s[1..], DigitValue(s[0]));
    }
  }

  lemma IntegerBack(n: int, rest: string)
    requires Ends(rest)
    ensures ReadInteger(PrintValue(Integer(n)) + rest) == Some(Read(n, rest))
    ensures PrintValue(Integer(n)) != "" && !IsSpace(PrintValue(Integer(n))[0]) && PrintValue(Integer(n))[0] != '"'
  {
    hide ReadNat; hide PrintNat;
    var s := PrintValue(Integer(n)) + rest;
    if n < 0 {
      assert s[0] == '-' && s[1..] == PrintNat(-n) + rest;
      NatBack(-n, rest);
    } else {
      assert s[0] == PrintNat(n)[0];
      NatBack(n, rest);
    }
  }

  lemma TextBack(text: Str, rest: string)
    ensures Quote(text) != "" && Quote(text)[0] == '"' && (Quote(text) + rest)[0] == '"'
    ensures ReadString(Quote(text) + rest) == Some(Read(Merge(text), rest))
  {
    hide Escape; hide ReadBody;
    var s := Quote(text) + rest;
    assert s[1..] == Escape(text) + "\"" + rest;
    ReadPrinted(text, rest);
  }

  lemma ValueBack(v: Value, rest: string)
    requires Ends(rest)
    ensures ReadValue(PrintValue(v) + rest) == Some(Read(Joined(v), rest))
    ensures PrintValue(v) != "" && !IsSpace(PrintValue(v)[0])
  {
    var s := PrintValue(v) + rest;
    match v {
      case Text(text) =>
        hide ReadString; hide Quote;
        TextBack(text, rest);
      case Integer(n) =>
        hide PrintValue; hide ReadInteger;
        IntegerBack(n, rest);
        assert s[0] == PrintValue(v)[0];
    }
  }

  lemma MemberBack(m: Member, rest: string)
    requires Ends(rest)
    ensures ReadMember(PrintMember(m) + rest) == Some(Read(JoinedMember(m), rest))
    ensures PrintMember(m) != "" && PrintMember(m)[0] == '"'
  {
    hide Escape; hide ReadBody; hide ReadValue; hide PrintValue;
    var s := PrintMember(m) + rest;
    var value := PrintValue(m.value) + rest;
    ValueBack(m.value, rest);
    assert s[0] == '"' && s[1..] == Escape(m.key) + "\"" + (":" + value);
    ReadPrinted(m.key, ":" + value);
    assert (":" + value)[0] == ':' && (":" + value)[1..] == value;
    assert value[0] == PrintValue(m.value)[0];
  }

  lemma PrintMembersHead(ms: seq<Member>, rest: string)
    requires ms != []
    ensures PrintMembers(ms) != "" && (PrintMembers(ms) + rest)[0] == '"'
  {
    MemberBack(ms[0], "");
    hide PrintMember;
  }

  lemma {:induction false} MembersBack(ms: seq<Member>, rest: string)
    requires ms != []
    ensures ReadMembers(PrintMembers(ms) + "}" + rest) == Some(Read(JoinedMembers(ms), rest))
    decreases |ms|
  {
    hide PrintMember; hide ReadMember; hide JoinedMember;
    var s := PrintMembers(ms) + "}" + rest;
    if |ms| == 1 {
      var after := "}" + rest;
      assert s == PrintMember(ms[0]) + after;
      MemberBack(ms[0], after);
      assert after[1..] == rest;
      assert JoinedMembers(ms) == [JoinedMember(ms[0])];
    } else {
      var tail := PrintMembers(ms[1..]) + "}" + rest;
      var after := "," + tail;
      assert s == PrintMember(ms[0]) + after;
      MemberBack(ms[0], after);
      assert after[1..] == tail;
      PrintMembersHead(ms[1..], "}" + rest);
      assert tail == PrintMembers(ms[1..]) + ("}" + rest);
      MembersBack(ms[1..], rest);
      assert JoinedMembers(ms) == [JoinedMember(ms[0])] + JoinedMembers(ms[1..]);
    }
  }

  /** Reading a printed object gives its members back, split pairs joined. */
  lemma ObjectBack(ms: seq<Member>)
    requires DistinctKeys(JoinedMembers(ms))
    ensures ReadObject(PrintObject(ms)) == Some(JoinedMembers(ms))
  {
    hide ReadMembers; hide PrintMembers; hide JoinedMember;
    var s := PrintObject(ms);
    if ms == [] {
      assert s == "{}" && s[1..] == "}" && s[1..][1..] == "";
      assert JoinedMembers(ms) == [];
    } else {
      assert s[0] == '{' && s[1..] == PrintMembers(ms) + "}" + "";
      PrintMembersHead(ms, "}");
      MembersBack(ms, "");
    }
  }

  // ----- what the reader returns holds no split pair -----

  ghost predicate WholeValue(v: Value) {
    v.Text? ==> Whole(v.text)
  }

  lemma ReadMemberIsWhole(s: string)
    requires ReadMember(s).Some?
    ensures WholeValue(ReadMember(s).value.value.value)
  {
    hide ReadBody; hide Whole;
    var colon := SkipSpace(ReadString(s).value.rest);
    var t := SkipSpace(colon[1..]);
    if t != "" && t[0] == '"' { ReadIsWhole(t[1..]); }
  }

  lemma {:induction false} ReadMembersAreWhole(s: string)
    requires ReadMembers(s).Some?
    ensures forall i :: 0 <= i < |ReadMembers(s).value.value| ==> WholeValue(ReadMembers(s).value.value[i].value)
    decreases |s|
  {
    hide ReadMember; hide WholeValue;
    ReadMemberIsWhole(s);
    var after := SkipSpace(ReadMember(s).value.rest);
    if after[0] != '}' { ReadMembersAreWhole(SkipSpace(after[1..])); }
  }

  lemma ReadObjectIsWhole(s: string)
    requires ReadObject(s).Some?
    ensures forall i :: 0 <= i < |ReadObject(s).value| ==> WholeValue(ReadObject(s).value[i].value)
  {
    hide ReadMembers; hide WholeValue;
    var inside := SkipSpace(SkipSpace(s)[1..]);
    if !(inside != "" && inside[0] == '}') { ReadMembersAreWhole(inside); }
  }
}
