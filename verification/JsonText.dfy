/**
 JSON strings as the canonical form prints them (ASCII only) and as the decoder reads them, RFC 8259 section 7.

 A Python string is a sequence of code points, which may include surrogates.  Encoded text is a Dafny string
 of bytes.
 */
module JsonText {
  import opened Wrappers

  type Code = c: int | 0 <= c < 0x110000
  type Str = seq<Code>

  /** The code points of a text without surrogates. */
  function Codes(s: string): (r: Str)
    ensures |r| == |s| && forall i :: 0 <= i < |s| ==> r[i] == s[i] as int
  {
    seq(|s|, i requires 0 <= i < |s| => s[i] as int)
  }

  predicate High(c: int) {
    0xD800 <= c < 0xDC00
  }

  predicate Low(c: int) {
    0xDC00 <= c < 0xE000
  }

  function Combine(high: int, low: int): (c: Code)
    requires High(high) && Low(low)
    ensures c >= 0x10000
  {
    0x10000 + (high - 0xD800) * 0x400 + (low - 0xDC00)
  }

  // ----- the printer -----

  function HexDigit(n: int): char
    requires 0 <= n < 16
  {
    if n < 10 then '0' + n as char else 'a' + (n - 10) as char
  }

  function Hex4(u: int): (r: string)
    requires 0 <= u < 0x10000
    ensures |r| == 4
  {
    [HexDigit(u / 4096), HexDigit(u / 256 % 16), HexDigit(u / 16 % 16), HexDigit(u % 16)]
  }

  function UnitEscape(u: int): (r: string)
    requires 0 <= u < 0x10000
    ensures |r| == 6
  {
    "\\u" + Hex4(u)
  }

  function ShortEscape(c: int): Option<char> {
    if c == 0x22 then Some('"')
    else if c == 0x5C then Some('\\')
    else if c == 0x0A then Some('n')
    else if c == 0x0D then Some('r')
    else if c == 0x09 then Some('t')
    else if c == 0x0C then Some('f')
    else if c == 0x08 then Some('b')
    else None
  }

  function EscapeCode(c: Code): string {
    if ShortEscape(c).Some? then ['\\', ShortEscape(c).value]
    else if 0x20 <= c < 0x7F then [c as char]
    else if c < 0x10000 then UnitEscape(c)
    else UnitEscape(0xD800 + (c - 0x10000) / 0x400) + UnitEscape(0xDC00 + (c - 0x10000) % 0x400)
  }

  function Escape(s: Str): string {
    if s == [] then "" else EscapeCode(s[0]) + Escape(s[1..])
  }

  function Quote(s: Str): string {
    "\"" + Escape(s) + "\""
  }

  // ----- the decoder -----

  function UnHexDigit(c: char): Option<int> {
    if '0' <= c <= '9' then Some(c as int - '0' as int)
    else if 'a' <= c <= 'f' then Some(c as int - 'a' as int + 10)
    else if 'A' <= c <= 'F' then Some(c as int - 'A' as int + 10)
    else None
  }

  /** A \u escape at the head of the text. */
  function Unit(s: string): (r: Option<int>)
    ensures r.Some? ==> |s| >= 6 && 0 <= r.value < 0x10000
  {
    if |s| < 6 || s[0] != '\\' || s[1] != 'u' then None
    else
      var a, b, c, d := UnHexDigit(s[2]), UnHexDigit(s[3]), UnHexDigit(s[4]), UnHexDigit(s[5]);
      if a.None? || b.None? || c.None? || d.None? then None
      else Some(a.value * 4096 + b.value * 256 + c.value * 16 + d.value)
  }

  function UnShort(c: char): Option<Code> {
    match c
    case '"' => Some(0x22)
    case '\\' => Some(0x5C)
    case '/' => Some(0x2F)
    case 'n' => Some(0x0A)
    case 'r' => Some(0x0D)
    case 't' => Some(0x09)
    case 'f' => Some(0x0C)
    case 'b' => Some(0x08)
    case _ => None
  }

  datatype Head = Head(code: Code, size: nat)

  /** The first code point of the body of a string, and how many bytes it takes. */
  function ReadCode(s: string): (r: Option<Head>)
    requires s != ""
    ensures r.Some? ==> 1 <= r.value.size <= |s|
  {
    if s[0] == '\\' then
      if Unit(s).Some? then
        var u := Unit(s).value;
        var next := Unit(s[6..]);
        if High(u) && next.Some? && Low(next.value) then Some(Head(Combine(u, next.value), 12))
        else Some(Head(u, 6))
      else if |s| >= 2 && UnShort(s[1]).Some? then Some(Head(UnShort(s[1]).value, 2))
      else None
    else if s[0] < ' ' then None
    else Some(Head(s[0] as int, 1))
  }

  datatype Read<T> = Read(value: T, rest: string)

  /** The body of a string up to its closing quote. */
  function ReadBody(s: string): (r: Option<Read<Str>>)
    ensures r.Some? ==> |r.value.rest| < |s|
    decreases |s|
  {
    if s == "" then None
    else if s[0] == '"' then Some(Read([], s[1..]))
    else
      var head := ReadCode(s);
      if head.None? then None
      else
        var tail := ReadBody(s[head.value.size..]);
        if tail.None? then None else Some(Read([head.value.code] + tail.value.value, tail.value.rest))
  }

  function ReadString(s: string): (r: Option<Read<Str>>)
    ensures r.Some? ==> |r.value.rest| < |s|
  {
    if s == "" || s[0] != '"' then None else ReadBody(s[1..])
  }

  // ----- what reading a printed string gives -----

  /** Adjacent halves of a surrogate pair become one code point. */
  function Merge(s: Str): Str {
    if s == [] then []
    else if |s| >= 2 && High(s[0]) && Low(s[1]) then [Combine(s[0], s[1])] + Merge(s[2..])
    else [s[0]] + Merge(s[1..])
  }

  /** No high half directly before a low half; in particular, every string of scalar values. */
  ghost predicate Whole(s: Str) {
    forall i :: 0 <= i < |s| - 1 ==> !(High(s[i]) && Low(s[i + 1]))
  }

  lemma {:induction false} MergeIffWhole(s: Str)
    ensures Merge(s) == s <==> Whole(s)
    decreases |s|
  {
    if |s| >= 2 && High(s[0]) && Low(s[1]) {
      assert !Whole(s);
      assert Merge(s)[0] != s[0];
    } else if s != [] {
      MergeIffWhole(s[1..]);
      assert Merge(s)[0] == s[0] && Merge(s)[1..] == Merge(s[1..]);
      if Whole(s[1..]) {
        forall i | 0 <= i < |s| - 1 ensures !(High(s[i]) && Low(s[i + 1])) {
          if i > 0 { assert s[1..][i - 1] == s[i] && s[1..][i] == s[i + 1]; }
        }
      } else {
        var i :| 0 <= i < |s[1..]| - 1 && High(s[1..][i]) && Low(s[1..][i + 1]);
        assert High(s[i + 1]) && Low(s[i + 2]);
      }
    }
  }

  lemma UnHex(n: int)
    requires 0 <= n < 16
    ensures UnHexDigit(HexDigit(n)) == Some(n)
  {
  }

  lemma Digits(u: int)
    requires 0 <= u < 0x10000
    ensures 0 <= u / 4096 < 16
    ensures u / 4096 * 4096 + u / 256 % 16 * 256 + u / 16 % 16 * 16 + u % 16 == u
  {
  }

  lemma UnitOfEscape(u: int, rest: string)
    requires 0 <= u < 0x10000
    ensures Unit(UnitEscape(u) + rest) == Some(u) && (UnitEscape(u) + rest)[6..] == rest
  {
    var s := UnitEscape(u) + rest;
    assert s[0] == '\\' && s[1] == 'u';
    Digits(u);
    UnHex(u / 4096);
    UnHex(u / 256 % 16);
    UnHex(u / 16 % 16);
    UnHex(u % 16);
    assert s[2] == HexDigit(u / 4096) && s[3] == HexDigit(u / 256 % 16) && s[4] == HexDigit(u / 16 % 16)
        && s[5] == HexDigit(u % 16);
  }

  lemma SplitPair(c: Code)
    requires c >= 0x10000
    ensures var high, low := 0xD800 + (c - 0x10000) / 0x400, 0xDC00 + (c - 0x10000) % 0x400;
            High(high) && Low(low) && Combine(high, low) == c
  {
  }

  /** Does the text start with a \u escape of a low half? */
  predicate LowAhead(s: string) {
    Unit(s).Some? && Low(Unit(s).value)
  }

  /** The printed form starts with a low half only if the string does. */
  lemma LowAheadIff(s: Str, rest: string)
    ensures LowAhead(Escape(s) + "\"" + rest) <==> s != [] && Low(s[0])
  {
    hide Unit; hide UnitEscape;
    var text := Escape(s) + "\"" + rest;
    if s == [] {
      assert text[0] == '"';
      NotAUnit(text);
    } else {
      var c := s[0];
      var after := Escape(s[1..]) + "\"" + rest;
      assert text == EscapeCode(c) + after;
      if ShortEscape(c).Some? {
        assert text[0] == '\\' && text[1] == ShortEscape(c).value;
        NotAUnit(text);
      } else if 0x20 <= c < 0x7F {
        assert text[0] == c as char;
        NotAUnit(text);
      } else if c < 0x10000 {
        UnitOfEscape(c, after);
      } else {
        SplitPair(c);
        var high, low := 0xD800 + (c - 0x10000) / 0x400, 0xDC00 + (c - 0x10000) % 0x400;
        assert text == UnitEscape(high) + (UnitEscape(low) + after);
        UnitOfEscape(high, UnitEscape(low) + after);
      }
    }
  }

  lemma NotAUnit(text: string)
    requires text != "" && (text[0] != '\\' || (|text| >= 2 && text[1] != 'u'))
    ensures Unit(text).None?
  {
  }

  /** One printed code point is read back, unless it is half of a pair whose other half follows. */
  lemma ReadEscaped(c: Code, after: string)
    requires !(High(c) && LowAhead(after))
    ensures EscapeCode(c) + after != ""
    ensures ReadCode(EscapeCode(c) + after) == Some(Head(c, |EscapeCode(c)|))
  {
    var text := EscapeCode(c) + after;
    if ShortEscape(c).Some? {
      assert text[0] == '\\' && text[1] == ShortEscape(c).value;
      NotAUnit(text);
    } else if 0x20 <= c < 0x7F {
      assert text[0] == c as char;
    } else {
      hide ReadCode;
      if c < 0x10000 { ReadUnit(c, after); } else { ReadSplit(c, after); }
    }
  }

  lemma ReadUnit(u: int, after: string)
    requires 0 <= u < 0x10000 && !(High(u) && LowAhead(after))
    ensures ReadCode(UnitEscape(u) + after) == Some(Head(u, 6))
  {
    hide UnitEscape; hide Unit;
    UnitOfEscape(u, after);
    UnitStart(u, after);
  }

  lemma ReadSplit(c: Code, after: string)
    requires c >= 0x10000
    ensures ReadCode(EscapeCode(c) + after) == Some(Head(c, 12)) && |EscapeCode(c)| == 12
  {
    hide UnitEscape; hide Unit; hide Combine;
    SplitPair(c);
    var high, low := 0xD800 + (c - 0x10000) / 0x400, 0xDC00 + (c - 0x10000) % 0x400;
    assert EscapeCode(c) + after == UnitEscape(high) + (UnitEscape(low) + after);
    UnitOfEscape(high, UnitEscape(low) + after);
    UnitOfEscape(low, after);
    UnitStart(high, UnitEscape(low) + after);
  }

  lemma UnitStart(u: int, after: string)
    requires 0 <= u < 0x10000
    ensures (UnitEscape(u) + after)[0] == '\\'
  {
  }

  /** Two halves printed one after the other are read as one code point. */
  lemma ReadEscapedPair(high: Code, low: Code, after: string)
    requires High(high) && Low(low)
    ensures ReadCode(EscapeCode(high) + EscapeCode(low) + after) == Some(Head(Combine(high, low), 12))
    ensures |EscapeCode(high) + EscapeCode(low)| == 12
  {
    hide UnitEscape; hide Unit;
    assert EscapeCode(high) == UnitEscape(high) && EscapeCode(low) == UnitEscape(low);
    var text := EscapeCode(high) + EscapeCode(low) + after;
    assert text == UnitEscape(high) + (UnitEscape(low) + after);
    UnitOfEscape(high, UnitEscape(low) + after);
    UnitOfEscape(low, after);
    UnitStart(high, UnitEscape(low) + after);
  }

  lemma EscapeStart(c: Code, after: string)
    ensures EscapeCode(c) != "" && (EscapeCode(c) + after)[0] != '"'
  {
  }

  lemma TwoEscapes(s: Str)
    requires |s| >= 2
    ensures Escape(s) == EscapeCode(s[0]) + EscapeCode(s[1]) + Escape(s[2..])
  {
    hide EscapeCode;
    assert s[1..][0] == s[1] && s[1..][1..] == s[2..];
    assert Escape(s[1..]) == EscapeCode(s[1]) + Escape(s[2..]);
  }

  /** Printing and reading back merges split pairs and changes nothing else. */
  lemma {:induction false} ReadPrinted(s: Str, rest: string)
    ensures ReadBody(Escape(s) + "\"" + rest) == Some(Read(Merge(s), rest))
    decreases |s|
  {
    hide EscapeCode; hide ReadCode; hide Unit; hide LowAhead;
    var text := Escape(s) + "\"" + rest;
    if s == [] {
      assert text[0] == '"' && text[1..] == rest;
    } else if |s| >= 2 && High(s[0]) && Low(s[1]) {
      var after := Escape(s[2..]) + "\"" + rest;
      TwoEscapes(s);
      assert text == EscapeCode(s[0]) + (EscapeCode(s[1]) + after);
      EscapeStart(s[0], EscapeCode(s[1]) + after);
      assert text == EscapeCode(s[0]) + EscapeCode(s[1]) + after;
      ReadEscapedPair(s[0], s[1], after);
      assert text[12..] == after;
      ReadPrinted(s[2..], rest);
    } else {
      var after := Escape(s[1..]) + "\"" + rest;
      assert text == EscapeCode(s[0]) + after;
      EscapeStart(s[0], after);
      LowAheadIff(s[1..], rest);
      ReadEscaped(s[0], after);
      assert text[|EscapeCode(s[0])|..] == after;
      ReadPrinted(s[1..], rest);
    }
  }

  /** A split pair prints like the code point it stands for. */
  lemma {:induction false} EscapeMerged(s: Str)
    ensures Escape(Merge(s)) == Escape(s)
    decreases |s|
  {
    hide EscapeCode;
    if |s| >= 2 && High(s[0]) && Low(s[1]) {
      EscapeMerged(s[2..]);
      var c := Combine(s[0], s[1]);
      PairPrintsAlike(s[0], s[1]);
      TwoEscapes(s);
      assert Merge(s)[0] == c && Merge(s)[1..] == Merge(s[2..]);
    } else if s != [] {
      EscapeMerged(s[1..]);
      assert Merge(s)[0] == s[0] && Merge(s)[1..] == Merge(s[1..]);
    }
  }

  lemma PairPrintsAlike(high: Code, low: Code)
    requires High(high) && Low(low)
    ensures EscapeCode(Combine(high, low)) == EscapeCode(high) + EscapeCode(low)
  {
    hide UnitEscape; hide Combine;
    CombineSplits(high, low);
  }

  lemma CombineSplits(high: Code, low: Code)
    requires High(high) && Low(low)
    ensures var c := Combine(high, low); 0xD800 + (c - 0x10000) / 0x400 == high && 0xDC00 + (c - 0x10000) % 0x400 == low
  {
  }

  // ----- what the reader returns never holds a split pair -----

  lemma ConsWhole(c: Code, tail: Str)
    requires Whole(tail) && !(High(c) && tail != [] && Low(tail[0]))
    ensures Whole([c] + tail)
  {
    var all := [c] + tail;
    forall i | 0 <= i < |all| - 1 ensures !(High(all[i]) && Low(all[i + 1])) {
      if i > 0 { assert all[i] == tail[i - 1] && all[i + 1] == tail[i]; }
    }
  }

  lemma {:induction false} ReadIsWhole(s: string)
    requires ReadBody(s).Some?
    ensures Whole(ReadBody(s).value.value)
    decreases |s|
  {
    hide ReadCode; hide Whole;
    if s[0] == '"' {
      assert Whole([]) by { NothingIsWhole(); }
    } else {
      var head := ReadCode(s).value;
      var after := s[head.size..];
      ReadIsWhole(after);
      HalfAlone(s, head, after);
      ConsWhole(head.code, ReadBody(after).value.value);
    }
  }

  lemma NothingIsWhole()
    ensures Whole([])
  {
  }

  /** A high half is read on its own only when no low half follows. */
  lemma HalfAlone(s: string, head: Head, after: string)
    requires s != "" && ReadCode(s) == Some(head) && after == s[head.size..]
    ensures High(head.code) && ReadBody(after).Some? && ReadBody(after).value.value != [] ==>
              !Low(ReadBody(after).value.value[0])
  {
  }
}
