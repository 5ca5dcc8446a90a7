/**
 Cutting a message into parts of at most `limit` UTF-16 code units (section 2.1 of RFC 2781).

 A message is a string of Unicode scalar values: the original cannot measure any other.
 */
module MessageSplit {
  import opened FrontMatter
  import opened JsonText

  /** One code unit, or a surrogate pair. */
  function Units(c: char): (n: nat)
    ensures 1 <= n <= 2
  {
    if c as int < 0x10000 then 1 else 2
  }

  function Utf16Len(s: string): (n: nat)
    ensures |s| <= n
  {
    if s == "" then 0 else Utf16Len(s[..|s| - 1]) + Units(s[|s| - 1])
  }

  /** The encoding that is measured (section 2.1 of RFC 2781). */
  function Utf16(s: string): seq<int> {
    if s == "" then [] else Encoded(s[0] as int) + Utf16(s[1..])
  }

  function Encoded(c: int): seq<int> {
    if c < 0x10000 then [c] else [0xD800 + (c - 0x10000) / 0x400, 0xDC00 + (c - 0x10000) % 0x400]
  }

  /** A message measures as many as there are units in its encoding; joining the surrogate pairs gives it back. */
  lemma {:induction false} MeasuresUnits(s: string)
    ensures |Utf16(s)| == Utf16Len(s) && forall i :: 0 <= i < |Utf16(s)| ==> 0 <= Utf16(s)[i] < 0x10000
    ensures Merge(Utf16(s)) == Codes(s)
    decreases |s|
  {
    if s != "" {
      var c, rest := s[0] as int, Utf16(s[1..]);
      MeasuresUnits(s[1..]);
      FirstMeasured(s);
      MergedFirst(c, rest);
      assert Codes(s) == [c] + Codes(s[1..]);
    }
  }

  lemma {:induction false} FirstMeasured(s: string)
    requires s != ""
    ensures Utf16Len(s) == Units(s[0]) + Utf16Len(s[1..])
    decreases |s|
  {
    if |s| > 1 {
      FirstMeasured(s[..|s| - 1]);
      assert s[1..][..|s| - 2] == s[..|s| - 1][1..];
    }
  }

  lemma MergedFirst(c: int, rest: Str)
    requires 0 <= c < 0xD800 || 0xE000 <= c < 0x110000
    ensures Merge(Encoded(c) + rest) == [c] + Merge(rest)
  {
    var all := Encoded(c) + rest;
    if c < 0x10000 {
      assert all[0] == c && all[1..] == rest;
    } else {
      assert all[0] == Encoded(c)[0] && all[1] == Encoded(c)[1] && all[2..] == rest;
      assert Combine(all[0], all[1]) == c;
    }
  }

  /** The longest prefix that fits. */
  ghost predicate LongestPrefix(value: string, limit: nat, k: nat) {
    && k <= |value| && Utf16Len(value[..k]) <= limit
    && (k < |value| ==> Utf16Len(value[..k + 1]) > limit)
  }

  lemma {:induction false} LongerIsMore(value: string, i: nat, j: nat)
    requires i <= j <= |value|
    ensures Utf16Len(value[..i]) + (j - i) <= Utf16Len(value[..j])
    decreases j
  {
    if i < j {
      LongerIsMore(value, i, j - 1);
      assert value[..j][..j - 1] == value[..j - 1];
    }
  }

  /** Every prefix that fits is a prefix of the longest one. */
  lemma LongestIsLongest(value: string, limit: nat, k: nat, other: nat)
    requires LongestPrefix(value, limit, k) && other <= |value| && Utf16Len(value[..other]) <= limit
    ensures other <= k
  {
    if other > k { LongerIsMore(value, k + 1, other); }
  }

  /** _prefix: a binary search on the length. */
  method Prefix(value: string, limit: nat) returns (prefix: string)
    ensures LongestPrefix(value, limit, |prefix|) && prefix == value[..|prefix|]
  {
    assert value[..|value|] == value;
    if Utf16Len(value) <= limit { return value; }
    var low, high := 0, |value|;
    while low < high
      invariant 0 <= low <= high <= |value|
      invariant Utf16Len(value[..low]) <= limit
      invariant high < |value| ==> Utf16Len(value[..high + 1]) > limit
      invariant Utf16Len(value) > limit
    {
      var middle := (low + high + 1) / 2;
      if Utf16Len(value[..middle]) <= limit {
        low := middle;
      } else {
        high := middle - 1;
      }
    }
    prefix := value[..low];
  }

  /** str.rfind of a character: its last position, or -1. */
  function LastIndex(s: string, c: char): (k: int)
    ensures -1 <= k < |s|
    ensures k >= 0 ==> s[k] == c
    ensures forall i :: k < i < |s| ==> s[i] != c
  {
    if s == "" then -1 else if s[|s| - 1] == c then |s| - 1 else LastIndex(s[..|s| - 1], c)
  }

  /** The parts with what was dropped after each. */
  function Woven(parts: seq<string>, gaps: seq<string>): string
    requires |parts| == |gaps|
  {
    if parts == [] then ""
    else Woven(parts[..|parts| - 1], gaps[..|parts| - 1]) + (parts[|parts| - 1] + gaps[|parts| - 1])
  }

  predicate Blank(s: string) {
    forall i :: 0 <= i < |s| ==> IsBlank(s[i])
  }

  predicate PartOk(part: string, limit: nat) {
    part != "" && Utf16Len(part) <= limit
  }

  predicate Astral(s: string) {
    exists i :: 0 <= i < |s| && Units(s[i]) == 2
  }

  lemma {:induction false} StripIsSuffix(s: string)
    ensures var k := |s| - |StripLeft(s)|; s == s[..k] + StripLeft(s) && Blank(s[..k])
    decreases |s|
  {
    if s != "" && IsBlank(s[0]) {
      StripIsSuffix(s[1..]);
      var k := |s| - |StripLeft(s)|;
      assert s[..k] == [s[0]] + s[1..][..k - 1];
    } else {
      assert s[..0] == "";
    }
  }

  lemma WovenMore(parts: seq<string>, gaps: seq<string>, part: string, gap: string)
    requires |parts| == |gaps|
    ensures Woven(parts + [part], gaps + [gap]) == Woven(parts, gaps) + (part + gap)
  {
    assert (parts + [part])[..|parts|] == parts && (gaps + [gap])[..|parts|] == gaps;
  }

  datatype Result = Parts(parts: seq<string>) | InvalidLimit | CannotSplit

  predicate Space(c: char) {
    c == '\n' || c == ' '
  }

  /**
   Where a part ends, k being the length of the longest prefix that fits: before the last newline or space of the
   second half of that prefix, or at k if there is none or nothing needs to be cut.
   */
  ghost predicate CutAfter(remaining: string, k: nat, n: nat)
    requires k <= |remaining|
  {
    && n <= k
    && if n == k then k == |remaining| || forall i :: k / 2 < i < k ==> !Space(remaining[i])
       else k < |remaining| && k / 2 < n && Space(remaining[n]) && forall i :: n < i < k ==> !Space(remaining[i])
  }

  ghost predicate GoodCut(remaining: string, limit: nat, n: nat) {
    exists k :: LongestPrefix(remaining, limit, k) && CutAfter(remaining, k, n)
  }

  /** After `before`, the value goes on with the part that is due, the gap, and then no more white space. */
  ghost predicate CutHere(value: string, before: string, part: string, gap: string, limit: nat) {
    && before + part + gap <= value
    && GoodCut(value[|before|..], limit, |part|)
    && (|before + part + gap| < |value| ==> !IsBlank(value[|before + part + gap|]))
  }

  /** Every part is cut where it should be from what the parts before it left. */
  ghost predicate WellCut(parts: seq<string>, gaps: seq<string>, value: string, limit: nat)
    requires |parts| == |gaps|
  {
    parts == [] ||
    var n := |parts| - 1;
    WellCut(parts[..n], gaps[..n], value, limit)
        && CutHere(value, Woven(parts[..n], gaps[..n]), parts[n], gaps[n], limit)
  }

  lemma WellCutMore(parts: seq<string>, gaps: seq<string>, value: string, limit: nat, part: string, gap: string)
    requires |parts| == |gaps| && WellCut(parts, gaps, value, limit)
    requires CutHere(value, Woven(parts, gaps), part, gap, limit)
    ensures WellCut(parts + [part], gaps + [gap], value, limit)
  {
    hide CutHere; hide Woven;
    assert (parts + [part])[..|parts|] == parts && (gaps + [gap])[..|parts|] == gaps;
  }

  lemma StripsAll(s: string)
    ensures StripLeft(s) == "" || !IsBlank(StripLeft(s)[0])
  {
  }

  /** What is left after the part and the gap is what comes next. */
  lemma CutIsHere(value: string, before: string, part: string, gap: string, rest: string, limit: nat)
    requires value == before + part + gap + rest && (rest == "" || !IsBlank(rest[0]))
    requires GoodCut(part + gap + rest, limit, |part|)
    ensures CutHere(value, before, part, gap, limit)
  {
    hide GoodCut; hide IsBlank;
    assert value[|before|..] == part + gap + rest;
  }

  /** One turn of the loop: the next part, cut at white space in its second half if there is any. */
  method NextPart(remaining: string, limit: nat) returns (part: string)
    requires remaining != "" && limit > 0
    ensures part <= remaining && Utf16Len(part) <= limit
    ensures part == "" <==> limit == 1 && Units(remaining[0]) == 2
    ensures GoodCut(remaining, limit, |part|)
  {
    part := Prefix(remaining, limit);
    ghost var k := |part|;
    HeadFits(remaining, limit, k);
    if |part| < |remaining| {
      var newline, space := LastIndex(part, '\n'), LastIndex(part, ' ');
      var boundary := if newline > space then newline else space;
      if part != "" && boundary > |part| / 2 {
        LongerIsMore(part, boundary, |part|);
        assert part[..|part|] == part;
        part := part[..boundary];
      }
    }
    assert CutAfter(remaining, k, |part|);
  }

  lemma HeadFits(value: string, limit: nat, k: nat)
    requires value != "" && limit > 0 && LongestPrefix(value, limit, k)
    ensures k == 0 <==> limit == 1 && Units(value[0]) == 2
  {
    assert value[..1] == [value[0]] && [value[0]][..0] == "";
    assert Utf16Len(value[..1]) == Units(value[0]);
    if Utf16Len(value[..1]) <= limit { LongestIsLongest(value, limit, k, 1); }
    if k >= 1 { LongerIsMore(value, 1, k); }
  }

  /**
   split_message: every part fits and is as long as it can be, cut only at white space in its second half; the message
   is the parts in order with only white space dropped after them.  It raises exactly when the limit is one unit and
   some character needs two.
   */
  method SplitMessage(value: string, limit: int) returns (result: Result, ghost gaps: seq<string>)
    ensures result == InvalidLimit <==> limit <= 0
    ensures result == CannotSplit <==> limit == 1 && exists i :: 0 <= i < |value| && value[i] as int >= 0x10000
    ensures value == "" && limit > 0 ==> result == Parts([""])
    ensures value != "" && result.Parts? ==>
      && |gaps| == |result.parts| && Woven(result.parts, gaps) == value
      && (forall k :: 0 <= k < |gaps| ==> Blank(gaps[k]) && PartOk(result.parts[k], limit))
      && WellCut(result.parts, gaps, value, limit)
  {
    hide WellCut; hide CutHere; hide GoodCut; hide Utf16Len; hide StripLeft; hide IsBlank; hide Woven; hide Blank;
    hide Astral; hide LongestPrefix;
    gaps := [];
    if limit <= 0 { return InvalidLimit, gaps; }
    assert Astral(value) <==> exists i :: 0 <= i < |value| && value[i] as int >= 0x10000 by { AstralIs(value); }
    var remaining, parts := value, [];
    ghost var done := "";
    NothingWoven();
    NothingCut(value, limit);
    while remaining != ""
      invariant |gaps| == |parts| && done == Woven(parts, gaps) && done + remaining == value
      invariant forall k :: 0 <= k < |gaps| ==> Blank(gaps[k]) && PartOk(parts[k], limit)
      invariant value == "" ==> parts == []
      invariant WellCut(parts, gaps, value, limit)
      invariant limit == 1 ==> !Astral(done)
      decreases |remaining|
    {
      var part := NextPart(remaining, limit);
      if part == "" {
        HeadIsAstral(value, done, remaining);
        return CannotSplit, gaps;
      }
      var rest := remaining[|part|..];
      ghost var gap := OneTurn(value, limit, parts, gaps, remaining, part);
      if limit == 1 { StillFlat(done, part, gap); }
      done := done + (part + gap);
      parts, gaps := parts + [part], gaps + [gap];
      remaining := StripLeft(rest);
    }
    assert done == value;
    result := Parts(if parts == [] then [""] else parts);
  }

  /** One turn of the loop: what it drops, and what it leaves. */
  lemma OneTurn(value: string, limit: nat, parts: seq<string>, gaps: seq<string>, remaining: string, part: string)
    returns (gap: string)
    requires |parts| == |gaps| && WellCut(parts, gaps, value, limit) && Woven(parts, gaps) + remaining == value
    requires part <= remaining && GoodCut(remaining, limit, |part|)
    ensures Blank(gap) && WellCut(parts + [part], gaps + [gap], value, limit)
    ensures Woven(parts + [part], gaps + [gap]) == Woven(parts, gaps) + (part + gap)
    ensures Woven(parts, gaps) + (part + gap) + StripLeft(remaining[|part|..]) == value
  {
    hide StripLeft; hide Blank; hide IsBlank; hide WellCut; hide CutHere; hide GoodCut; hide Woven;
    var rest := remaining[|part|..];
    var next := StripLeft(rest);
    StripIsSuffix(rest);
    StripsAll(rest);
    gap := rest[..|rest| - |next|];
    WovenMore(parts, gaps, part, gap);
    var before := Woven(parts, gaps);
    assert remaining == part + gap + next;
    assert value == before + part + gap + next;
    CutIsHere(value, before, part, gap, next, limit);
    WellCutMore(parts, gaps, value, limit, part, gap);
  }

  lemma AstralIs(s: string)
    ensures Astral(s) <==> exists i :: 0 <= i < |s| && s[i] as int >= 0x10000
  {
  }

  lemma NothingCut(value: string, limit: nat)
    ensures WellCut([], [], value, limit)
  {
  }

  lemma NothingWoven()
    ensures Woven([], []) == "" && !Astral("")
  {
  }

  lemma HeadIsAstral(value: string, done: string, remaining: string)
    requires done + remaining == value && remaining != "" && Units(remaining[0]) == 2
    ensures Astral(value)
  {
    assert value[|done|] == remaining[0];
  }

  lemma StillFlat(done: string, part: string, gap: string)
    requires !Astral(done) && Utf16Len(part) <= 1 && Blank(gap)
    ensures !Astral(done + (part + gap))
  {
    if part != "" {
      assert |part| == 1 && part[..0] == "";
      assert Utf16Len(part) == Units(part[0]);
    }
    forall i | 0 <= i < |gap| ensures Units(gap[i]) == 1 { assert IsBlank(gap[i]); }
    var all := done + (part + gap);
    forall i | 0 <= i < |all| ensures Units(all[i]) == 1 {
      if i < |done| { assert all[i] == done[i]; }
    }
  }

  // ----- there is one way to split -----

  lemma CutIsUnique(remaining: string, limit: nat, m: nat, n: nat)
    requires GoodCut(remaining, limit, m) && GoodCut(remaining, limit, n)
    ensures m == n
  {
    var k :| LongestPrefix(remaining, limit, k) && CutAfter(remaining, k, m);
    var j :| LongestPrefix(remaining, limit, j) && CutAfter(remaining, j, n);
    hide Utf16Len;
    LongestIsLongest(remaining, limit, k, j);
    LongestIsLongest(remaining, limit, j, k);
  }

  /** The part that is due and the white space after it are determined by what came before. */
  lemma NextIsUnique(value: string, before: string, part: string, gap: string, part': string, gap': string, limit: nat)
    requires CutHere(value, before, part, gap, limit) && CutHere(value, before, part', gap', limit)
    requires Blank(gap) && Blank(gap')
    ensures part == part' && gap == gap'
  {
    CutIsUnique(value[|before|..], limit, |part|, |part'|);
    hide GoodCut; hide IsBlank;
    var n := |before + part|;
    assert value[..n] == before + part && value[..n] == before + part';
    assert part == value[|before|..n] && part' == value[|before|..n];
    assert gap == value[n..n + |gap|] && gap' == value[n..n + |gap'|];
    NotShorter(value, n, gap, gap');
    NotShorter(value, n, gap', gap);
  }

  lemma NotShorter(value: string, n: nat, gap: string, other: string)
    requires n + |gap| <= |value| && n + |other| <= |value| && other == value[n..n + |other|] && Blank(other)
    requires n + |gap| < |value| ==> !IsBlank(value[n + |gap|])
    ensures |other| <= |gap|
  {
    var k := if |gap| < |other| then |gap| else 0;
    assert k < |other| ==> other[k] == value[n + k] && IsBlank(other[k]);
  }

  lemma {:induction false} SplitIsUnique(value: string, limit: nat, parts: seq<string>, gaps: seq<string>,
          parts': seq<string>, gaps': seq<string>, k: nat)
    requires |parts| == |gaps| >= k && |parts'| == |gaps'| >= k
    requires WellCut(parts, gaps, value, limit) && WellCut(parts', gaps', value, limit)
    requires forall i :: 0 <= i < |gaps| ==> Blank(gaps[i])
    requires forall i :: 0 <= i < |gaps'| ==> Blank(gaps'[i])
    ensures parts[..k] == parts'[..k] && gaps[..k] == gaps'[..k]
  {
    hide WellCut; hide CutHere; hide Blank; hide Woven;
    if k > 0 {
      SplitIsUnique(value, limit, parts, gaps, parts', gaps', k - 1);
      CutAt(value, limit, parts, gaps, k - 1);
      CutAt(value, limit, parts', gaps', k - 1);
      NextIsUnique(value, Woven(parts[..k - 1], gaps[..k - 1]), parts[k - 1], gaps[k - 1], parts'[k - 1],
          gaps'[k - 1], limit);
      assert parts[..k] == parts[..k - 1] + [parts[k - 1]] && parts'[..k] == parts'[..k - 1] + [parts'[k - 1]];
      assert gaps[..k] == gaps[..k - 1] + [gaps[k - 1]] && gaps'[..k] == gaps'[..k - 1] + [gaps'[k - 1]];
    }
  }

  lemma {:induction false} CutAt(value: string, limit: nat, parts: seq<string>, gaps: seq<string>, k: nat)
    requires k < |parts| == |gaps| && WellCut(parts, gaps, value, limit)
    ensures CutHere(value, Woven(parts[..k], gaps[..k]), parts[k], gaps[k], limit)
    decreases |parts|
  {
    hide CutHere; hide Woven;
    var n := |parts| - 1;
    if k < n {
      CutAt(value, limit, parts[..n], gaps[..n], k);
      assert parts[..n][..k] == parts[..k] && gaps[..n][..k] == gaps[..k];
    }
  }

  lemma MoreIsEmpty(value: string, limit: nat, parts: seq<string>, gaps: seq<string>, k: nat)
    requires k <= |parts| == |gaps| && WellCut(parts, gaps, value, limit) && Woven(parts[..k], gaps[..k]) == value
    ensures k < |parts| ==> parts[k] == ""
  {
    if k < |parts| {
      CutAt(value, limit, parts, gaps, k);
      hide GoodCut; hide WellCut; hide Woven;
      assert value + parts[k] + gaps[k] <= value;
      assert |value + parts[k] + gaps[k]| == |value| + |parts[k]| + |gaps[k]|;
    }
  }

  /** Two ways to cut the same message where it should be cut are the same. */
  lemma OneSplit(value: string, limit: nat, parts: seq<string>, gaps: seq<string>, parts': seq<string>,
                 gaps': seq<string>)
    requires |parts| == |gaps| && |parts'| == |gaps'| && Woven(parts, gaps) == value == Woven(parts', gaps')
    requires WellCut(parts, gaps, value, limit) && WellCut(parts', gaps', value, limit)
    requires (forall i :: 0 <= i < |gaps| ==> Blank(gaps[i])) && forall i :: 0 <= i < |gaps'| ==> Blank(gaps'[i])
    requires (forall i :: 0 <= i < |parts| ==> parts[i] != "") && forall i :: 0 <= i < |parts'| ==> parts'[i] != ""
    ensures parts == parts' && gaps == gaps'
  {
    hide WellCut; hide Woven; hide Blank;
    var k := if |parts| < |parts'| then |parts| else |parts'|;
    SplitIsUnique(value, limit, parts, gaps, parts', gaps', k);
    assert parts[..|parts|] == parts && gaps[..|gaps|] == gaps;
    assert parts'[..|parts'|] == parts' && gaps'[..|gaps'|] == gaps';
    assert k == |parts| ==> Woven(parts'[..k], gaps'[..k]) == value;
    assert k == |parts'| ==> Woven(parts[..k], gaps[..k]) == value;
    NoneLeft(value, limit, parts, gaps, k);
    NoneLeft(value, limit, parts', gaps', k);
  }

  lemma NoneLeft(value: string, limit: nat, parts: seq<string>, gaps: seq<string>, k: nat)
    requires k <= |parts| == |gaps| && WellCut(parts, gaps, value, limit)
    requires forall i :: 0 <= i < |parts| ==> parts[i] != ""
    ensures Woven(parts[..k], gaps[..k]) == value ==> k == |parts|
  {
    hide WellCut; hide Woven;
    if Woven(parts[..k], gaps[..k]) == value { MoreIsEmpty(value, limit, parts, gaps, k); }
  }
}
