/**
 The other half of the round trip: a string with U+0085, U+2028 or U+2029 outside the content breaks its line, and
 the parser reports an error.  The first such string decides: the lines before it are read as they were printed,
 and what is left of its own line holds a quoted string without its end.
 */
module FrontMatterLimits {
  import opened Wrappers
  import opened JsonText
  import opened TextLines
  import opened FrontMatter
  import opened FrontMatterRoundTrip
  import opened FrontMatterFile

  // ----- errors are never taken back -----

  lemma TurnKeepsErrors(lines: seq<string>, st: State)
    requires lines != []
    ensures st.errors <= Turn(lines, st).0.errors
  {
    hide Block; hide ListItems; hide ParseScalar; hide Strip; hide StripLeft; hide Codes; hide LISTS; hide Join;
  }

  lemma {:induction false} ErrorsStay(lines: seq<string>, st: State)
    requires st.errors != []
    ensures Loop(lines, st).errors != []
    decreases |lines|
  {
    hide Turn;
    if lines != [] {
      TurnKeepsErrors(lines, st);
      var turn := Turn(lines, st);
      ErrorsStay(lines[turn.1..], turn.0);
    }
  }

  // ----- a quoted string cut off before its end -----

  lemma {:induction false} EscapeConcat(a: string, b: string)
    ensures EscapeText(a + b) == EscapeText(a) + EscapeText(b)
    decreases |a|
  {
    hide EscapeChar;
    if a == "" {
      assert a + b == b;
    } else {
      assert (a + b)[0] == a[0] && (a + b)[1..] == a[1..] + b;
      EscapeConcat(a[1..], b);
    }
  }

  /** The beginning of one escape is no code point. */
  lemma PartOfEscape(c: char, x: string)
    requires x < EscapeChar(c) && x != ""
    ensures x[0] != '"' && ReadCode(x).None?
  {
    assert x[0] == EscapeChar(c)[0] == '\\';
    if |x| >= 2 { assert x[1] == EscapeChar(c)[1] == 'u'; }
  }

  /** No part of an escaped text holds the closing quote. */
  lemma {:induction false} Unterminated(s: string, x: string)
    requires x <= EscapeText(s)
    ensures ReadBody(x).None?
    decreases |s|
  {
    hide EscapeChar; hide ReadCode;
    if x != "" {
      var head := EscapeChar(s[0]);
      assert EscapeText(s) == head + EscapeText(s[1..]);
      if |x| < |head| {
        assert x == head[..|x|];
        PartOfEscape(s[0], x);
      } else {
        var rest := x[|head|..];
        assert x == head + rest;
        assert rest == EscapeText(s[1..])[..|rest|];
        EscapeCharRead(s[0], rest);
        Unterminated(s[1..], rest);
      }
    }
  }

  lemma UnterminatedScalar(s: string, x: string)
    requires x <= EscapeText(s)
    ensures ParseScalar("\"" + x) == None
  {
    hide ReadBody; hide EscapeText;
    var value := "\"" + x;
    assert value[0] == '"' && value[1..] == x;
    Unterminated(s, x);
  }

  lemma {:induction false} StripRightIsPrefix(s: string)
    ensures StripRight(s) <= s
    decreases |s|
  {
    if s != "" && IsBlank(s[|s| - 1]) { StripRightIsPrefix(s[..|s| - 1]); }
  }

  /** Stripping a cut-off item leaves a cut-off item. */
  lemma StrippedItem(s: string)
    ensures ParseScalar(Strip("\"" + EscapeText(s))) == None
  {
    hide EscapeText; hide ParseScalar; hide StripRight;
    var value := "\"" + EscapeText(s);
    assert value[0] == '"' && StripLeft(value) == value;
    StripRightIsPrefix(value);
    QuoteStays(value);
    var stripped := StripRight(value);
    var x := stripped[1..];
    assert stripped == value[..|stripped|];
    assert stripped[0] == '"' && stripped == "\"" + x;
    assert x == EscapeText(s)[..|x|];
    UnterminatedScalar(s, x);
  }

  lemma {:induction false} QuoteStays(s: string)
    requires s != "" && s[0] == '"'
    ensures StripRight(s) != ""
    decreases |s|
  {
    if IsBlank(s[|s| - 1]) { QuoteStays(s[..|s| - 1]); }
  }

  // ----- a broken line among the lines -----

  predicate Separator(c: char) {
    c == '\U{85}' || c == '\U{2028}' || c == '\U{2029}'
  }

  /** Where a string breaks first. */
  lemma {:induction false} FirstBreak(s: string) returns (before: string, c: char, after: string)
    requires !Clean(s)
    ensures s == before + [c] + after && Clean(before) && Separator(c)
    decreases |s|
  {
    if Separator(s[0]) {
      before, c, after := "", s[0], s[1..];
      assert s == [s[0]] + s[1..];
    } else {
      assert forall x :: x in s <==> x == s[0] || x in s[1..];
      var b;
      b, c, after := FirstBreak(s[1..]);
      before := [s[0]] + b;
      assert s == [s[0]] + s[1..];
    }
  }

  lemma QuotedBreaks(before: string, c: char, after: string)
    requires Separator(c)
    ensures Quoted(before + [c] + after) == ("\"" + EscapeText(before)) + [c] + (EscapeText(after) + "\"")
  {
    EscapeOne(c);
    hide EscapeText; hide EscapeChar;
    EscapeConcat(before + [c], after);
    EscapeConcat(before, [c]);
  }

  lemma EscapeOne(c: char)
    requires Separator(c)
    ensures EscapeText([c]) == [c]
  {
    assert [c][1..] == "" && EscapeText("") == "";
    assert EscapeChar(c) == [c];
  }

  lemma SplitAtBreak(p: string, c: char, q: string)
    requires OneLine(p) && Separator(c)
    ensures SplitLines(p + [c] + q) == [p] + SplitLines(q)
  {
    hide LineEnd; hide OneLine;
    var t := p + [c] + q;
    LineEndAt(p, c, q);
    assert t[|p|..] == [c] + q && t[|p| + 1..] == q && t[..|p|] == p;
  }

  lemma {:induction false} JoinConcat(a: seq<string>, b: seq<string>)
    requires a != [] && b != []
    ensures Join(a + b) == Join(a) + "\n" + Join(b)
    decreases |a|
  {
    if |a| == 1 {
      assert (a + b)[1..] == b;
    } else {
      assert (a + b)[1..] == a[1..] + b;
      JoinConcat(a[1..], b);
    }
  }

  /** The lines of a text whose line after `a` is broken at `c`. */
  lemma BrokenLines(a: seq<string>, p: string, c: char, q: string, b: seq<string>, body: string)
      returns (rest: seq<string>)
    requires a != [] && b != [] && OneLine(p) && Separator(c) && forall i :: 0 <= i < |a| ==> OneLine(a[i])
    ensures SplitLines(Join(a + [p + [c] + q] + b) + "\n" + body) == a + [p] + rest
  {
    hide Join; hide SplitLines; hide OneLine;
    var bad := p + [c] + q;
    assert a + [bad] + b == a + ([bad] + b);
    JoinConcat(a, [bad] + b);
    JoinConcat([bad], b);
    assert Join([bad]) == bad by { JoinOne(bad); }
    var tail := q + "\n" + Join(b) + "\n" + body;
    assert Join(a + [bad] + b) + "\n" + body == Join(a) + "\n" + (p + [c] + tail);
    SplitJoined(a, p + [c] + tail);
    SplitAtBreak(p, c, tail);
    rest := SplitLines(tail);
    assert a + ([p] + rest) == a + [p] + rest;
  }

  lemma JoinOne(s: string)
    ensures Join([s]) == s
  {
  }

  /** The parser sees the lines before the break, the cut-off line, and whatever comes up to the next delimiter. */
  lemma ParseBroken(inner: seq<string>, p: string, rest: seq<string>, text: string)
    requires SplitLines(text) == ["---"] + inner + [p] + rest
    requires (forall i :: 0 <= i < |inner| ==> Inner(inner[i])) && Inner(p)
    requires forall tail :: Loop(inner + ([p] + tail), State(map[], [])).errors != []
    ensures Parse(text).Parsed? ==> Parse(text).state.errors != []
  {
    hide Loop; hide SplitLines; hide Inner; hide Delimiter;
    var lines := SplitLines(text);
    DelimiterBehind(inner, p, rest);
    assert lines[0] == "---";
    var end := Delimiter(lines, 1);
    if end < |lines| { SliceBehind(lines, inner, p, rest, end); }
  }

  lemma SliceBehind(lines: seq<string>, inner: seq<string>, p: string, rest: seq<string>, end: nat)
    requires lines == ["---"] + inner + [p] + rest && |inner| + 2 <= end <= |lines|
    ensures lines[1..end] == inner + ([p] + lines[|inner| + 2..end])
  {
  }

  lemma DelimiterBehind(inner: seq<string>, p: string, rest: seq<string>)
    requires (forall i :: 0 <= i < |inner| ==> Inner(inner[i])) && Inner(p)
    ensures Delimiter(["---"] + inner + [p] + rest, 1) >= |inner| + 2
  {
    var lines := ["---"] + inner + [p] + rest;
    forall i | 1 <= i <= |inner| + 1 ensures lines[i] != "---" {
      assert lines[i] == if i <= |inner| then inner[i - 1] else p;
      if i <= |inner| { assert Inner(inner[i - 1]); }
    }
  }

  // ----- a broken scalar field -----

  lemma BrokenScalarLoop(f: string, s: string, tail: seq<string>, st: State)
    requires FieldName(f) && f !in st.record
    ensures Loop([f + ": \"" + EscapeText(s)] + tail, st).errors != []
  {
    hide EscapeText; hide ParseScalar; hide StripLeft; hide Loop;
    var after := " \"" + EscapeText(s);
    assert f + ": \"" + EscapeText(s) == f + ":" + after;
    LoopOfKey(f, after, tail, st);
    assert StripLeft(after) == "\"" + EscapeText(s) by {
      StripBlank("\"" + EscapeText(s)); assert " " + ("\"" + EscapeText(s)) == after;
    }
    UnterminatedScalar(s, EscapeText(s));
    BadQuotedAssign(tail, f, "\"" + EscapeText(s), st);
    ErrorsStay(tail, Note(st, [BadQuoted(f)]));
    assert tail[0..] == tail;
  }

  lemma StripBlank(s: string)
    requires s != "" && s[0] == '"'
    ensures StripLeft(" " + s) == s
  {
    assert (" " + s)[1..] == s;
  }

  lemma BadQuotedAssign(rest: seq<string>, f: string, raw: string, st: State)
    requires raw != "" && raw[0] == '"' && ParseScalar(raw) == None
    ensures Assign(rest, f, raw, st) == (Note(st, [BadQuoted(f)]), 1)
  {
    hide ParseScalar;
  }

  lemma {:induction false} ScalarsConcat(a: seq<string>, b: seq<string>, r: Record)
    requires forall f :: f in a + b && f in r ==> r[f].Plain?
    ensures RenderScalars(a + b, r) == RenderScalars(a, r) + RenderScalars(b, r)
    decreases |a|
  {
    hide ScalarLine;
    if a == [] {
      assert a + b == b;
    } else {
      assert (a + b)[1..] == a[1..] + b && (a + b)[0] == a[0];
      ScalarsConcat(a[1..], b, r);
    }
  }

  ghost predicate AllClean(fields: seq<string>, r: Record) {
    forall i :: 0 <= i < |fields| && fields[i] in r ==> CleanField(r[fields[i]])
  }

  /** The first field that is not clean. */
  lemma {:induction false} FirstUnclean(fields: seq<string>, r: Record)
      returns (a: seq<string>, f: string, b: seq<string>)
    requires !AllClean(fields, r)
    ensures fields == a + [f] + b && AllClean(a, r) && f in r && !CleanField(r[f])
    decreases |fields|
  {
    hide CleanField;
    if fields[0] in r && !CleanField(r[fields[0]]) {
      a, f, b := [], fields[0], fields[1..];
    } else {
      assert !AllClean(fields[1..], r) by {
        var i :| 0 <= i < |fields| && fields[i] in r && !CleanField(r[fields[i]]);
        assert fields[1..][i - 1] == fields[i];
      }
      var rest;
      rest, f, b := FirstUnclean(fields[1..], r);
      a := [fields[0]] + rest;
      assert fields == [fields[0]] + fields[1..];
      forall i | 0 <= i < |a| && a[i] in r ensures CleanField(r[a[i]]) {
        if i > 0 { assert a[i] == rest[i - 1]; }
      }
    }
  }

  lemma CleanOf(fields: seq<string>, r: Record, f: string)
    requires AllClean(fields, r) && f in fields && f in r
    ensures CleanField(r[f])
  {
    hide CleanField;
    var i :| 0 <= i < |fields| && fields[i] == f;
  }

  lemma ScalarPartInner(a: seq<string>, r: Record)
    requires AllClean(a, r) && (forall i :: 0 <= i < |a| ==> FieldName(a[i])) && forall f :: f in a && f in r ==>
        r[f].Plain?
    ensures forall i :: 0 <= i < |RenderScalars(a, r)| ==> Inner(RenderScalars(a, r)[i])
  {
    hide CleanField; hide FieldName; hide Inner; hide AllClean;
    forall f | f in a && f in r ensures CleanField(r[f]) { CleanOf(a, r, f); }
    ScalarLinesInner(a, r);
  }

  lemma CutLineIsInner(f: string, s: string)
    requires FieldName(f) && Clean(s)
    ensures Inner(f + ": \"" + EscapeText(s)) && Inner("  - \"" + EscapeText(s))
  {
    hide EscapeText; hide Clean; hide OneLine;
    EscapedIsOneLine(s);
    assert OneLine(": \"") && OneLine("  - \"") by { CutStarts(); }
    OneLineConcat(": \"", EscapeText(s));
    OneLineConcat("  - \"", EscapeText(s));
    KeyLineIsInner(f, ": \"" + EscapeText(s));
    assert f + ": \"" + EscapeText(s) == f + (": \"" + EscapeText(s));
  }

  lemma CutStarts()
    ensures OneLine(": \"") && OneLine("  - \"")
  {
  }

  /** Names of a part of the names. */
  lemma NamesOfPart(a: seq<string>, f: string, b: seq<string>, more: seq<string>)
    requires Names(a + [f] + b + more)
    ensures Names(a) && FieldName(f) && f !in a
    ensures forall i :: 0 <= i < |a| ==> FieldName(a[i])
  {
    hide FieldName;
    var all := a + [f] + b + more;
    forall i | 0 <= i < |a| ensures all[i] == a[i] {}
    assert all[|a|] == f;
    forall i, j | 0 <= i < j < |a| ensures a[i] != a[j] { assert all[i] != all[j]; }
    forall i | 0 <= i < |a| ensures a[i] != f { assert all[i] != all[|a|]; }
  }

  /** The lines before the broken scalar are read as they are; the broken one is an error. */
  lemma ScalarsThenBreak(a: seq<string>, f: string, s: string, r: Record, tail: seq<string>)
    requires Names(a) && FieldName(f) && f !in a && forall g :: g in a && g in r ==> r[g].Plain?
    ensures Loop(RenderScalars(a, r) + ([f + ": \"" + EscapeText(s)] + tail), State(map[], [])).errors != []
  {
    hide Loop; hide EscapeText; hide RenderScalars; hide FieldName; hide Names;
    assert [] + a == a;
    var cut := [f + ": \"" + EscapeText(s)] + tail;
    var st := ScalarsLoop(a, r, cut, State(map[], []), []);
    BrokenScalarLoop(f, s, tail, st);
  }

  /** A record whose first unclean field is a scalar. */
  lemma BrokenScalar(r: Record, body: string)
    requires Shaped(r) && !AllClean(SCALARS, r)
    ensures var outcome := Parse(Render(r) + "\n" + body); outcome.Parsed? ==> outcome.state.errors != []
  {
    hide Parse; hide Render; hide AllClean; hide CleanField;
    var a, f, b := FirstUnclean(SCALARS, r);
    BrokenScalarAt(r, body, a, f, b);
  }

  lemma BrokenScalarAt(r: Record, body: string, a: seq<string>, f: string, b: seq<string>)
    requires Shaped(r) && SCALARS == a + [f] + b && AllClean(a, r) && f in r && !CleanField(r[f])
    ensures var outcome := Parse(Render(r) + "\n" + body); outcome.Parsed? ==> outcome.state.errors != []
  {
    hide Parse; hide Render; hide Inner; hide FieldName; hide Names; hide AllClean; hide Clean; hide Loop;
    hide EscapeText;
    hide RenderScalars; hide FileLines; hide Quoted;
    AllNames();
    ScalarNames(a, f, b);
    hide SCALARS; hide LISTS;
    var before, c, after := FirstBreak(r[f].text);
    var p, q := f + ": \"" + EscapeText(before), EscapeText(after) + "\"";
    CutScalar(f, before, c, after);
    ScalarLinesSplit(r, a, f, b);
    var inner := RenderScalars(a, r);
    var rest := AfterScalar(r, b);
    ScalarPartInner(a, r);
    CutLineIsInner(f, before);
    BrokenText(r, body, inner, p, c, q, rest);
    forall tail ensures Loop(inner + ([p] + tail), State(map[], [])).errors != [] {
      ScalarsThenBreak(a, f, before, r, tail);
    }
    ParseAfterBreak(r, body, inner, p, c, q, rest);
  }

  lemma ScalarNames(a: seq<string>, f: string, b: seq<string>)
    requires Names(NAMES) && SCALARS == a + [f] + b
    ensures Names(a) && FieldName(f) && f !in a && forall i :: 0 <= i < |a| ==> FieldName(a[i])
  {
    hide Names; hide FieldName;
    assert NAMES == a + [f] + b + LISTS;
    NamesOfPart(a, f, b, LISTS);
  }

  lemma CutScalar(f: string, before: string, c: char, after: string)
    requires Separator(c)
    ensures ScalarLine(f, before + [c] + after) == (f + ": \"" + EscapeText(before)) + [c] + (EscapeText(after) + "\"")
  {
    hide EscapeText;
    QuotedBreaks(before, c, after);
    hide Quoted;
    assert f + ": " + (("\"" + EscapeText(before)) + [c] + (EscapeText(after) + "\"")) ==
           (f + ": \"" + EscapeText(before)) + [c] + (EscapeText(after) + "\"");
  }

  /** The lines after a scalar field. */
  function AfterScalar(r: Record, b: seq<string>): (lines: seq<string>)
    requires Shaped(r) && forall f :: f in b ==> f in SCALARS
    ensures lines != []
  {
    RenderScalars(b, r) + (RenderLists(LISTS, r) + ContentLines(r[CONTENT].text)) + ["---"]
  }

  lemma ScalarLinesSplit(r: Record, a: seq<string>, f: string, b: seq<string>)
    requires Shaped(r) && SCALARS == a + [f] + b && f in r
    ensures FileLines(r) == (["---"] + RenderScalars(a, r)) + [ScalarLine(f, r[f].text)] + AfterScalar(r, b)
  {
    hide RenderLists; hide ContentLines; hide ScalarLine; hide RenderScalars; hide SCALARS;
    ScalarsConcat(a + [f], b, r);
    ScalarsConcat(a, [f], r);
    OneScalar(f, r);
    Regroup(RenderScalars(a, r), [ScalarLine(f, r[f].text)], RenderScalars(b, r),
            RenderLists(LISTS, r) + ContentLines(r[CONTENT].text));
  }

  lemma Regroup(x: seq<string>, y: seq<string>, z: seq<string>, rest: seq<string>)
    ensures ["---"] + (x + y + z + rest) + ["---"] == (["---"] + x) + y + (z + rest + ["---"])
  {
  }

  lemma OneScalar(f: string, r: Record)
    requires f in r && r[f].Plain?
    ensures RenderScalars([f], r) == [ScalarLine(f, r[f].text)]
  {
    assert [f][1..] == [];
  }

  lemma BrokenText(r: Record, body: string, inner: seq<string>, p: string, c: char, q: string, rest: seq<string>)
    requires Shaped(r) && FileLines(r) == (["---"] + inner) + [p + [c] + q] + rest && rest != [] && Separator(c)
    requires (forall i :: 0 <= i < |inner| ==> Inner(inner[i])) && Inner(p)
    ensures exists more :: SplitLines(Render(r) + "\n" + body) == ["---"] + inner + [p] + more
  {
    hide SplitLines; hide Join; hide InnerLines;
    var lines := ["---"] + inner;
    forall i | 0 <= i < |lines| ensures OneLine(lines[i]) {
      if i == 0 { SmallIsOneLine(); } else { assert Inner(inner[i - 1]); }
    }
    var more := BrokenLines(lines, p, c, q, rest, body);
  }

  lemma ParseAfterBreak(r: Record, body: string, inner: seq<string>, p: string, c: char, q: string, rest: seq<string>)
    requires Shaped(r) && exists more :: SplitLines(Render(r) + "\n" + body) == ["---"] + inner + [p] + more
    requires (forall i :: 0 <= i < |inner| ==> Inner(inner[i])) && Inner(p)
    requires forall tail :: Loop(inner + ([p] + tail), State(map[], [])).errors != []
    ensures var outcome := Parse(Render(r) + "\n" + body); outcome.Parsed? ==> outcome.state.errors != []
  {
    hide SplitLines; hide Join; hide InnerLines; hide Inner; hide Loop; hide Parse; hide Render;
    var more :| SplitLines(Render(r) + "\n" + body) == ["---"] + inner + [p] + more;
    ParseBroken(inner, p, more, Render(r) + "\n" + body);
  }

  // ----- a broken list item -----

  lemma {:induction false} ItemsConcat(a: seq<string>, b: seq<string>)
    ensures ItemLines(a + b) == ItemLines(a) + ItemLines(b)
    decreases |a|
  {
    hide ItemLine;
    if a == [] {
      assert a + b == b;
    } else {
      assert (a + b)[1..] == a[1..] + b && (a + b)[0] == a[0];
      ItemsConcat(a[1..], b);
    }
  }

  lemma {:induction false} ListsConcat(a: seq<string>, b: seq<string>, r: Record)
    requires forall f :: f in a + b && f in r ==> r[f].Items?
    ensures RenderLists(a + b, r) == RenderLists(a, r) + RenderLists(b, r)
    decreases |a|
  {
    hide ListLines;
    if a == [] {
      assert a + b == b;
    } else {
      assert (a + b)[1..] == a[1..] + b && (a + b)[0] == a[0];
      ListsConcat(a[1..], b, r);
    }
  }

  ghost predicate AllItemsClean(items: seq<string>) {
    forall i :: 0 <= i < |items| ==> Clean(items[i])
  }

  /** The first item that is not clean. */
  lemma {:induction false} FirstBadItem(items: seq<string>) returns (m: seq<string>, bad: string, more: seq<string>)
    requires !AllItemsClean(items)
    ensures items == m + [bad] + more && AllItemsClean(m) && !Clean(bad)
    decreases |items|
  {
    hide Clean;
    if !Clean(items[0]) {
      m, bad, more := [], items[0], items[1..];
    } else {
      assert !AllItemsClean(items[1..]) by {
        var i :| 0 <= i < |items| && !Clean(items[i]);
        assert items[1..][i - 1] == items[i];
      }
      var rest;
      rest, bad, more := FirstBadItem(items[1..]);
      m := [items[0]] + rest;
      assert items == [items[0]] + items[1..];
      forall i | 0 <= i < |m| ensures Clean(m[i]) {
        if i > 0 { assert m[i] == rest[i - 1]; }
      }
    }
  }

  /** The cut-off item is read as a list item that does not parse, whatever items stand before it. */
  lemma {:induction false} ItemsThenBreak(items: seq<string>, s: string, tail: seq<string>, key: string)
    ensures ListItems(ItemLines(items) + (["  - \"" + EscapeText(s)] + tail), key).errors != []
    decreases |items|
  {
    hide ParseScalar; hide Strip; hide EscapeText; hide Quoted;
    var cut := "  - \"" + EscapeText(s);
    var lines := ItemLines(items) + ([cut] + tail);
    if items == [] {
      assert lines == [cut] + tail && lines[0] == cut;
      assert cut[4..] == "\"" + EscapeText(s);
      StrippedItem(s);
    } else {
      assert lines[0] == ItemLine(items[0]) && lines[1..] == ItemLines(items[1..]) + ([cut] + tail);
      ItemsThenBreak(items[1..], s, tail, key);
    }
  }

  lemma ListErrorsKept(rest: seq<string>, f: string, st: State)
    requires ListItems(rest, f).errors != []
    ensures Assign(rest, f, "", st).0.errors != []
  {
    hide ListItems; hide LISTS;
  }

  lemma BrokenListLoop(f: string, items: seq<string>, s: string, tail: seq<string>, st: State)
    requires FieldName(f) && f !in st.record
    ensures Loop([f + ":"] + (ItemLines(items) + (["  - \"" + EscapeText(s)] + tail)), st).errors != []
  {
    hide Loop; hide EscapeText; hide ItemLines; hide ListItems; hide Assign; hide FieldName;
    var lines := ItemLines(items) + (["  - \"" + EscapeText(s)] + tail);
    assert f + ":" + "" == f + ":";
    LoopOfKey(f, "", lines, st);
    ItemsThenBreak(items, s, tail, f);
    ListErrorsKept(lines, f, st);
    assert StripLeft("") == "";
    var turn := Assign(lines, f, "", st);
    ErrorsStay(lines[turn.1 - 1..], turn.0);
  }

  /** The scalars and the lists before the broken one are read as they are; the broken one is an error. */
  lemma ListsThenBreak(a: seq<string>, f: string, items: seq<string>, s: string, r: Record, tail: seq<string>)
    requires Names([] + SCALARS) && Names(SCALARS + a) && FieldName(f) && f !in SCALARS + a
    requires Shaped(r) && forall g :: g in a ==> g in LISTS
    ensures var cut := [f + ":"] + (ItemLines(items) + (["  - \"" + EscapeText(s)] + tail));
            Loop(RenderScalars(SCALARS, r) + (RenderLists(a, r) + cut), State(map[], [])).errors != []
  {
    hide Loop; hide EscapeText; hide RenderScalars; hide RenderLists; hide Names; hide ItemLines;
    hide SCALARS; hide LISTS;
    var cut := [f + ":"] + (ItemLines(items) + (["  - \"" + EscapeText(s)] + tail));
    assert cut[0] == f + ":" && !Indented(cut[0]) by { assert cut[0][0] == f[0] && NameChar(f[0]); }
    hide FieldName;
    var start := State(map[], []);
    assert [] + SCALARS == SCALARS;
    var one := ScalarsLoop(SCALARS, r, RenderLists(a, r) + cut, start, []);
    var two := ListsLoop(a, r, cut, one, SCALARS);
    BrokenListLoop(f, items, s, tail, two);
  }

  lemma ListNamesOf(a: seq<string>, f: string, b: seq<string>)
    requires LISTS == a + [f] + b
    ensures Names([] + SCALARS) && Names(SCALARS + a) && FieldName(f) && f !in SCALARS + a
    ensures forall i :: 0 <= i < |SCALARS| ==> FieldName(SCALARS[i])
    ensures forall i :: 0 <= i < |a| ==> FieldName(a[i])
  {
    AllNames();
    NamesOfParts();
    hide Names; hide FieldName; hide SCALARS; hide LISTS;
    assert NAMES == (SCALARS + a) + [f] + b + [];
    NamesOfPart(SCALARS + a, f, b, []);
    forall i | 0 <= i < |a| ensures FieldName(a[i]) { assert (SCALARS + a)[|SCALARS| + i] == a[i]; }
  }

  lemma CutItem(before: string, c: char, after: string)
    requires Separator(c)
    ensures ItemLine(before + [c] + after) == ("  - \"" + EscapeText(before)) + [c] + (EscapeText(after) + "\"")
  {
    hide EscapeText;
    QuotedBreaks(before, c, after);
    hide Quoted;
    assert "  - " + (("\"" + EscapeText(before)) + [c] + (EscapeText(after) + "\"")) ==
           ("  - \"" + EscapeText(before)) + [c] + (EscapeText(after) + "\"");
  }

  /** The lines before a broken list item. */
  function BeforeItem(r: Record, a: seq<string>, f: string, m: seq<string>): seq<string>
    requires Shaped(r) && forall g :: g in a ==> g in LISTS
  {
    RenderScalars(SCALARS, r) + (RenderLists(a, r) + ([f + ":"] + ItemLines(m)))
  }

  function AfterItem(r: Record, b: seq<string>, more: seq<string>): (lines: seq<string>)
    requires Shaped(r) && forall g :: g in b ==> g in LISTS
    ensures lines != []
  {
    ItemLines(more) + (RenderLists(b, r) + ContentLines(r[CONTENT].text)) + ["---"]
  }

  lemma OneList(f: string, r: Record)
    requires f in r && r[f].Items?
    ensures RenderLists([f], r) == ListLines(f, r[f].items)
  {
    hide ListLines;
    assert [f][1..] == [];
  }

  lemma OneItem(v: string)
    ensures ItemLines([v]) == [ItemLine(v)]
  {
    hide ItemLine;
    assert [v][1..] == [];
  }

  lemma ItemsSplit(m: seq<string>, bad: string, more: seq<string>)
    ensures ItemLines(m + [bad] + more) == ItemLines(m) + [ItemLine(bad)] + ItemLines(more)
  {
    hide ItemLine; hide ItemLines;
    ItemsConcat(m + [bad], more);
    ItemsConcat(m, [bad]);
    OneItem(bad);
  }

  lemma ListLinesSplit(f: string, items: seq<string>, m: seq<string>, bad: string, more: seq<string>)
    requires items == m + [bad] + more
    ensures ListLines(f, items) == ([f + ":"] + ItemLines(m)) + [ItemLine(bad)] + ItemLines(more)
  {
    hide ItemLine; hide ItemLines;
    ItemsSplit(m, bad, more);
    assert items != [];
  }

  lemma ItemLinesSplit(r: Record, a: seq<string>, f: string, b: seq<string>, m: seq<string>, bad: string,
          more: seq<string>)
    requires Shaped(r) && LISTS == a + [f] + b && f in r && r[f].items == m + [bad] + more
    ensures FileLines(r) == (["---"] + BeforeItem(r, a, f, m)) + [ItemLine(bad)] + AfterItem(r, b, more)
  {
    hide RenderScalars; hide ContentLines; hide ItemLine; hide ItemLines;
    ListsConcat(a + [f], b, r);
    ListsConcat(a, [f], r);
    OneList(f, r);
    ListLinesSplit(f, r[f].items, m, bad, more);
    hide RenderLists; hide ListLines; hide SCALARS;
  }

  lemma BeforeItemInner(r: Record, a: seq<string>, f: string, m: seq<string>)
    requires Shaped(r) && (forall g :: g in a ==> g in LISTS) && AllClean(SCALARS, r) && AllClean(a, r)
        && AllItemsClean(m)
    requires FieldName(f) && (forall i :: 0 <= i < |SCALARS| ==> FieldName(SCALARS[i]))
        && forall i :: 0 <= i < |a| ==> FieldName(a[i])
    ensures forall i :: 0 <= i < |BeforeItem(r, a, f, m)| ==> Inner(BeforeItem(r, a, f, m)[i])
  {
    hide CleanField; hide FieldName; hide Inner; hide AllClean; hide SCALARS; hide LISTS;
    hide RenderScalars; hide RenderLists; hide ItemLines; hide Clean;
    ScalarPartInner(SCALARS, r);
    forall g | g in a && g in r ensures CleanField(r[g]) { CleanOf(a, r, g); }
    ListLinesInner(a, r);
    ItemLinesInner(m);
    SmallIsOneLine();
    KeyLineIsInner(f, ":");
  }

  lemma BrokenItemAt(r: Record, body: string, a: seq<string>, f: string, b: seq<string>, m: seq<string>, bad: string,
          more: seq<string>)
    requires Shaped(r) && AllClean(SCALARS, r) && LISTS == a + [f] + b && AllClean(a, r)
    requires f in r && r[f].items == m + [bad] + more && AllItemsClean(m) && !Clean(bad)
    ensures var outcome := Parse(Render(r) + "\n" + body); outcome.Parsed? ==> outcome.state.errors != []
  {
    hide Parse; hide Render; hide Inner; hide FieldName; hide Names; hide AllClean; hide Clean; hide Loop;
    hide EscapeText;
    hide RenderScalars; hide RenderLists; hide ItemLines; hide FileLines; hide Quoted; hide AllItemsClean;
    hide AfterItem;
    ListNamesOf(a, f, b);
    hide SCALARS; hide LISTS;
    var before, c, after := FirstBreak(bad);
    var p, q := "  - \"" + EscapeText(before), EscapeText(after) + "\"";
    CutItem(before, c, after);
    ItemLinesSplit(r, a, f, b, m, bad, more);
    var inner, rest := BeforeItem(r, a, f, m), AfterItem(r, b, more);
    BeforeItemInner(r, a, f, m);
    CutLineIsInner(f, before);
    BrokenText(r, body, inner, p, c, q, rest);
    forall tail ensures Loop(inner + ([p] + tail), State(map[], [])).errors != [] {
      ListsThenBreak(a, f, m, before, r, tail);
      BeforeItemThen(r, a, f, m, [p] + tail);
    }
    ParseAfterBreak(r, body, inner, p, c, q, rest);
  }

  lemma BeforeItemThen(r: Record, a: seq<string>, f: string, m: seq<string>, tail: seq<string>)
    requires Shaped(r) && forall g :: g in a ==> g in LISTS
    ensures BeforeItem(r, a, f, m) + tail ==
        RenderScalars(SCALARS, r) + (RenderLists(a, r) + ([f + ":"] + (ItemLines(m) + tail)))
  {
    hide RenderScalars; hide RenderLists; hide ItemLines; hide SCALARS; hide LISTS;
  }

  /** A record whose first unclean string is in a list. */
  lemma BrokenItem(r: Record, body: string)
    requires Shaped(r) && AllClean(SCALARS, r) && !AllClean(LISTS, r)
    ensures var outcome := Parse(Render(r) + "\n" + body); outcome.Parsed? ==> outcome.state.errors != []
  {
    hide Parse; hide Render; hide AllClean; hide CleanField;
    var a, f, b := FirstUnclean(LISTS, r);
    ItemsOfUnclean(r[f]);
    hide LISTS; hide SCALARS;
    var m, bad, more := FirstBadItem(r[f].items);
    BrokenItemAt(r, body, a, f, b, m, bad, more);
  }

  lemma ItemsOfUnclean(f: Field)
    ensures f.Items? && !CleanField(f) ==> !AllItemsClean(f.items)
  {
  }

  // ----- both directions -----

  /** Every field but the content free of U+0085, U+2028 and U+2029. */
  ghost predicate Unbroken(r: Record) {
    forall f :: f in r && f != CONTENT ==> CleanField(r[f])
  }

  lemma UncleanPart(r: Record)
    requires (forall f :: f in r ==> f in NAMES || f == CONTENT) && !Unbroken(r)
    ensures !AllClean(SCALARS, r) || !AllClean(LISTS, r)
  {
    hide CleanField; hide SCALARS; hide LISTS;
    var f :| f in r && f != CONTENT && !CleanField(r[f]);
    assert f in SCALARS || f in LISTS;
  }

  /** A string with a line separator outside the content is never accepted silently. */
  lemma BrokenIsReported(r: Record, body: string)
    requires Shaped(r) && (forall f :: f in r ==> f in NAMES || f == CONTENT) && !Unbroken(r)
    ensures var outcome := Parse(Render(r) + "\n" + body); outcome.Parsed? ==> outcome.state.errors != []
  {
    hide Parse; hide Render; hide AllClean; hide Unbroken; hide SCALARS; hide LISTS; hide CleanField;
    UncleanPart(r);
    if !AllClean(SCALARS, r) { BrokenScalar(r, body); } else { BrokenItem(r, body); }
  }

  /** The round trip of every record the printer takes. */
  lemma RoundTripExactly(r: Record, body: string)
    requires Shaped(r) && forall f :: f in r ==> f in NAMES || f == CONTENT
    ensures (exists st :: Parse(Render(r) + "\n" + body) == Outcome.Parsed(st) && st.errors == [] && Same(st.record, r))
       <==> Unbroken(r) && r[CONTENT].text == Join(ContentOf(r[CONTENT].text))
  {
    hide Parse; hide Render; hide ContentOf; hide Join; hide Same; hide CleanField; hide SCALARS; hide LISTS;
    if Unbroken(r) { RoundTripIff(r, body); } else { BrokenIsReported(r, body); }
  }
}
