/** Parsing what was printed. */
module FrontMatterRoundTrip {
  import opened Wrappers
  import opened JsonText
  import opened TextLines
  import opened FrontMatter

  // ----- quoted strings -----

  lemma EscapeCharRead(c: char, after: string)
    ensures EscapeChar(c) != "" && (EscapeChar(c) + after)[0] != '"'
    ensures ReadCode(EscapeChar(c) + after) == Some(Head(c as int, |EscapeChar(c)|))
  {
    var text := EscapeChar(c) + after;
    if ShortEscape(c as int).Some? {
      assert text[0] == '\\' && text[1] == ShortEscape(c as int).value;
      NotAUnit(text);
    } else if c < ' ' {
      UnitOfEscape(c as int, after);
      UnitStart(c as int, after);
    } else {
      assert text[0] == c && c != '\\' && c != '"';
    }
  }

  lemma {:induction false} QuotedRead(s: string, rest: string)
    ensures ReadBody(EscapeText(s) + "\"" + rest) == Some(Read(Codes(s), rest))
    decreases |s|
  {
    hide EscapeChar; hide ReadCode;
    var text := EscapeText(s) + "\"" + rest;
    if s == "" {
      assert text[0] == '"' && text[1..] == rest;
    } else {
      var after := EscapeText(s[1..]) + "\"" + rest;
      assert text == EscapeChar(s[0]) + after;
      EscapeCharRead(s[0], after);
      assert text[|EscapeChar(s[0])|..] == after;
      QuotedRead(s[1..], rest);
      assert Codes(s) == [s[0] as int] + Codes(s[1..]);
    }
  }

  lemma ScalarBack(s: string)
    ensures ParseScalar(Quoted(s)) == Some(Codes(s))
  {
    hide EscapeText; hide ReadBody;
    assert Quoted(s)[0] == '"' && Quoted(s)[1..] == EscapeText(s) + "\"" + "";
    QuotedRead(s, "");
  }

  // ----- one field -----

  predicate NameChar(c: char) {
    'a' <= c <= 'z' || c == '_' || '0' <= c <= '9'
  }

  predicate FieldName(f: string) {
    f != "" && forall i :: 0 <= i < |f| ==> NameChar(f[i])
  }

  lemma {:induction false} ColonIs(f: string, after: string)
    requires forall i :: 0 <= i < |f| ==> NameChar(f[i])
    ensures Colon(f + ":" + after) == |f|
    decreases |f|
  {
    var line := f + ":" + after;
    if f == "" {
      assert line[0] == ':';
    } else {
      assert line[0] == f[0] && line[1..] == f[1..] + ":" + after;
      ColonIs(f[1..], after);
    }
  }

  /** A line `name:rest` is taken apart into its name and the rest. */
  lemma KeyLine(f: string, after: string)
    requires FieldName(f)
    ensures var line := f + ":" + after;
            && line != "" && !IsItem(line) && !Indented(line) && Colon(line) == |f| < |line|
            && Strip(line[..|f|]) == f && line[|f| + 1..] == after
  {
    var line := f + ":" + after;
    ColonIs(f, after);
    assert line[0] == f[0] && NameChar(f[0]) && NameChar(f[|f| - 1]);
    assert line[..|f|] == f && line[|f| + 1..] == after;
  }

  lemma TurnOfKey(f: string, after: string, rest: seq<string>, st: State)
    requires FieldName(f) && f !in st.record
    ensures Turn([f + ":" + after] + rest, st) == Assign(rest, f, StripLeft(after), st)
  {
    KeyLine(f, after);
    var lines := [f + ":" + after] + rest;
    assert lines[0] == f + ":" + after && lines[1..] == rest;
    hide Assign; hide Strip; hide StripLeft;
  }

  lemma LoopOfKey(f: string, after: string, rest: seq<string>, st: State)
    requires FieldName(f) && f !in st.record
    ensures var turn := Assign(rest, f, StripLeft(after), st);
            Loop([f + ":" + after] + rest, st) == Loop(rest[turn.1 - 1..], turn.0)
  {
    TurnOfKey(f, after, rest, st);
    hide Turn; hide Assign; hide StripLeft;
    var turn := Assign(rest, f, StripLeft(after), st);
    var lines := [f + ":" + after] + rest;
    assert lines[turn.1..] == rest[turn.1 - 1..];
  }

  lemma QuotedStart(v: string)
    ensures Quoted(v)[0] == '"' && Quoted(v)[|Quoted(v)| - 1] == '"' && |Quoted(v)| >= 2
    ensures StripLeft(" " + Quoted(v)) == Quoted(v) && Strip(Quoted(v)) == Quoted(v)
  {
    hide EscapeText;
    assert (" " + Quoted(v))[1..] == Quoted(v);
  }

  lemma ScalarLoop(f: string, v: string, rest: seq<string>, st: State)
    requires FieldName(f) && f !in st.record
    ensures Loop([ScalarLine(f, v)] + rest, st) == Loop(rest, Set(st, f, Scalar(Codes(v))))
  {
    hide Quoted; hide ParseScalar; hide StripLeft;
    assert ScalarLine(f, v) == f + ":" + (" " + Quoted(v));
    LoopOfKey(f, " " + Quoted(v), rest, st);
    QuotedStart(v);
    ScalarBack(v);
    assert rest[0..] == rest;
  }

  function CodesAll(items: seq<string>): (r: seq<Str>)
    ensures |r| == |items| && forall i :: 0 <= i < |items| ==> r[i] == Codes(items[i])
  {
    seq(|items|, i requires 0 <= i < |items| => Codes(items[i]))
  }

  lemma ItemIsIndented(line: string)
    ensures IsItem(line) ==> Indented(line)
  {
    if IsItem(line) { assert line[0] == ' '; }
  }

  lemma {:induction false} ItemsBack(items: seq<string>, rest: seq<string>, key: string)
    requires rest == [] || !Indented(rest[0])
    ensures ListItems(ItemLines(items) + rest, key) == Taken(CodesAll(items), [], |items|)
    ensures |ItemLines(items)| == |items|
    decreases |items|
  {
    hide ParseScalar; hide Strip; hide Quoted; hide Codes;
    var lines := ItemLines(items) + rest;
    if items == [] {
      assert lines == rest;
      if rest != [] { ItemIsIndented(rest[0]); }
      assert CodesAll(items) == [];
    } else {
      assert lines == [ItemLine(items[0])] + (ItemLines(items[1..]) + rest);
      assert lines[0][4..] == Quoted(items[0]) && lines[1..] == ItemLines(items[1..]) + rest;
      QuotedStart(items[0]);
      ScalarBack(items[0]);
      ItemsBack(items[1..], rest, key);
      assert CodesAll(items) == [Codes(items[0])] + CodesAll(items[1..]);
    }
  }

  lemma ListLoop(f: string, items: seq<string>, rest: seq<string>, st: State)
    requires FieldName(f) && f !in st.record && f in LISTS
    requires rest == [] || !Indented(rest[0])
    ensures Loop(ListLines(f, items) + rest, st) == Loop(rest, Set(st, f, List(CodesAll(items))))
  {
    hide Loop; hide ListItems; hide ItemLines; hide FieldName; hide LISTS;
    if items == [] {
      assert f + ": []" == f + ":" + " []";
      LoopOfKey(f, " []", rest, st);
      assert " []"[1..] == "[]";
      assert StripLeft(" []") == "[]";
      assert rest[0..] == rest && CodesAll(items) == [];
    } else {
      var lines := ItemLines(items) + rest;
      assert f + ":" + "" == f + ":";
      assert ListLines(f, items) + rest == [f + ":" + ""] + lines;
      LoopOfKey(f, "", lines, st);
      ItemsBack(items, rest, f);
      assert lines[|items|..] == rest;
      AssignList(lines, rest, f, items, st);
    }
  }

  lemma AssignList(lines: seq<string>, rest: seq<string>, f: string, items: seq<string>, st: State)
    requires f in LISTS && items != [] && (rest == [] || !Indented(rest[0]))
    requires |items| <= |lines| && lines[|items|..] == rest
    requires ListItems(lines, f) == Taken(CodesAll(items), [], |items|)
    ensures Assign(lines, f, "", st) == (Set(st, f, List(CodesAll(items))), |items| + 1)
  {
    hide ListItems; hide CodesAll;
    assert st.errors + ([] + [] + []) == st.errors;
    if |items| < |lines| { assert lines[|items|] == rest[0]; }
  }

  lemma {:induction false} BlockBack(lines: seq<string>, key: string)
    ensures Block(Indent(lines), key) == Taken(lines, [], |lines|)
    decreases |lines|
  {
    if lines != [] {
      assert Indent(lines)[0] == "  " + lines[0] && Indent(lines)[1..] == Indent(lines[1..]);
      assert Indent(lines)[0][2..] == lines[0];
      BlockBack(lines[1..], key);
    } else {
      assert Indent(lines) == [];
    }
  }

  lemma ContentLoop(content: string, st: State)
    requires CONTENT !in st.record
    ensures Loop(ContentLines(content), st) == Set(st, CONTENT, Scalar(Codes(Join(ContentOf(content)))))
  {
    hide Block; hide Join; hide ContentOf; hide Codes; hide Assign; hide Turn; hide StripLeft;
    var lines := ContentOf(content);
    assert CONTENT_LINE == CONTENT + ":" + " |-";
    assert FieldName(CONTENT);
    LoopOfKey(CONTENT, " |-", Indent(lines), st);
    StripBar();
    AssignContent(lines, st);
    assert Indent(lines)[|lines|..] == [];
  }

  lemma StripBar()
    ensures StripLeft(" |-") == "|-"
  {
    assert " |-"[1..] == "|-";
  }

  lemma AssignContent(lines: seq<string>, st: State)
    ensures Assign(Indent(lines), CONTENT, "|-", st) == (Set(st, CONTENT, Scalar(Codes(Join(lines)))), |lines| + 1)
  {
    hide Block; hide Join; hide Codes;
    BlockBack(lines, CONTENT);
    assert st.errors + [] == st.errors;
  }

  // ----- the whole record -----

  function Coded(f: Field): Parsed {
    match f
    case Plain(text) => Scalar(Codes(text))
    case Items(items) => List(CodesAll(items))
  }

  /** The parsed record holds the fields seen so far, and nothing else. */
  ghost predicate Agrees(parsed: map<string, Parsed>, r: Record, seen: seq<string>) {
    && (forall f :: f in parsed <==> f in r && f in seen)
    && (forall f :: f in parsed ==> parsed[f] == Coded(r[f]))
  }

  ghost predicate Names(fields: seq<string>) {
    && (forall i :: 0 <= i < |fields| ==> FieldName(fields[i]))
    && (forall i, j :: 0 <= i < j < |fields| ==> fields[i] != fields[j])
  }

  lemma AgreesMore(parsed: map<string, Parsed>, r: Record, seen: seq<string>, f: string)
    requires Agrees(parsed, r, seen) && f in r
    ensures Agrees(parsed[f := Coded(r[f])], r, seen + [f])
  {
    hide Coded;
  }

  lemma AgreesSkip(parsed: map<string, Parsed>, r: Record, seen: seq<string>, f: string)
    requires Agrees(parsed, r, seen) && f !in r
    ensures Agrees(parsed, r, seen + [f])
  {
    hide Coded;
  }

  lemma {:induction false} ScalarsLoop(fields: seq<string>, r: Record, rest: seq<string>, st: State, seen: seq<string>)
      returns (st': State)
    requires Names(seen + fields) && Agrees(st.record, r, seen) && forall f :: f in fields && f in r ==> r[f].Plain?
    ensures Loop(RenderScalars(fields, r) + rest, st) == Loop(rest, st')
    ensures Agrees(st'.record, r, seen + fields) && st'.errors == st.errors
    decreases |fields|
  {
    hide Loop; hide ScalarLine; hide FieldName; hide Agrees; hide Codes;
    if fields == [] {
      assert RenderScalars(fields, r) + rest == rest && seen + fields == seen;
      st' := st;
    } else {
      var f, lines := fields[0], RenderScalars(fields[1..], r) + rest;
      assert (seen + [f]) + fields[1..] == seen + fields;
      assert (seen + fields)[|seen|] == f;
      NotSeen(st.record, r, seen, fields);
      if f in r {
        assert RenderScalars(fields, r) + rest == [ScalarLine(f, r[f].text)] + lines;
        ScalarLoop(f, r[f].text, lines, st);
        AgreesMore(st.record, r, seen, f);
        st' := ScalarsLoop(fields[1..], r, rest, Set(st, f, Coded(r[f])), seen + [f]);
      } else {
        assert RenderScalars(fields, r) + rest == lines;
        AgreesSkip(st.record, r, seen, f);
        st' := ScalarsLoop(fields[1..], r, rest, st, seen + [f]);
      }
    }
  }

  lemma NotSeen(parsed: map<string, Parsed>, r: Record, seen: seq<string>, fields: seq<string>)
    requires Names(seen + fields) && fields != [] && Agrees(parsed, r, seen)
    ensures fields[0] !in parsed
  {
    hide FieldName; hide Coded;
    var all := seen + fields;
    forall i | 0 <= i < |seen| ensures seen[i] != fields[0] { assert all[i] == seen[i] && all[|seen|] == fields[0]; }
  }

  lemma {:induction false} ListsLoop(fields: seq<string>, r: Record, rest: seq<string>, st: State, seen: seq<string>)
      returns (st': State)
    requires Names(seen + fields) && Agrees(st.record, r, seen) && forall f :: f in fields && f in r ==> r[f].Items?
    requires rest != [] && !Indented(rest[0]) && forall f :: f in fields ==> f in LISTS
    ensures Loop(RenderLists(fields, r) + rest, st) == Loop(rest, st')
    ensures Agrees(st'.record, r, seen + fields) && st'.errors == st.errors
    decreases |fields|
  {
    hide Loop; hide ListLines; hide FieldName; hide Agrees; hide CodesAll; hide Indented;
    if fields == [] {
      assert RenderLists(fields, r) + rest == rest && seen + fields == seen;
      st' := st;
    } else {
      var f, lines := fields[0], RenderLists(fields[1..], r) + rest;
      assert (seen + [f]) + fields[1..] == seen + fields;
      assert (seen + fields)[|seen|] == f;
      NotSeen(st.record, r, seen, fields);
      ListsHead(fields[1..], r, rest) by { NamesTail(seen, fields); }
      if f in r {
        assert RenderLists(fields, r) + rest == ListLines(f, r[f].items) + lines;
        ListLoop(f, r[f].items, lines, st);
        AgreesMore(st.record, r, seen, f);
        st' := ListsLoop(fields[1..], r, rest, Set(st, f, Coded(r[f])), seen + [f]);
      } else {
        assert RenderLists(fields, r) + rest == lines;
        AgreesSkip(st.record, r, seen, f);
        st' := ListsLoop(fields[1..], r, rest, st, seen + [f]);
      }
    }
  }

  lemma NamesTail(seen: seq<string>, fields: seq<string>)
    requires Names(seen + fields) && fields != []
    ensures forall i :: 0 <= i < |fields[1..]| ==> FieldName(fields[1..][i])
  {
    hide FieldName;
    forall i | 0 <= i < |fields[1..]| ensures FieldName(fields[1..][i]) {
      assert (seen + fields)[|seen| + 1 + i] == fields[1..][i];
    }
  }

  /** The first line after a list is not indented. */
  lemma {:induction false} ListsHead(fields: seq<string>, r: Record, rest: seq<string>)
    requires forall i :: 0 <= i < |fields| ==> FieldName(fields[i])
    requires forall f :: f in fields && f in r ==> r[f].Items?
    requires rest != [] && !Indented(rest[0])
    ensures var lines := RenderLists(fields, r) + rest; lines != [] && !Indented(lines[0])
    decreases |fields|
  {
    if fields == [] {
      assert RenderLists(fields, r) + rest == rest;
    } else if fields[0] in r {
      var first := ListLines(fields[0], r[fields[0]].items);
      assert (RenderLists(fields, r) + rest)[0] == first[0];
      assert first[0][0] == fields[0][0] && NameChar(fields[0][0]);
    } else {
      ListsHead(fields[1..], r, rest);
      assert RenderLists(fields, r) + rest == RenderLists(fields[1..], r) + rest;
    }
  }

  // ----- the fixed field names -----

  /** The length and two characters tell the field names apart. */
  function Print(f: string): int
    requires f != ""
  {
    (|f| * 128 + f[0] as int) * 128 + f[|f| - 1] as int
  }

  const PRINTS: seq<int> := [
    46308, 80485, 96869, 127460, 129764, 113139, 96741, 162789, 258553, 113125,
    176613, 176612, 129140, 179053, 195436, 209780, 178804, 242405, 113006, 274926,
    276846, 209139, 162404, 162276, 195048, 227766, 293349, 209390, 373491, 373430,
    325736, 259950, 194932, 227694, 178675, 227833, 80499, 144101, 195059, 260595,
    162163
  ]

  const NAMES := SCALARS + LISTS

  ghost predicate NameOk(i: nat)
    requires i < |NAMES| == |PRINTS|
  {
    FieldName(NAMES[i]) && Print(NAMES[i]) == PRINTS[i]
  }

  lemma Names0(i: nat)
    requires 0 <= i < 6
    ensures FieldName(SCALARS[i]) && Print(SCALARS[i]) == PRINTS[i]
  {
  }

  lemma Names6(i: nat)
    requires 6 <= i < 12
    ensures FieldName(SCALARS[i]) && Print(SCALARS[i]) == PRINTS[i]
  {
  }

  lemma Names12(i: nat)
    requires 12 <= i < 18
    ensures FieldName(SCALARS[i]) && Print(SCALARS[i]) == PRINTS[i]
  {
  }

  lemma Names18(i: nat)
    requires 18 <= i < 23
    ensures FieldName(SCALARS[i]) && Print(SCALARS[i]) == PRINTS[i]
  {
  }

  lemma Names23(i: nat)
    requires 23 <= i < 28
    ensures FieldName(SCALARS[i]) && Print(SCALARS[i]) == PRINTS[i]
  {
  }

  lemma Names28(i: nat)
    requires 28 <= i < 34
    ensures FieldName(SCALARS[i]) && Print(SCALARS[i]) == PRINTS[i]
  {
  }

  lemma ListNames(i: nat)
    requires i < |LISTS|
    ensures FieldName(LISTS[i]) && Print(LISTS[i]) == PRINTS[|SCALARS| + i]
  {
  }

  lemma NameIsOk(i: nat)
    requires i < |NAMES|
    ensures NameOk(i)
  {
    hide FieldName; hide Print;
    if i < 6 { Names0(i); } else if i < 12 { Names6(i); } else if i < 18 { Names12(i); } else if i < 23 { Names18(i); }
    else if i < 28 { Names23(i); } else if i < 34 { Names28(i); } else { ListNames(i - 34); }
  }

  lemma PrintsApart(i: nat, j: nat)
    requires i < j < |PRINTS|
    ensures PRINTS[i] != PRINTS[j]
  {
    if i < 14 { PrintsApartLow(i, j); } else { PrintsApartHigh(i, j); }
  }

  lemma PrintsApartLow(i: nat, j: nat)
    requires i < 14 && i < j < |PRINTS|
    ensures PRINTS[i] != PRINTS[j]
  {
  }

  lemma PrintsApartHigh(i: nat, j: nat)
    requires 14 <= i < j < |PRINTS|
    ensures PRINTS[i] != PRINTS[j]
  {
  }

  lemma AllNames()
    ensures Names(NAMES)
  {
    hide FieldName; hide Print;
    forall i | 0 <= i < |NAMES| ensures FieldName(NAMES[i]) { NameIsOk(i); }
    forall i, j | 0 <= i < j < |NAMES| ensures NAMES[i] != NAMES[j] {
      NameIsOk(i);
      NameIsOk(j);
      PrintsApart(i, j);
    }
  }
}
