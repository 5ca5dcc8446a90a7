/** Whole memory files: printing, parsing, and replacing the front matter of an existing file. */
module FrontMatterFile {
  import opened Wrappers
  import opened JsonText
  import opened TextLines
  import opened FrontMatter
  import opened FrontMatterRoundTrip

  // ----- the methods -----

  /** parse_front_matter, with its index. */
  method ParseFrontMatter(text: string) returns (outcome: Outcome)
    ensures outcome == Parse(text)
  {
    var lines := SplitLines(text);
    if lines == [] || lines[0] != "---" { return MissingOpening; }
    var end := 1;
    while end < |lines| && lines[end] != "---"
      invariant 1 <= end <= |lines| && Delimiter(lines, end) == Delimiter(lines, 1)
    {
      end := end + 1;
    }
    if end == |lines| { return Unclosed; }
    var st := ParseLines(lines[1..end]);
    return Outcome.Parsed(st);
  }

  method ParseLines(front: seq<string>) returns (st: State)
    ensures st == Loop(front, State(map[], []))
  {
    hide Turn;
    st := State(map[], []);
    ghost var whole := Loop(front, st);
    var i := 0;
    assert front[0..] == front;
    while i < |front|
      invariant 0 <= i <= |front| && Loop(front[i..], st) == whole
    {
      var size;
      st, size := ParseLine(front, i, st);
      assert front[i..][size..] == front[i + size..];
      i := i + size;
    }
  }

  /** One turn: the line at i, together with the block or list below it. */
  method ParseLine(front: seq<string>, i: nat, st: State) returns (next: State, size: nat)
    requires i < |front|
    ensures (next, size) == Turn(front[i..], st) && 1 <= size && i + size <= |front|
  {
    hide Block; hide ListItems;
    var line := front[i];
    assert front[i..][0] == line && front[i..][1..] == front[i + 1..];
    if line == "" { return st, 1; }
    if IsItem(line) { return Note(st, [ItemOutsideList]), 1; }
    if Indented(line) { return Note(st, [Nested]), 1; }
    var colon := Colon(line);
    if colon == |line| { return Note(st, [NoColon]), 1; }
    var key, raw := Strip(line[..colon]), StripLeft(line[colon + 1..]);
    hide Assign; hide Strip; hide StripLeft;
    next, size := AssignLine(front, i + 1, key, raw, if key in st.record then Note(st, [DuplicateKey(key)]) else st);
  }

  method AssignLine(front: seq<string>, start: nat, key: string, raw: string, st: State)
      returns (next: State, size: nat)
    requires start <= |front|
    ensures (next, size) == Assign(front[start..], key, raw, st) && 1 <= size && start - 1 + size <= |front|
  {
    hide Block; hide ListItems; hide LISTS;
    if raw == "|-" || raw == "|" {
      var block := TakeBlock(front, start, key);
      return Set(Note(st, block.errors), key, Scalar(Codes(Join(block.values)))), block.size + 1;
    }
    if raw == "" {
      var list := TakeItems(front, start, key);
      var after := start + list.size;
      var errors := list.errors;
      size := list.size + 1;
      if after < |front| && Indented(front[after]) {
        errors := errors + [NestedUnder(key)];
        size := size + 1;
      }
      if list.values == [] && key !in LISTS { errors := errors + [EmptyValue(key)]; }
      assert after < |front| ==> front[start..][list.size] == front[after];
      assert errors == list.errors
        + (if after < |front| && Indented(front[after]) then [NestedUnder(key)] else [])
        + (if list.values == [] && key !in LISTS then [EmptyValue(key)] else []);
      return Set(Note(st, errors), key, List(list.values)), size;
    }
    if raw == "[]" { return Set(st, key, List([])), 1; }
    var value := ParseScalar(raw);
    return if value.Some? then Set(st, key, Scalar(value.value)) else Note(st, [BadQuoted(key)]), 1;
  }

  function Prepend<T>(values: seq<T>, errors: seq<ParseError>, size: nat, rest: Taken<T>): Taken<T> {
    Taken(values + rest.values, errors + rest.errors, size + rest.size)
  }

  method TakeBlock(front: seq<string>, start: nat, key: string) returns (block: Taken<string>)
    requires start <= |front|
    ensures block == Block(front[start..], key)
  {
    hide Block; hide Prepend; hide Indented;
    ghost var whole := Block(front[start..], key);
    var values, errors, i := [], [], start;
    PrependNothing(whole);
    while i < |front| && Indented(front[i])
      invariant start <= i <= |front|
      invariant Prepend(values, errors, i - start, Block(front[i..], key)) == whole
    {
      LineTurn(values, errors, i - start, front, i, key);
      if "  " <= front[i] {
        values := values + [front[i][2..]];
      } else {
        errors := errors + [Indentation(key)];
      }
      i := i + 1;
    }
    block := Taken(values, errors, i - start);
    BlockEnd(front, i, key);
    PrependToNothing(values, errors, i - start);
  }

  lemma BlockFrom(front: seq<string>, i: nat, key: string)
    requires i < |front| && Indented(front[i])
    ensures Block(front[i..], key) ==
      if "  " <= front[i] then Prepend([front[i][2..]], [], 1, Block(front[i + 1..], key))
      else Prepend([], [Indentation(key)], 1, Block(front[i + 1..], key))
  {
    assert front[i..][0] == front[i] && front[i..][1..] == front[i + 1..];
    var rest := Block(front[i + 1..], key);
    assert [] + rest.errors == rest.errors && [] + rest.values == rest.values;
  }

  lemma LineTurn(values: seq<string>, errors: seq<ParseError>, n: nat, front: seq<string>, i: nat, key: string)
    requires i < |front| && Indented(front[i])
    ensures Prepend(values, errors, n, Block(front[i..], key)) ==
      if "  " <= front[i] then Prepend(values + [front[i][2..]], errors, n + 1, Block(front[i + 1..], key))
      else Prepend(values, errors + [Indentation(key)], n + 1, Block(front[i + 1..], key))
  {
    hide Block; hide Prepend; hide Indented;
    BlockFrom(front, i, key);
    var rest := Block(front[i + 1..], key);
    if "  " <= front[i] {
      PrependTwice(values, errors, n, [front[i][2..]], [], 1, rest);
      assert errors + [] == errors;
    } else {
      PrependTwice(values, errors, n, [], [Indentation(key)], 1, rest);
      assert values + [] == values;
    }
  }

  lemma BlockEnd(front: seq<string>, i: nat, key: string)
    requires i <= |front| && (i < |front| ==> !Indented(front[i]))
    ensures Block(front[i..], key) == Taken([], [], 0)
  {
  }

  lemma PrependTwice<T>(a: seq<T>, e: seq<ParseError>, n: nat, b: seq<T>, f: seq<ParseError>, m: nat, rest: Taken<T>)
    ensures Prepend(a, e, n, Prepend(b, f, m, rest)) == Prepend(a + b, e + f, n + m, rest)
  {
  }

  lemma ItemsFrom(front: seq<string>, i: nat, key: string)
    requires i < |front| && IsItem(front[i])
    ensures ListItems(front[i..], key) ==
      var item := ParseScalar(Strip(front[i][4..]));
      if item.Some? then Prepend([item.value], [], 1, ListItems(front[i + 1..], key))
      else Prepend([], [BadItem(key)], 1, ListItems(front[i + 1..], key))
  {
    hide ParseScalar; hide Strip;
    assert front[i..][0] == front[i] && front[i..][1..] == front[i + 1..];
    var rest := ListItems(front[i + 1..], key);
    assert [] + rest.errors == rest.errors && [] + rest.values == rest.values;
  }

  lemma ItemTurn(values: seq<Str>, errors: seq<ParseError>, n: nat, front: seq<string>, i: nat, key: string)
    requires i < |front| && IsItem(front[i])
    ensures Prepend(values, errors, n, ListItems(front[i..], key)) ==
      var item := ParseScalar(Strip(front[i][4..]));
      if item.Some? then Prepend(values + [item.value], errors, n + 1, ListItems(front[i + 1..], key))
      else Prepend(values, errors + [BadItem(key)], n + 1, ListItems(front[i + 1..], key))
  {
    hide ListItems; hide Prepend; hide ParseScalar; hide Strip;
    ItemsFrom(front, i, key);
    var rest := ListItems(front[i + 1..], key);
    var item := ParseScalar(Strip(front[i][4..]));
    if item.Some? {
      PrependTwice(values, errors, n, [item.value], [], 1, rest);
      assert errors + [] == errors;
    } else {
      PrependTwice(values, errors, n, [], [BadItem(key)], 1, rest);
      assert values + [] == values;
    }
  }

  method TakeItems(front: seq<string>, start: nat, key: string) returns (list: Taken<Str>)
    requires start <= |front|
    ensures list == ListItems(front[start..], key)
  {
    hide ParseScalar; hide Strip; hide ListItems; hide Prepend;
    ghost var whole := ListItems(front[start..], key);
    var values, errors, i := [], [], start;
    PrependNothing(whole);
    while i < |front| && IsItem(front[i])
      invariant start <= i <= |front|
      invariant Prepend(values, errors, i - start, ListItems(front[i..], key)) == whole
    {
      ItemTurn(values, errors, i - start, front, i, key);
      var item := ParseScalar(Strip(front[i][4..]));
      if item.Some? {
        values := values + [item.value];
      } else {
        errors := errors + [BadItem(key)];
      }
      i := i + 1;
    }
    list := Taken(values, errors, i - start);
    ItemsEnd(front, i, key);
    PrependToNothing(values, errors, i - start);
  }

  lemma PrependNothing<T>(rest: Taken<T>)
    ensures Prepend([], [], 0, rest) == rest
  {
  }

  lemma PrependToNothing<T>(values: seq<T>, errors: seq<ParseError>, n: nat)
    ensures Prepend(values, errors, n, Taken([], [], 0)) == Taken(values, errors, n)
  {
  }

  lemma ItemsEnd(front: seq<string>, i: nat, key: string)
    requires i <= |front| && (i < |front| ==> !IsItem(front[i]))
    ensures ListItems(front[i..], key) == Taken([], [], 0)
  {
  }

  // ----- records without line separators in their strings -----

  predicate Clean(s: string) {
    '\U{85}' !in s && '\U{2028}' !in s && '\U{2029}' !in s
  }

  predicate CleanField(f: Field) {
    match f
    case Plain(text) => Clean(text)
    case Items(items) => forall i :: 0 <= i < |items| ==> Clean(items[i])
  }

  /** Only fields the printer knows; every string but the content free of U+0085, U+2028 and U+2029. */
  ghost predicate Printable(r: Record) {
    && Shaped(r)
    && (forall f :: f in r ==> f in NAMES || f == CONTENT)
    && (forall f :: f in r && f != CONTENT ==> CleanField(r[f]))
  }

  /** A line inside the front matter: unbroken, and not the delimiter. */
  ghost predicate Inner(line: string) {
    OneLine(line) && line != "" && line[0] != '-'
  }

  lemma OneLineConcat(a: string, b: string)
    requires OneLine(a) && OneLine(b)
    ensures OneLine(a + b)
  {
  }

  lemma {:induction false} EscapedIsOneLine(s: string)
    requires Clean(s)
    ensures OneLine(EscapeText(s))
    decreases |s|
  {
    if s != "" {
      EscapedIsOneLine(s[1..]);
      assert s[0] in s;
      EscapedCharIsOneLine(s[0]);
      hide EscapeChar;
      OneLineConcat(EscapeChar(s[0]), EscapeText(s[1..]));
    }
  }

  lemma EscapedCharIsOneLine(c: char)
    requires c != '\U{85}' && c != '\U{2028}' && c != '\U{2029}'
    ensures OneLine(EscapeChar(c))
  {
  }

  lemma QuotedIsOneLine(s: string)
    requires Clean(s)
    ensures OneLine(Quoted(s))
  {
    hide EscapeText;
    EscapedIsOneLine(s);
    OneLineConcat("\"", EscapeText(s));
    OneLineConcat("\"" + EscapeText(s), "\"");
  }

  lemma NameIsOneLine(f: string)
    requires FieldName(f)
    ensures OneLine(f) && f[0] != '-'
  {
    forall i | 0 <= i < |f| ensures !IsBreak(f[i]) { assert NameChar(f[i]); }
    assert NameChar(f[0]);
  }

  lemma KeyLineIsInner(f: string, after: string)
    requires FieldName(f) && OneLine(after)
    ensures Inner(f + after)
  {
    NameIsOneLine(f);
    OneLineConcat(f, after);
  }

  lemma {:induction false} ScalarLinesInner(fields: seq<string>, r: Record)
    requires forall i :: 0 <= i < |fields| ==> FieldName(fields[i])
    requires forall f :: f in fields && f in r ==> r[f].Plain? && CleanField(r[f])
    ensures forall i :: 0 <= i < |RenderScalars(fields, r)| ==> Inner(RenderScalars(fields, r)[i])
    decreases |fields|
  {
    hide Inner; hide FieldName; hide Quoted; hide Clean;
    if fields != [] {
      ScalarLinesInner(fields[1..], r);
      var f := fields[0];
      if f in r {
        QuotedIsOneLine(r[f].text);
        OneLineConcat(": ", Quoted(r[f].text));
        KeyLineIsInner(f, ": " + Quoted(r[f].text));
        assert ScalarLine(f, r[f].text) == f + (": " + Quoted(r[f].text));
      }
    }
  }

  lemma {:induction false} ItemLinesInner(items: seq<string>)
    requires forall i :: 0 <= i < |items| ==> Clean(items[i])
    ensures forall i :: 0 <= i < |ItemLines(items)| ==> Inner(ItemLines(items)[i])
    decreases |items|
  {
    hide Quoted; hide Clean; hide OneLine;
    if items != [] {
      ItemLinesInner(items[1..]);
      QuotedIsOneLine(items[0]);
      assert OneLine("  - ") by { SmallIsOneLine(); }
      OneLineConcat("  - ", Quoted(items[0]));
      assert ItemLine(items[0])[0] == ' ';
    }
  }

  lemma SmallIsOneLine()
    ensures OneLine("  - ") && OneLine("  ") && OneLine(": []") && OneLine(":") && OneLine("---")
        && OneLine(CONTENT_LINE)
  {
  }

  lemma {:induction false} ListLinesInner(fields: seq<string>, r: Record)
    requires forall i :: 0 <= i < |fields| ==> FieldName(fields[i])
    requires forall f :: f in fields && f in r ==> r[f].Items? && CleanField(r[f])
    ensures forall i :: 0 <= i < |RenderLists(fields, r)| ==> Inner(RenderLists(fields, r)[i])
    decreases |fields|
  {
    hide Inner; hide FieldName; hide ItemLines; hide Clean;
    if fields != [] {
      ListLinesInner(fields[1..], r);
      var f := fields[0];
      if f in r {
        SmallIsOneLine();
        KeyLineIsInner(f, ":");
        KeyLineIsInner(f, ": []");
        ItemLinesInner(r[f].items);
      }
    }
  }

  lemma ContentLinesInner(content: string)
    ensures forall i :: 0 <= i < |ContentLines(content)| ==> Inner(ContentLines(content)[i])
  {
    hide ContentOf; hide OneLine;
    SmallIsOneLine();
    var lines := ContentOf(content);
    forall i | 0 <= i < |lines| ensures Inner("  " + lines[i]) { OneLineConcat("  ", lines[i]); }
    assert CONTENT_LINE[0] == 'c';
  }

  lemma NamesOfParts()
    ensures Names([] + SCALARS) && Names(SCALARS + LISTS)
    ensures forall i :: 0 <= i < |SCALARS| ==> FieldName(SCALARS[i])
    ensures forall i :: 0 <= i < |LISTS| ==> FieldName(LISTS[i])
  {
    AllNames();
    hide FieldName;
    NamesParts(SCALARS, LISTS);
  }

  lemma NamesParts(a: seq<string>, b: seq<string>)
    requires Names(a + b)
    ensures Names([] + a)
    ensures forall i :: 0 <= i < |a| ==> FieldName(a[i])
    ensures forall i :: 0 <= i < |b| ==> FieldName(b[i])
  {
    hide FieldName;
    forall i | 0 <= i < |a| ensures (a + b)[i] == a[i] {}
    forall i | 0 <= i < |b| ensures (a + b)[|a| + i] == b[i] {}
    forall i, j | 0 <= i < j < |a| ensures a[i] != a[j] { assert (a + b)[i] == a[i] && (a + b)[j] == a[j]; }
  }

  // ----- the round trip -----

  /** The parsed record has the fields of the record, with their code points. */
  ghost predicate Same(parsed: map<string, Parsed>, r: Record) {
    && (forall f :: f in parsed <==> f in r)
    && (forall f :: f in parsed ==> parsed[f] == Coded(r[f]))
  }

  /** The record with its content's line ends unified. */
  function Normal(r: Record): Record
    requires CONTENT in r && r[CONTENT].Plain?
  {
    r[CONTENT := Plain(Join(ContentOf(r[CONTENT].text)))]
  }

  lemma ContentIsNoName()
    ensures CONTENT !in NAMES
  {
    assert Print(CONTENT) == (7 * 128 + 99) * 128 + 116;
    forall i | 0 <= i < |NAMES| ensures NAMES[i] != CONTENT {
      NameIsOk(i);
      NoSuchPrint(i);
    }
  }

  lemma NoSuchPrint(i: nat)
    requires i < |PRINTS|
    ensures PRINTS[i] != (7 * 128 + 99) * 128 + 116
  {
  }

  lemma LoopOfInner(r: Record) returns (st: State)
    requires Printable(r)
    ensures Loop(InnerLines(r), State(map[], [])) == st
    ensures st.errors == [] && Same(st.record, Normal(r))
  {
    hide Loop; hide Names; hide ContentOf; hide CleanField; hide Coded; hide Codes; hide RenderScalars;
    hide RenderLists;
    NamesOfParts();
    ContentIsNoName();
    hide SCALARS; hide LISTS;
    var start := State(map[], []);
    var content := r[CONTENT].text;
    var tail := ContentLines(content);
    assert !Indented(tail[0]) by { assert CONTENT_LINE[0] == 'c'; }
    var one := ScalarsLoop(SCALARS, r, RenderLists(LISTS, r) + tail, start, []);
    assert [] + SCALARS == SCALARS;
    var two := ListsLoop(LISTS, r, tail, one, SCALARS);
    ContentLoop(content, two);
    st := Loop(tail, two);
    SameAtEnd(two.record, r);
    CodedPlain(Join(ContentOf(content)));
  }

  lemma CodedPlain(s: string)
    ensures Coded(Plain(s)) == Scalar(Codes(s))
  {
  }

  lemma SameAtEnd(parsed: map<string, Parsed>, r: Record)
    requires Printable(r) && Agrees(parsed, r, NAMES) && CONTENT !in NAMES
    ensures CONTENT !in parsed
    ensures Same(parsed[CONTENT := Coded(Normal(r)[CONTENT])], Normal(r))
  {
    hide Coded; hide ContentOf; hide NAMES;
  }

  lemma InnerLinesInner(r: Record)
    requires Printable(r)
    ensures forall i :: 0 <= i < |InnerLines(r)| ==> Inner(InnerLines(r)[i])
  {
    hide Inner; hide FieldName; hide CleanField; hide RenderScalars; hide RenderLists; hide ContentLines; hide Names;
    NamesOfParts();
    PrintableParts(r);
    ScalarLinesInner(SCALARS, r);
    ListLinesInner(LISTS, r);
    ContentLinesInner(r[CONTENT].text);
  }

  lemma PrintableParts(r: Record)
    requires Printable(r)
    ensures forall f :: f in SCALARS && f in r ==> r[f].Plain? && CleanField(r[f])
    ensures forall f :: f in LISTS && f in r ==> r[f].Items? && CleanField(r[f])
  {
    hide CleanField;
    ContentIsNoName();
    assert forall f :: f in SCALARS ==> f in NAMES;
    assert forall f :: f in LISTS ==> f in NAMES;
  }

  function FileLines(r: Record): (lines: seq<string>)
    requires Shaped(r)
    ensures lines != []
  {
    ["---"] + InnerLines(r) + ["---"]
  }

  lemma FileLinesOneLine(r: Record)
    requires Printable(r) && Shaped(r)
    ensures forall i :: 0 <= i < |FileLines(r)| ==> OneLine(FileLines(r)[i])
  {
    hide OneLine; hide InnerLines;
    InnerLinesInner(r);
    SmallIsOneLine();
  }

  lemma {:induction false} DelimiterAfter(inner: seq<string>, lines: seq<string>, k: nat)
    requires forall i :: 0 <= i < |inner| ==> Inner(inner[i])
    requires k + |inner| < |lines| && lines[k..k + |inner|] == inner && lines[k + |inner|] == "---"
    ensures Delimiter(lines, k) == k + |inner|
    decreases |inner|
  {
    if inner != [] {
      assert lines[k] == inner[0] && Inner(inner[0]);
      assert lines[k + 1..k + 1 + |inner[1..]|] == inner[1..];
      DelimiterAfter(inner[1..], lines, k + 1);
    }
  }

  lemma Framed(inner: seq<string>, tail: seq<string>)
    requires forall i :: 0 <= i < |inner| ==> Inner(inner[i])
    ensures var lines := ["---"] + inner + ["---"] + tail; var end := Delimiter(lines, 1);
            lines[0] == "---" && end < |lines| && lines[1..end] == inner
  {
    hide Inner;
    var lines := ["---"] + inner + ["---"] + tail;
    assert lines[1..1 + |inner|] == inner;
    DelimiterAfter(inner, lines, 1);
  }

  lemma ShapedIf(r: Record)
    requires Printable(r)
    ensures Shaped(r)
  {
  }

  /**
   Parsing a printed record gives it back without errors, whatever body follows; only line ends in the content are
   unified.
   */
  lemma ParseOfRender(r: Record, body: string) returns (st: State)
    requires Printable(r)
    ensures Shaped(r) && Parse(Render(r) + "\n" + body) == Outcome.Parsed(st)
    ensures st.errors == [] && Same(st.record, Normal(r))
  {
    ShapedIf(r);
    st := ParseOfLines(r, body);
  }

  lemma ParseOfLines(r: Record, body: string) returns (st: State)
    requires Printable(r) && Shaped(r)
    ensures Parse(Render(r) + "\n" + body) == Outcome.Parsed(st)
    ensures st.errors == [] && Same(st.record, Normal(r))
  {
    hide Loop; hide InnerLines; hide Inner; hide OneLine; hide SplitLines; hide Normal; hide Same; hide Join;
    hide Printable; hide Shaped; hide Delimiter;
    FileLinesOneLine(r);
    SplitJoined(FileLines(r), body);
    InnerLinesInner(r);
    Framed(InnerLines(r), SplitLines(body));
    st := LoopOfInner(r);
  }

  lemma CodesInjective(a: string, b: string)
    ensures Codes(a) == Codes(b) <==> a == b
  {
    if Codes(a) == Codes(b) {
      forall i | 0 <= i < |a| ensures a[i] == b[i] { assert Codes(a)[i] == Codes(b)[i]; }
    }
  }

  /** The same record comes back exactly when its content is its own lines joined by newlines. */
  lemma RoundTripIff(r: Record, body: string)
    requires Printable(r)
    ensures (exists st :: Parse(Render(r) + "\n" + body) == Outcome.Parsed(st) && st.errors == [] && Same(st.record, r))
       <==> r[CONTENT].text == Join(ContentOf(r[CONTENT].text))
  {
    hide Parse; hide Render; hide ContentOf; hide CleanField; hide Codes; hide Join;
    var st := ParseOfRender(r, body);
    var content := r[CONTENT].text;
    CodesInjective(content, Join(ContentOf(content)));
    if content == Join(ContentOf(content)) {
      assert Normal(r) == r;
      assert Same(st.record, r);
    } else {
      assert st.record[CONTENT] == Coded(Normal(r)[CONTENT]) != Coded(r[CONTENT]);
    }
  }

  // ----- replacing the front matter of an existing file -----

  function RightTrim(line: string): string {
    if line != "" && line[|line| - 1] == '\n' then RightTrim(line[..|line| - 1]) else line
  }

  function BodyAfter(lines: seq<string>): string {
    if lines == [] then "" else if RightTrim(lines[0]) == "---" then Concat(lines[1..]) else BodyAfter(lines[1..])
  }

  /** The text below the closing delimiter; empty if there is none. */
  function Body(text: string): string {
    var lines := SplitKeep(text);
    if lines == [] then "" else BodyAfter(lines[1..])
  }

  /** render_existing_memory, from the bytes of the file. */
  method RenderExisting(raw: string, r: Record) returns (text: string)
    requires Shaped(r)
    ensures text == Render(r) + "\n" + Body(Universal(raw))
  {
    var lines := SplitKeep(Universal(raw));
    var body := "";
    if lines != [] {
      var k := 1;
      while k < |lines| && RightTrim(lines[k]) != "---"
        invariant 1 <= k <= |lines| && BodyAfter(lines[k..]) == BodyAfter(lines[1..])
      {
        assert lines[k..][0] == lines[k] && lines[k..][1..] == lines[k + 1..];
        k := k + 1;
      }
      if k < |lines| {
        assert lines[k..][1..] == lines[k + 1..];
        body := Concat(lines[k + 1..]);
      }
    }
    text := Render(r) + "\n" + body;
  }

  lemma InnerIsNoDelimiter(line: string)
    requires Inner(line)
    ensures RightTrim(line + "\n") != "---"
  {
    var l := line + "\n";
    assert l[|l| - 1] == '\n' && l[..|l| - 1] == line;
    TrimKeepsHead(line);
  }

  lemma {:induction false} TrimKeepsHead(line: string)
    ensures RightTrim(line) == "" || (line != "" && RightTrim(line)[0] == line[0])
    decreases |line|
  {
    if line != "" && line[|line| - 1] == '\n' { TrimKeepsHead(line[..|line| - 1]); }
  }

  lemma {:induction false} BodyAfterInner(inner: seq<string>, rest: seq<string>)
    requires forall i :: 0 <= i < |inner| ==> Inner(inner[i])
    ensures BodyAfter(WithNewlines(inner) + (["---\n"] + rest)) == Concat(rest)
    decreases |inner|
  {
    hide Inner; hide Concat;
    var lines := WithNewlines(inner) + (["---\n"] + rest);
    if inner == [] {
      assert lines == ["---\n"] + rest && lines[1..] == rest;
      TrimDelimiter();
    } else {
      InnerIsNoDelimiter(inner[0]);
      assert lines[0] == inner[0] + "\n" && lines[1..] == WithNewlines(inner[1..]) + (["---\n"] + rest);
      BodyAfterInner(inner[1..], rest);
    }
  }

  lemma TrimDelimiter()
    ensures RightTrim("---\n") == "---"
  {
    assert "---\n"[..3] == "---";
    assert RightTrim("---") == "---";
  }

  lemma BodyFramed(inner: seq<string>, body: string)
    requires forall i :: 0 <= i < |inner| ==> Inner(inner[i])
    ensures BodyAfter((WithNewlines(["---"] + inner + ["---"]) + SplitKeep(body))[1..]) == body
  {
    hide Inner; hide BodyAfter; hide SplitKeep; hide Concat;
    var lines := WithNewlines(["---"] + inner + ["---"]) + SplitKeep(body);
    assert "---" + "\n" == "---\n";
    assert lines[1..] == WithNewlines(inner) + (["---\n"] + SplitKeep(body));
    BodyAfterInner(inner, SplitKeep(body));
    ConcatSplit(body);
  }

  lemma BodyOfRendered(r: Record, body: string)
    requires Printable(r) && Shaped(r)
    ensures Body(Render(r) + "\n" + body) == body
  {
    hide InnerLines; hide Inner; hide OneLine; hide SplitKeep; hide Join; hide Printable; hide Shaped; hide BodyAfter;
    FileLinesOneLine(r);
    KeepJoined(FileLines(r), body);
    InnerLinesInner(r);
    BodyFramed(InnerLines(r), body);
  }

  // ----- the body of the file as it stands -----

  /** The text behind the first delimiter line, carriage returns and all. */
  function RawAfter(t: string): (r: string)
    ensures |r| <= |t| && r == t[|t| - |r|..]
    decreases |t|
  {
    if t == "" then ""
    else
      var n := LineSize(t);
      if RightTrim(Universal(t[..n])) == "---" then t[n..] else RawAfter(t[n..])
  }

  /** The bytes below the closing delimiter; empty if there is none. */
  function RawBody(raw: string): (r: string)
    ensures |r| <= |raw| && r == raw[|raw| - |r|..]
  {
    if raw == "" then "" else RawAfter(raw[LineSize(raw)..])
  }

  lemma {:induction false} BodyAfterRead(t: string)
    ensures BodyAfter(SplitKeep(Universal(t))) == Universal(RawAfter(t))
    decreases |t|
  {
    hide LineSize; hide RightTrim; hide SplitKeep; hide Universal; hide Concat;
    if t == "" {
      UniversalOfEmpty();
    } else {
      var n := LineSize(t);
      UniversalFirstLine(t);
      var lines := SplitKeep(Universal(t));
      assert lines[0] == Universal(t[..n]) && lines[1..] == SplitKeep(Universal(t[n..]));
      ConcatSplit(Universal(t[n..]));
      BodyAfterRead(t[n..]);
    }
  }

  /** What is kept of the body is the body with its line ends translated. */
  lemma BodyOfRead(raw: string)
    ensures Body(Universal(raw)) == Universal(RawBody(raw))
  {
    hide LineSize; hide SplitKeep; hide Universal; hide BodyAfter;
    if raw == "" {
      UniversalOfEmpty();
    } else {
      var n := LineSize(raw);
      UniversalFirstLine(raw);
      assert SplitKeep(Universal(raw))[1..] == SplitKeep(Universal(raw[n..]));
      BodyAfterRead(raw[n..]);
    }
  }

  /**
   Replacing the front matter keeps the body byte for byte exactly if the body holds no carriage return, whatever the
   line ends of the front matter; the new file parses to the new record.
   */
  lemma ReplaceKeepsBody(raw: string, r: Record) returns (st: State)
    requires Printable(r)
    ensures var text := Render(r) + "\n" + Body(Universal(raw));
            && Body(text) == Universal(RawBody(raw))
            && (Body(text) == RawBody(raw) <==> '\r' !in RawBody(raw))
            && Parse(text) == Outcome.Parsed(st) && st.errors == [] && Same(st.record, Normal(r))
  {
    ShapedIf(r);
    hide Parse; hide Render; hide Body; hide RawBody; hide Printable; hide Same; hide Normal; hide Universal;
    UniversalIff(RawBody(raw));
    BodyOfRead(raw);
    BodyOfRendered(r, Body(Universal(raw)));
    st := ParseOfRender(r, Body(Universal(raw)));
  }

  /** A file with Windows line ends loses a byte of its body. */
  lemma WindowsBodyChanges()
    ensures var raw := "---\r\n---\r\nx\r\n"; RawBody(raw) == "x\r\n" && Body(Universal(raw)) == "x\n"
  {
    var raw := "---\r\n---\r\nx\r\n";
    hide LineSize; hide RightTrim; hide Body; hide Universal;
    var below := "---\r\nx\r\n";
    FirstWindowsLine("---", below);
    assert raw == "---\r\n" + below && raw[5..] == below;
    FirstWindowsLine("---", "x\r\n");
    assert below == "---\r\n" + "x\r\n" && below[5..] == "x\r\n" && below[..5] == "---\r\n";
    ReadWindowsLine("---");
    assert "---" + "\r\n" == "---\r\n" && "---" + "\n" == "---\n";
    TrimDelimiter();
    BodyOfRead(raw);
    ReadWindowsLine("x");
    assert "x" + "\r\n" == "x\r\n" && "x" + "\n" == "x\n";
  }

  lemma FirstWindowsLine(line: string, rest: string)
    requires OneLine(line)
    ensures LineSize(line + "\r\n" + rest) == |line| + 2
  {
    hide LineEnd; hide OneLine;
    var t := line + "\r\n" + rest;
    assert t == line + ['\r'] + ("\n" + rest);
    LineEndAt(line, '\r', "\n" + rest);
    assert t[|line|..] == "\r\n" + rest;
  }

  lemma ReadWindowsLine(line: string)
    requires OneLine(line)
    ensures Universal(line + "\r\n") == line + "\n"
  {
    NoReturnInLine(line);
    UniversalBehind(line, "\r\n");
    assert "\r\n"[2..] == "";
    assert Universal("\r\n") == "\n" + Universal("");
  }
}
