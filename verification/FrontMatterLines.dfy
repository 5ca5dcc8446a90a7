/** Front matter as people write it: without quotes, with lists and blocks, and with mistakes. */
module FrontMatterLines {
  import opened Wrappers
  import opened JsonText
  import opened TextLines
  import opened FrontMatter
  import opened FrontMatterRoundTrip
  import opened FrontMatterFile

  datatype Entry = Word(key: string, value: string) | Words(key: string, items: seq<string>) | Lines(key: string,
          lines: seq<string>)

  function Bullets(items: seq<string>): seq<string> {
    if items == [] then [] else ["  - " + items[0]] + Bullets(items[1..])
  }

  function Text(e: Entry): (r: seq<string>)
    ensures r != []
  {
    match e
    case Word(key, value) => [key + ": " + value]
    case Words(key, items) => if items == [] then [key + ": []"] else [key + ":"] + Bullets(items)
    case Lines(key, lines) => [key + ": |"] + Indent(lines)
  }

  /** What it is read as. */
  function Meaning(e: Entry): Parsed {
    match e
    case Word(_, value) => Scalar(Codes(value))
    case Words(_, items) => List(CodesAll(items))
    case Lines(_, lines) => Scalar(Codes(Join(lines)))
  }

  predicate Bare(v: string) {
    v != "" && v[0] != '"' && !IsBlank(v[0])
  }

  ghost predicate Good(e: Entry) {
    && FieldName(e.key)
    && match e
       case Word(_, value) => Bare(value) && value !in {"|", "|-", "[]"}
       case Words(_, items) =>
         forall i :: 0 <= i < |items| ==> Bare(items[i]) && !IsBlank(items[i][|items[i]| - 1])
       case Lines(_, _) => true
  }

  lemma BareIsItself(v: string)
    requires v == "" || v[0] != '"'
    ensures ParseScalar(v) == Some(Codes(v))
  {
  }

  lemma WordRead(key: string, v: string, rest: seq<string>, st: State)
    requires Good(Word(key, v)) && key !in st.record
    ensures Loop([key + ": " + v] + rest, st) == Loop(rest, Set(st, key, Scalar(Codes(v))))
  {
    assert key + ": " + v == key + ":" + (" " + v);
    assert (" " + v)[1..] == v;
    assert StripLeft(" " + v) == v;
    LoopOfKey(key, " " + v, rest, st);
    BareIsItself(v);
    hide Loop; hide Turn; hide Codes; hide StripLeft; hide FieldName; hide ParseScalar; hide IsBlank;
    assert rest[0..] == rest;
  }

  lemma BulletRead(v: string)
    requires Bare(v) && !IsBlank(v[|v| - 1])
    ensures var line := "  - " + v; IsItem(line) && ParseScalar(Strip(line[4..])) == Some(Codes(v))
  {
    assert ("  - " + v)[4..] == v;
    assert Strip(v) == v;
    BareIsItself(v);
  }

  lemma {:induction false} BulletsRead(items: seq<string>, rest: seq<string>, key: string)
    requires rest == [] || !Indented(rest[0])
    requires forall i :: 0 <= i < |items| ==> Bare(items[i]) && !IsBlank(items[i][|items[i]| - 1])
    ensures ListItems(Bullets(items) + rest, key) == Taken(CodesAll(items), [], |items|) && |Bullets(items)| == |items|
    decreases |items|
  {
    hide ParseScalar; hide Strip; hide Codes; hide IsBlank; hide Bare; hide IsItem; hide Indented;
    var lines := Bullets(items) + rest;
    if items == [] {
      assert lines == rest;
      if rest != [] { ItemIsIndented(rest[0]); }
      assert CodesAll(items) == [];
    } else {
      assert lines[0] == "  - " + items[0] && lines[1..] == Bullets(items[1..]) + rest;
      BulletRead(items[0]);
      BulletsRead(items[1..], rest, key);
      assert CodesAll(items) == [Codes(items[0])] + CodesAll(items[1..]);
    }
  }

  lemma WordsRead(key: string, items: seq<string>, rest: seq<string>, st: State)
    requires Good(Words(key, items)) && key !in st.record && (rest == [] || !Indented(rest[0]))
    ensures Loop(Text(Words(key, items)) + rest, st) == Loop(rest, Set(st, key, List(CodesAll(items))))
  {
    hide Loop; hide ListItems; hide Bullets; hide FieldName; hide LISTS; hide IsBlank;
    if items == [] {
      assert key + ": []" == key + ":" + " []";
      LoopOfKey(key, " []", rest, st);
      EmptyListStrips();
      assert rest[0..] == rest && CodesAll(items) == [];
    } else {
      var lines := Bullets(items) + rest;
      assert key + ":" + "" == key + ":";
      assert Text(Words(key, items)) + rest == [key + ":" + ""] + lines;
      LoopOfKey(key, "", lines, st);
      BulletsRead(items, rest, key);
      assert lines[|items|..] == rest;
      AssignWords(lines, rest, key, items, st);
    }
  }

  lemma EmptyListStrips()
    ensures StripLeft(" []") == "[]"
  {
    assert " []"[1..] == "[]";
  }

  lemma AssignWords(lines: seq<string>, rest: seq<string>, f: string, items: seq<string>, st: State)
    requires items != [] && (rest == [] || !Indented(rest[0])) && |items| <= |lines| && lines[|items|..] == rest
    requires ListItems(lines, f) == Taken(CodesAll(items), [], |items|)
    ensures Assign(lines, f, "", st) == (Set(st, f, List(CodesAll(items))), |items| + 1)
  {
    hide ListItems; hide CodesAll; hide LISTS;
    assert |CodesAll(items)| == |items|;
    assert st.errors + ([] + [] + []) == st.errors;
    if |items| < |lines| { assert lines[|items|] == rest[0]; }
  }

  lemma {:induction false} BlockRead(lines: seq<string>, rest: seq<string>, key: string)
    requires rest == [] || !Indented(rest[0])
    ensures Block(Indent(lines) + rest, key) == Taken(lines, [], |lines|)
    decreases |lines|
  {
    var all := Indent(lines) + rest;
    if lines != [] {
      assert all[0] == "  " + lines[0] && all[1..] == Indent(lines[1..]) + rest;
      assert all[0][2..] == lines[0];
      BlockRead(lines[1..], rest, key);
    } else {
      assert all == rest;
    }
  }

  lemma LinesRead(key: string, lines: seq<string>, rest: seq<string>, st: State)
    requires FieldName(key) && key !in st.record && (rest == [] || !Indented(rest[0]))
    ensures Loop([key + ": |"] + Indent(lines) + rest, st) == Loop(rest, Set(st, key, Scalar(Codes(Join(lines)))))
  {
    var all := Indent(lines) + rest;
    assert key + ": |" == key + ":" + " |";
    assert [key + ": |"] + Indent(lines) + rest == [key + ":" + " |"] + all;
    LoopOfKey(key, " |", all, st);
    BarStrips();
    BlockRead(lines, rest, key);
    hide Loop; hide Block; hide Join; hide Codes; hide StripLeft; hide Turn; hide FieldName; hide Indent;
    assert st.errors + [] == st.errors;
    assert all[|lines|..] == rest;
  }

  lemma BarStrips()
    ensures StripLeft(" |") == "|"
  {
    assert " |"[1..] == "|";
  }

  lemma EntryRead(e: Entry, rest: seq<string>, st: State)
    requires Good(e) && e.key !in st.record && (rest == [] || !Indented(rest[0]))
    ensures Loop(Text(e) + rest, st) == Loop(rest, Set(st, e.key, Meaning(e)))
  {
    hide Loop; hide Bare; hide IsBlank; hide FieldName; hide Indent; hide Join; hide Codes; hide CodesAll; hide Bullets;
    match e
    case Word(key, value) => WordRead(key, value, rest, st);
    case Words(key, items) => WordsRead(key, items, rest, st);
    case Lines(key, lines) =>
      assert FieldName(key);
      LinesRead(key, lines, rest, st);
  }

  // ----- the whole file -----

  function AllText(es: seq<Entry>): seq<string> {
    if es == [] then [] else Text(es[0]) + AllText(es[1..])
  }

  ghost predicate Entries(es: seq<Entry>) {
    && (forall i :: 0 <= i < |es| ==> Good(es[i]))
    && (forall i, j :: 0 <= i < j < |es| ==> es[i].key != es[j].key)
  }

  /** The record gains what the entries mean, and nothing else. */
  ghost predicate ReadAs(a: map<string, Parsed>, es: seq<Entry>, b: map<string, Parsed>) {
    && (forall i :: 0 <= i < |es| ==> es[i].key in b && b[es[i].key] == Meaning(es[i]))
    && (forall f :: f in a ==> f in b && ((forall i :: 0 <= i < |es| ==> es[i].key != f) ==> b[f] == a[f]))
    && (forall f :: f in b ==> f in a || exists i :: 0 <= i < |es| && es[i].key == f)
  }

  lemma TextStarts(e: Entry)
    requires FieldName(e.key)
    ensures Text(e)[0] != "" && Text(e)[0][0] == e.key[0] && !Indented(Text(e)[0])
  {
    assert NameChar(e.key[0]);
  }

  lemma ReadAsMore(a: map<string, Parsed>, es: seq<Entry>, b: map<string, Parsed>)
    requires es != [] && (forall i, j :: 0 <= i < j < |es| ==> es[i].key != es[j].key)
    requires ReadAs(a[es[0].key := Meaning(es[0])], es[1..], b)
    ensures ReadAs(a, es, b)
  {
    hide Meaning;
    var a', rest := a[es[0].key := Meaning(es[0])], es[1..];
    assert forall i :: 0 < i < |es| ==> es[i] == rest[i - 1];
    assert forall i :: 0 <= i < |rest| ==> rest[i] == es[i + 1];
    assert es[0].key in a';
    forall i | 0 <= i < |es| ensures es[i].key in b && b[es[i].key] == Meaning(es[i]) {
      if i > 0 { assert rest[i - 1] == es[i]; }
    }
    forall f | f in b ensures f in a || exists i :: 0 <= i < |es| && es[i].key == f {
      if f in a' && f !in a { assert es[0].key == f; }
    }
    forall f | f in a && forall i :: 0 <= i < |es| ==> es[i].key != f ensures f in b && b[f] == a[f] {
      assert es[0].key != f && f in a' && a'[f] == a[f];
    }
  }

  lemma {:induction false} EntriesRead(es: seq<Entry>, st: State)
    requires Entries(es) && forall i :: 0 <= i < |es| ==> es[i].key !in st.record
    ensures var end := Loop(AllText(es), st); end.errors == st.errors && ReadAs(st.record, es, end.record)
    decreases |es|
  {
    if es != [] {
      var rest, next := AllText(es[1..]), Set(st, es[0].key, Meaning(es[0]));
      assert Good(es[0]) && Entries(es[1..]);
      if rest != [] {
        assert Good(es[1]) && es[1..][0] == es[1];
        TextStarts(es[1]);
        assert rest[0] == Text(es[1])[0];
      }
      hide Loop; hide Good; hide Text; hide Meaning; hide ReadAs; hide Indented;
      EntryRead(es[0], rest, st);
      forall i | 0 <= i < |es[1..]| ensures es[1..][i].key !in next.record {
        assert es[1..][i] == es[i + 1] && es[0].key != es[i + 1].key;
      }
      EntriesRead(es[1..], next);
      ReadAsMore(st.record, es, Loop(AllText(es), st).record);
    }
  }

  predicate NoDash(line: string) {
    line != "" && line[0] != '-'
  }

  lemma {:induction false} TextHasNoDash(es: seq<Entry>)
    requires forall i :: 0 <= i < |es| ==> FieldName(es[i].key)
    ensures forall i :: 0 <= i < |AllText(es)| ==> NoDash(AllText(es)[i])
    decreases |es|
  {
    hide FieldName; hide Text; hide NoDash;
    if es != [] {
      EntryHasNoDash(es[0]);
      TextHasNoDash(es[1..]);
    }
  }

  lemma EntryHasNoDash(e: Entry)
    requires FieldName(e.key)
    ensures forall i :: 0 <= i < |Text(e)| ==> NoDash(Text(e)[i])
  {
    TextStarts(e);
    assert NameChar(e.key[0]);
    if e.Words? { BulletsIndented(e.items); }
    hide Bullets; hide NameChar;
  }

  lemma {:induction false} BulletsIndented(items: seq<string>)
    ensures forall i :: 0 <= i < |Bullets(items)| ==> Bullets(items)[i] != "" && Bullets(items)[i][0] == ' '
    decreases |items|
  {
    if items != [] { BulletsIndented(items[1..]); }
  }

  lemma TextIsInner(es: seq<Entry>)
    requires Entries(es) && forall i :: 0 <= i < |AllText(es)| ==> OneLine(AllText(es)[i])
    ensures forall i :: 0 <= i < |AllText(es)| ==> Inner(AllText(es)[i])
  {
    hide AllText; hide OneLine; hide FieldName;
    forall i | 0 <= i < |es| ensures FieldName(es[i].key) { assert Good(es[i]); }
    TextHasNoDash(es);
    forall i | 0 <= i < |AllText(es)| ensures Inner(AllText(es)[i]) { assert NoDash(AllText(es)[i]); }
  }

  /** A file of such entries is read without errors as what they mean, whatever body follows. */
  lemma FileRead(es: seq<Entry>, body: string)
    requires Entries(es) && forall i :: 0 <= i < |AllText(es)| ==> OneLine(AllText(es)[i])
    ensures var outcome := Parse(Join(["---"] + AllText(es) + ["---"]) + "\n" + body);
            outcome.Parsed? && outcome.state.errors == [] && ReadAs(map[], es, outcome.state.record)
  {
    var inner := AllText(es);
    var lines := ["---"] + inner + ["---"];
    TextIsInner(es);
    assert OneLine("---");
    hide Loop; hide Inner; hide OneLine; hide SplitLines; hide Join; hide Delimiter; hide AllText; hide Entries;
    hide ReadAs;
    SplitJoined(lines, body);
    Framed(inner, SplitLines(body));
    EntriesRead(es, State(map[], []));
  }

  // ----- mistakes -----

  lemma {:induction false} NoColonIn(line: string)
    ensures Colon(line) == |line| <==> ':' !in line
    decreases |line|
  {
    if line != "" { NoColonIn(line[1..]); }
  }

  /** A line that is no field is skipped, with its error if it is not empty. */
  lemma SkippedLine(line: string, rest: seq<string>, st: State)
    ensures var turn := Turn([line] + rest, st);
            && (line == "" ==> turn == (st, 1))
            && ("  - " <= line ==> turn == (State(st.record, st.errors + [ItemOutsideList]), 1))
            && (" " <= line && !("  - " <= line) ==> turn == (State(st.record, st.errors + [Nested]), 1))
            && (line != "" && line[0] != ' ' && ':' !in line ==> turn == (State(st.record, st.errors + [NoColon]), 1))
  {
    ItemIsIndented(line);
    NoColonIn(line);
    hide Assign; hide Strip; hide StripLeft;
    assert ([line] + rest)[0] == line;
  }

  lemma TurnOfAnyKey(f: string, after: string, rest: seq<string>, st: State)
    requires FieldName(f)
    ensures Turn([f + ":" + after] + rest, st) ==
            Assign(rest, f, StripLeft(after), if f in st.record then Note(st, [DuplicateKey(f)]) else st)
  {
    KeyLine(f, after);
    var lines := [f + ":" + after] + rest;
    assert lines[0] == f + ":" + after && lines[1..] == rest;
    hide Assign; hide Strip; hide StripLeft; hide FieldName;
  }

  /** A second value is an error, and replaces the first. */
  lemma SecondValue(f: string, v: string, rest: seq<string>, st: State)
    requires Good(Word(f, v)) && f in st.record
    ensures Turn([f + ": " + v] + rest, st) ==
            (State(st.record[f := Scalar(Codes(v))], st.errors + [DuplicateKey(f)]), 1)
  {
    assert f + ": " + v == f + ":" + (" " + v);
    assert (" " + v)[1..] == v;
    assert StripLeft(" " + v) == v;
    TurnOfAnyKey(f, " " + v, rest, st);
    BareIsItself(v);
    hide Turn; hide Codes; hide StripLeft; hide FieldName; hide ParseScalar; hide IsBlank;
  }

  /** Only a list may be left without a value. */
  lemma NoValue(f: string, rest: seq<string>, st: State)
    requires FieldName(f) && f !in st.record && (rest == [] || !Indented(rest[0]))
    ensures Turn([f + ":"] + rest, st) ==
            (State(st.record[f := List([])], st.errors + if f in LISTS then [] else [EmptyValue(f)]), 1)
  {
    assert f + ":" + "" == f + ":";
    TurnOfAnyKey(f, "", rest, st);
    assert StripLeft("") == "";
    AssignNothing(f, rest, st);
  }

  lemma AssignNothing(f: string, rest: seq<string>, st: State)
    requires rest == [] || !Indented(rest[0])
    ensures Assign(rest, f, "", st) ==
            (State(st.record[f := List([])], st.errors + if f in LISTS then [] else [EmptyValue(f)]), 1)
  {
    hide LISTS; hide IsItem; hide Indented;
    if rest != [] { ItemIsIndented(rest[0]); }
    assert ListItems(rest, f) == Taken([], [], 0);
    assert [] + [] + (if f in LISTS then [] else [EmptyValue(f)]) == if f in LISTS then [] else [EmptyValue(f)];
  }

  /** Without the opening line, or the closing one, nothing is read. */
  lemma Unframed(text: string)
    ensures var lines := SplitLines(text);
            && (Parse(text) == MissingOpening <==> lines == [] || lines[0] != "---")
            && (Parse(text) == Unclosed <==>
                  lines != [] && lines[0] == "---" && forall i :: 1 <= i < |lines| ==> lines[i] != "---")
  {
    hide SplitLines; hide Loop;
  }
}
