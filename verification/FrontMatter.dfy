/**
 The front matter of a memory file: the printer and the line parser.

 The strings of a record to print are Unicode scalar strings, the only ones a UTF-8 file can hold.  What the
 parser returns are Python strings, which may hold surrogates.
 */
module FrontMatter {
  import opened Wrappers
  import opened JsonText
  import opened JsonObject
  import opened TextLines

  datatype Field = Plain(text: string) | Items(items: seq<string>)

  datatype Parsed = Scalar(text: Str) | List(items: seq<Str>)

  type Record = map<string, Field>

  // In the order of the file.
  const SCALARS: seq<string> := [
    "id", "type", "title", "created", "updated", "status", "scope", "workspace", "confidentiality", "source",
    "confidence", "context_id", "project", "valid_from", "valid_until", "from_context", "to_context",
    "effective_date", "reason", "candidate_action", "requested_action", "audit_status", "target_id", "source_id",
    "source_path", "source_sha256", "source_provenance", "confirmation", "expected_target_status",
    "expected_target_sha256", "proposal_input_hash", "new_record_json", "reviewed_at", "review_reason"
  ]

  const LISTS: seq<string> := ["supersedes", "superseded_by", "tags", "evidence", "source_refs", "source_bindings",
          "relations"]

  const CONTENT := "content"

  // ----- the printer -----

  function EscapeChar(c: char): string {
    if ShortEscape(c as int).Some? then ['\\', ShortEscape(c as int).value]
    else if c < ' ' then UnitEscape(c as int)
    else [c]
  }

  function EscapeText(s: string): string {
    if s == "" then "" else EscapeChar(s[0]) + EscapeText(s[1..])
  }

  /** json.dumps without ASCII escapes. */
  function Quoted(s: string): string {
    "\"" + EscapeText(s) + "\""
  }

  function ScalarLine(f: string, v: string): string {
    f + ": " + Quoted(v)
  }

  predicate Shaped(r: Record) {
    && CONTENT in r && r[CONTENT].Plain?
    && (forall f :: f in r && f in SCALARS ==> r[f].Plain?)
    && (forall f :: f in r && f in LISTS ==> r[f].Items?)
  }

  function RenderScalars(fields: seq<string>, r: Record): seq<string>
    requires forall f :: f in fields && f in r ==> r[f].Plain?
  {
    if fields == [] then []
    else (if fields[0] in r then [ScalarLine(fields[0], r[fields[0]].text)] else []) + RenderScalars(fields[1..], r)
  }

  function ItemLine(v: string): string {
    "  - " + Quoted(v)
  }

  function ItemLines(items: seq<string>): seq<string> {
    if items == [] then [] else [ItemLine(items[0])] + ItemLines(items[1..])
  }

  function ListLines(f: string, items: seq<string>): (r: seq<string>)
    ensures r != []
  {
    if items == [] then [f + ": []"] else [f + ":"] + ItemLines(items)
  }

  function RenderLists(fields: seq<string>, r: Record): seq<string>
    requires forall f :: f in fields && f in r ==> r[f].Items?
  {
    if fields == [] then []
    else (if fields[0] in r then ListLines(fields[0], r[fields[0]].items) else []) + RenderLists(fields[1..], r)
  }

  function ContentOf(content: string): (lines: seq<string>)
    ensures lines != [] && forall i :: 0 <= i < |lines| ==> OneLine(lines[i])
  {
    if SplitLines(content) == [] then [""] else SplitLines(content)
  }

  function Indent(lines: seq<string>): (r: seq<string>)
    ensures |r| == |lines| && forall i :: 0 <= i < |lines| ==> r[i] == "  " + lines[i]
  {
    seq(|lines|, i requires 0 <= i < |lines| => "  " + lines[i])
  }

  const CONTENT_LINE := "content: |-"

  function ContentLines(content: string): seq<string> {
    [CONTENT_LINE] + Indent(ContentOf(content))
  }

  function InnerLines(r: Record): seq<string>
    requires Shaped(r)
  {
    RenderScalars(SCALARS, r) + (RenderLists(LISTS, r) + ContentLines(r[CONTENT].text))
  }

  /** render_front_matter. */
  function Render(r: Record): string
    requires Shaped(r)
  {
    Join(["---"] + InnerLines(r) + ["---"])
  }

  // ----- the parser -----

  datatype ParseError =
    | ItemOutsideList | Nested | NoColon | DuplicateKey(key: string) | Indentation(key: string) | BadItem(key: string)
    | NestedUnder(key: string) | EmptyValue(key: string) | BadQuoted(key: string)

  datatype State = State(record: map<string, Parsed>, errors: seq<ParseError>)

  /** What str.strip removes. */
  predicate IsBlank(c: char) {
    '\t' <= c <= '\r' || '\U{1C}' <= c <= ' ' || c == '\U{85}' || c == '\U{A0}' || c == '\U{1680}'
    || '\U{2000}' <= c <= '\U{200A}' || c == '\U{2028}' || c == '\U{2029}' || c == '\U{202F}' || c == '\U{205F}'
       || c == '\U{3000}'
  }

  function StripLeft(s: string): (r: string)
    ensures |r| <= |s| && (s != "" && !IsBlank(s[0]) ==> r == s)
  {
    if s != "" && IsBlank(s[0]) then StripLeft(s[1..]) else s
  }

  function StripRight(s: string): (r: string)
    ensures |r| <= |s| && (s != "" && !IsBlank(s[|s| - 1]) ==> r == s)
  {
    if s != "" && IsBlank(s[|s| - 1]) then StripRight(s[..|s| - 1]) else s
  }

  function Strip(s: string): string {
    StripRight(StripLeft(s))
  }

  predicate IsItem(line: string) {
    "  - " <= line
  }

  predicate Indented(line: string) {
    " " <= line
  }

  function Colon(line: string): (k: nat)
    ensures k <= |line| && (k < |line| ==> line[k] == ':') && forall i :: 0 <= i < k ==> line[i] != ':'
  {
    if line == "" || line[0] == ':' then 0
    else
      var k := 1 + Colon(line[1..]);
      assert forall i :: 0 < i < k ==> line[i] == line[1..][i - 1];
      k
  }

  /** _parse_scalar; nothing where json.loads raises. */
  function ParseScalar(value: string): Option<Str> {
    if value != "" && value[0] == '"' then
      var text := ReadString(value);
      if text.None? || SkipSpace(text.value.rest) != "" then None else Some(text.value.value)
    else Some(Codes(value))
  }

  datatype Taken<T> = Taken(values: seq<T>, errors: seq<ParseError>, size: nat)

  /** The lines of a block: two spaces each; one space is an error and is skipped. */
  function Block(lines: seq<string>, key: string): (r: Taken<string>)
    ensures r.size <= |lines|
  {
    if lines == [] || !Indented(lines[0]) then Taken([], [], 0)
    else
      var rest := Block(lines[1..], key);
      if "  " <= lines[0] then Taken([lines[0][2..]] + rest.values, rest.errors, rest.size + 1)
      else Taken(rest.values, [Indentation(key)] + rest.errors, rest.size + 1)
  }

  function ListItems(lines: seq<string>, key: string): (r: Taken<Str>)
    ensures r.size <= |lines|
  {
    if lines == [] || !IsItem(lines[0]) then Taken([], [], 0)
    else
      var rest := ListItems(lines[1..], key);
      var item := ParseScalar(Strip(lines[0][4..]));
      if item.Some? then Taken([item.value] + rest.values, rest.errors, rest.size + 1)
      else Taken(rest.values, [BadItem(key)] + rest.errors, rest.size + 1)
  }

  function Note(st: State, errors: seq<ParseError>): State {
    st.(errors := st.errors + errors)
  }

  function Set(st: State, key: string, value: Parsed): State {
    st.(record := st.record[key := value])
  }

  /** What one turn of the parse loop does, and how many lines it uses. */
  function Turn(lines: seq<string>, st: State): (r: (State, nat))
    requires lines != []
    ensures 1 <= r.1 <= |lines|
  {
    var line := lines[0];
    if line == "" then (st, 1)
    else if IsItem(line) then (Note(st, [ItemOutsideList]), 1)
    else if Indented(line) then (Note(st, [Nested]), 1)
    else if Colon(line) == |line| then (Note(st, [NoColon]), 1)
    else
      var key, raw := Strip(line[..Colon(line)]), StripLeft(line[Colon(line) + 1..]);
      Assign(lines[1..], key, raw, if key in st.record then Note(st, [DuplicateKey(key)]) else st)
  }

  function Assign(rest: seq<string>, key: string, raw: string, st: State): (r: (State, nat))
    ensures 1 <= r.1 <= |rest| + 1
  {
    if raw == "|-" || raw == "|" then
      var block := Block(rest, key);
      (Set(Note(st, block.errors), key, Scalar(Codes(Join(block.values)))), block.size + 1)
    else if raw == "" then
      var list := ListItems(rest, key);
      var nested := list.size < |rest| && Indented(rest[list.size]);
      var errors := list.errors
                    + (if nested then [NestedUnder(key)] else [])
                    + (if list.values == [] && key !in LISTS then [EmptyValue(key)] else []);
      (Set(Note(st, errors), key, List(list.values)), list.size + 1 + if nested then 1 else 0)
    else if raw == "[]" then (Set(st, key, List([])), 1)
    else
      var value := ParseScalar(raw);
      (if value.Some? then Set(st, key, Scalar(value.value)) else Note(st, [BadQuoted(key)]), 1)
  }

  function Loop(lines: seq<string>, st: State): State
    decreases |lines|
  {
    if lines == [] then st
    else
      var turn := Turn(lines, st);
      Loop(lines[turn.1..], turn.0)
  }

  function Delimiter(lines: seq<string>, k: nat): (r: nat)
    requires k <= |lines|
    ensures k <= r <= |lines| && (r < |lines| ==> lines[r] == "---") && forall i :: k <= i < r ==> lines[i] != "---"
    decreases |lines| - k
  {
    if k == |lines| || lines[k] == "---" then k else Delimiter(lines, k + 1)
  }

  datatype Outcome = MissingOpening | Unclosed | Parsed(state: State)

  /** parse_front_matter, after the file has been read. */
  function Parse(text: string): Outcome {
    var lines := SplitLines(text);
    if lines == [] || lines[0] != "---" then MissingOpening
    else
      var end := Delimiter(lines, 1);
      if end == |lines| then Unclosed else Outcome.Parsed(Loop(lines[1..end], State(map[], [])))
  }

  /** The 29 characters that count as white space. */
  lemma BlanksAre(c: char)
    ensures IsBlank(c) <==>
            || c as int in {0x09, 0x0A, 0x0B, 0x0C, 0x0D, 0x1C, 0x1D, 0x1E, 0x1F, 0x20, 0x85, 0xA0, 0x1680}
            || c as int in {0x2000, 0x2001, 0x2002, 0x2003, 0x2004, 0x2005, 0x2006, 0x2007, 0x2008, 0x2009, 0x200A}
            || c as int in {0x2028, 0x2029, 0x202F, 0x205F, 0x3000}
  {
  }
}
