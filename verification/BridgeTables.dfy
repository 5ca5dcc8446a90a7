/**
 The rows of the bridge inbox and the messages of a session log, with the effect of every statement on them.

 Two contents are the same when their SHA-256 hashes are.  `recoveries` is not a column: it counts how often
 recovery put the row back, so that the bound on attempts can be stated.
 */
module BridgeTables {
  import opened Wrappers
  import FrontMatter

  datatype Kind = Message | Checkpoint
  datatype Role = User | Assistant | NoRole
  datatype Status = Captured | Queued | Processing | Processed | Failed | Rejected
  datatype Meta = Text(text: string) | Number(number: int) | Flag(flag: bool) | Null

  datatype Event = Event(id: string, kind: Kind, source: string, account: string, conversation: string,
                         branch: string, messageId: string, parent: Option<string>, version: int, role: Role,
                         content: string, isFinal: bool, metadata: map<string, Meta>)

  datatype Row = Row(event: Event, status: Status, attempts: nat, recoveries: nat)

  const MAX_ATTEMPTS := 5

  // ----- the form of an event -----

  /** What str.strip leaves as it is, and not empty. */
  predicate Trimmed(s: string) {
    s != "" && !FrontMatter.IsBlank(s[0]) && !FrontMatter.IsBlank(s[|s| - 1])
  }

  /** What _normalize hands to the inbox; a checkpoint has its own identifier for its message. */
  predicate Normalised(e: Event) {
    && Trimmed(e.id) && Trimmed(e.source) && Trimmed(e.account) && Trimmed(e.conversation) && Trimmed(e.branch)
    && match e.kind
       case Message =>
         Trimmed(e.messageId) && (e.parent.Some? ==> Trimmed(e.parent.value)) && e.version >= 1 && e.role != NoRole
       case Checkpoint =>
         e.messageId == e.id && e.parent.None? && e.version == 1 && e.role == NoRole && e.content == "" && e.isFinal
  }

  // ----- ingest -----

  predicate SamePlace(a: Event, b: Event) {
    a.source == b.source && a.account == b.account && a.conversation == b.conversation && a.branch == b.branch
  }

  /** The UNIQUE constraint over the conversation, the type, the message and its version. */
  predicate SameSlot(a: Event, b: Event) {
    SamePlace(a, b) && a.kind == b.kind && a.messageId == b.messageId && a.version == b.version
  }

  predicate SameIdentity(a: Event, b: Event) {
    SameSlot(a, b) && a.role == b.role && a.parent == b.parent
  }

  function FindFrom(rows: seq<Row>, id: string, k: nat): (r: Option<nat>)
    requires k <= |rows|
    ensures r.Some? ==> k <= r.value < |rows| && rows[r.value].event.id == id
    ensures r.Some? ==> forall j :: k <= j < r.value ==> rows[j].event.id != id
    ensures r.None? ==> forall j :: k <= j < |rows| ==> rows[j].event.id != id
    decreases |rows| - k
  {
    if k == |rows| then None
    else if rows[k].event.id == id then Some(k)
    else FindFrom(rows, id, k + 1)
  }

  function Find(rows: seq<Row>, id: string): Option<nat> {
    FindFrom(rows, id, 0)
  }

  datatype Outcome = Inserted | Updated | Duplicate | IdentityExists | IdentityChanged | Immutable

  function Waiting(e: Event): Status {
    if e.isFinal then Queued else Captured
  }

  function IngestOutcome(rows: seq<Row>, e: Event): Outcome {
    match Find(rows, e.id)
    case None => if exists k :: 0 <= k < |rows| && SameSlot(rows[k].event, e) then IdentityExists else Inserted
    case Some(k) =>
      var current := rows[k];
      if !SameIdentity(current.event, e) then IdentityChanged
      else if current.event.content == e.content && (current.event.isFinal || !e.isFinal) then Duplicate
      else if current.event.isFinal || current.status in {Processing, Processed, Rejected} then Immutable
      else Updated
  }

  function Ingested(rows: seq<Row>, e: Event): seq<Row> {
    match IngestOutcome(rows, e)
    case Inserted => rows + [Row(e, Waiting(e), 0, 0)]
    case Updated =>
      var k := Find(rows, e.id).value;
      rows[k := rows[k].(event := e, status := Waiting(e))]
    case _ => rows
  }

  // ----- the queue -----

  /** The EXISTS clause of the claim: an event with the parent's message id in this conversation is processed. */
  predicate ParentProcessed(rows: seq<Row>, e: Event) {
    e.kind == Message && e.parent.Some? ==>
      exists k :: 0 <= k < |rows| && IsProcessedParent(rows[k], e)
  }

  predicate IsProcessedParent(row: Row, e: Event) {
    SamePlace(row.event, e) && e.parent == Some(row.event.messageId) && row.status == Processed
  }

  predicate Claimable(rows: seq<Row>, k: nat)
    requires k < |rows|
  {
    rows[k].status == Queued && ParentProcessed(rows, rows[k].event)
  }

  function ClaimFrom(rows: seq<Row>, k: nat): (r: Option<nat>)
    requires k <= |rows|
    ensures r.Some? ==> k <= r.value < |rows| && Claimable(rows, r.value)
    ensures r.Some? ==> forall j :: k <= j < r.value ==> !Claimable(rows, j)
    ensures r.None? ==> forall j :: k <= j < |rows| ==> !Claimable(rows, j)
    decreases |rows| - k
  {
    if k == |rows| then None
    else if Claimable(rows, k) then Some(k)
    else ClaimFrom(rows, k + 1)
  }

  function ClaimedRows(rows: seq<Row>, k: nat): seq<Row>
    requires k < |rows|
  {
    rows[k := rows[k].(status := Processing, attempts := rows[k].attempts + 1)]
  }

  function SetStatus(rows: seq<Row>, id: string, status: Status): seq<Row> {
    match Find(rows, id)
    case None => rows
    case Some(k) => rows[k := rows[k].(status := status)]
  }

  function Requeued(row: Row): Row {
    if row.status == Processing then row.(status := Queued, recoveries := row.recoveries + 1) else row
  }

  function Recovered(rows: seq<Row>): (r: seq<Row>)
    ensures |r| == |rows| && forall k :: 0 <= k < |rows| ==> r[k] == Requeued(rows[k])
  {
    seq(|rows|, k requires 0 <= k < |rows| => Requeued(rows[k]))
  }

  // ----- the session log -----

  datatype Entry = Entry(role: Role, content: string, metadata: map<string, Meta>)

  datatype Scope = Scope(workspace: string, project: Option<string>)

  datatype Session = Session(scope: Scope, log: seq<Entry>)

  const EVENT_KEY := "bridge_event_id"

  /** The conversation, joined with colons; its truncated hash names the session. */
  function SessionId(e: Event): string {
    e.source + ":" + e.account + ":" + e.conversation + ":" + e.branch
  }

  /** The bridge's own metadata, over which the event's metadata is merged. */
  function OwnMetadata(e: Event): map<string, Meta> {
    map[
      EVENT_KEY := Text(e.id),
      "bridge_message_id" := Text(e.messageId),
      "bridge_parent_message_id" := if e.parent.Some? then Text(e.parent.value) else Null,
      "bridge_branch_id" := Text(e.branch),
      "bridge_version" := Number(e.version),
      "bridge_source" := Text(e.source),
      "bridge_generated" := Flag(e.role == Assistant)
    ]
  }

  function EntryOf(e: Event): Entry {
    Entry(e.role, e.content, OwnMetadata(e) + e.metadata)
  }

  predicate Tagged(entry: Entry, id: string) {
    EVENT_KEY in entry.metadata && entry.metadata[EVENT_KEY] == Text(id)
  }

  /** _already_projected. */
  predicate Already(log: seq<Entry>, id: string) {
    exists j :: 0 <= j < |log| && Tagged(log[j], id)
  }

  /** The event does not overwrite its own tag. */
  predicate Honest(e: Event) {
    EVENT_KEY in e.metadata ==> e.metadata[EVENT_KEY] == Text(e.id)
  }

  lemma TagOf(e: Event)
    requires Honest(e)
    ensures Tagged(EntryOf(e), e.id)
    ensures forall id :: Tagged(EntryOf(e), id) ==> id == e.id
  {
  }

  /** Only assistant messages and checkpoints are reviewed. */
  predicate Reviewed(e: Event) {
    e.kind == Checkpoint || e.role == Assistant
  }
}
