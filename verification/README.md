# LAOS: crash safety, replays and round trips

LAOS keeps its authority in files and in tables that can be rebuilt from them. This project models the parts
that keep those consistent across crashes, races and replays, and proves what they promise over every input,
every run or every reachable state. `dafny verify dfyconfig.toml` checks all of it.

The parts, with the modules in the order they build on each other:

- **Publication of the learning chain** (`CrashFs`, `ChainInvariant`, `ChainPublisher`). The artifacts E, R, El and Q
  are written with temp file, fsync, no-replace link, unlink and directory fsync. A directory tree remembers for
  every name the values it may fall back to; a process kill keeps what is visible, a power loss picks any of the
  remembered values for every name and tears every file that was not fsynced. A run is cut at any operation by a
  counter of the operations that still go through.
- **Human decisions** (`DecisionStore`, `DecisionSafety`, `DecisionRuns`, `DecisionWitnesses`,
  `DecisionAlone`). Deciders, request
  publishers and readers run interleaved, one I/O operation at a time, with failures, kills and power losses.
- **The decision codec** (`JsonText`, `JsonObject`, `RecordedAt`, `DecisionCodec`, `DecisionText`): canonical JSON
  (RFC 8259), its strict decoder, and the time stamp (RFC 3339 section 5.6).
- **The incremental index** (`IndexTables`, `IndexDatabase`, `IndexSync`, `IndexStore`): plan, apply, check, rollback,
  for the memory index and, as a second instance, the document index.
- **Memory files** (`TextLines`, `FrontMatter`, `FrontMatterRoundTrip`, `FrontMatterFile`, `FrontMatterLimits`,
  `FrontMatterLines`): the front matter printer and parser; (`ReplaceTransaction`, `ApplyFiles`): replacing several files with rollback;
  (`Lifecycle`, `Supersession`, `SupersessionEffects`, `SupersessionRuns`, `MemoryFiles`): proposals, their review, and
  the supersession links.
- **The bridge** (`BridgeTables`, `BridgeMachine`, `BridgeSafety`, `BridgeInbox`, `BridgeProjector`, `BridgeRuns`,
  `BridgeTags`, `BridgeThefts`, `BridgePool`): a durable
  inbox, a projector that appends to session logs, and crash recovery.
- **PageRank** (`Vectors`, `PowerIteration`, `StationaryRanks`, `PatternGraph`) over exact reals.
- **The verdict chain** (`Evidence`, `VerdictChain`, `VerdictLaws`): evaluation, reflection, eligibility and queue request.
- **Message splitting** (`MessageSplit`) and the **Kanban board** (`TaskBoard`, `TaskRuns`).

Code that changes state is modelled by classes whose methods change fields; each method is proved against a
function or relation on values, and the theorems are about that function or relation. SHA-256 is injective: a digest
is the thing digested, or an arbitrary function whose results only have the right form. Database transactions are
atomic. Clocks, nonces and identifiers are parameters.

## What turned out not to hold

Each of these has a witness and, where the code has a condition under which it does hold, a proof of exactly that.

- The recovery documentation says that a replayed event cannot be appended twice. Among events that leave the tag
  `bridge_event_id` alone, an event whose metadata overwrites it is appended again after a crash, and only such an event
  (`BridgeTags.OnceIffHonest`). A message whose tag another message brings into its session first is marked processed
  without being appended, exactly then (`BridgeThefts.LostWasStolen`, `BridgeThefts.LostIffStolen`), and every message has
  such a thief (`BridgeThefts.EveryTagCanBeStolen`).
- Two concurrent deciders and one power loss can leave a second decision without its first
  (`DecisionWitnesses.ConcurrentDecidersAndPowerLoss`); this happens exactly in the runs that link a second decision
  before its deferral is durable (`DecisionRuns.PowerLossIsHarmlessIff`), and one decider at a time for each request never
  does (`DecisionRuns.SequentialDecidersSurvivePowerLoss`).
- An index run over files that differ from the indexed ones only by a swap of two paths is refused, on every retry
  (`IndexStore.SwapIsRefused`); `IndexStore.Apply` states the exact condition.
- Decoding the canonical bytes of a decision gives the decision back exactly when no free text holds the two halves of
  a surrogate pair next to each other (`DecisionCodec.RoundTrip`).
- After an index failure the files are restored as text: byte for byte exactly when no replaced file held a carriage
  return (`ApplyFiles.RestoredIff`).
- The body below a replaced front matter is kept byte for byte exactly when it holds no carriage return
  (`FrontMatterFile.ReplaceKeepsBody`, `FrontMatterFile.WindowsBodyChanges`).
- A fault while the backups are removed is reported as `apply_failed` although every file is new (`ApplyFiles.Apply`).
- A printed record whose strings hold U+0085, U+2028 or U+2029 outside the content does not parse back
  (`FrontMatterLimits.RoundTripExactly`).
- A link from an unfinished parent to a task that is already ready lets it run before the parent
  (`TaskRuns.LateLinkBreaksOrder`); exactly such links break the order (`TaskRuns.OrderBreaksIff`,
  `TaskRuns.ParentsDoneIff`).

## Model

| member | source | states |
|---|---|---|
| `CrashFs.DurableSurvives` | src/learning_loop/persistence.py:91-103 | A name fsynced together with all its parent directories survives every power loss, whatever happens to the other names |
| `CrashFs.NotDurableCanVanish` | src/learning_loop/persistence.py:91-103 | A new name whose directory was not fsynced is lost by some power loss |
| `CrashFs.SyncMakesDurable` | src/learning_loop/persistence.py:294-299 | fsync of the parent makes an fsynced file below durable directories durable |
| `CrashFs.SyncDirIs` | src/learning_loop/persistence.py:91-96 | fsync of a directory makes its own entries definite and those of no other directory |
| `CrashFs.EveryValueCanReturn` | src/learning_loop/persistence.py:88-106 | In a durable directory a power loss can bring back every value a name had since the last fsync, and any bytes of a file not fsynced |
| `CrashFs.NothingElseReturns` | src/learning_loop/persistence.py:88-106 | ... and nothing else |
| `ChainInvariant.DurablePrefix` | src/learning_loop/persistence.py:326-354 | The invariant "artifact i+1 visible implies artifact i durable" makes the durable artifacts a prefix of E, R, El, Q with exactly the producers' bytes |
| `ChainInvariant.PowerLossKeepsInv` | src/learning_loop/persistence.py:302-323 | The invariant survives every power loss at every moment |
| `ChainInvariant.LinkKeepsInv` | src/learning_loop/persistence.py:302-323 | Linking artifact i on top of a durable artifact i-1 keeps the invariant and everything durable |
| `ChainInvariant.LinkKeepsInvIff` | src/learning_loop/persistence.py:302-323 | In every state with the invariant, linking the next artifact keeps it exactly if the artifact before is durable |
| `ChainInvariant.SyncCannotBeDropped` | src/learning_loop/persistence.py:344-354 | After the link of E and before its fsync, linking R breaks the invariant, and one power loss then leaves R without E |
| `ChainPublisher.UpstreamLoop` | src/learning_loop/persistence.py:259-263 | The first preflight loop accepts exactly the presence vectors that are closed under predecessors |
| `ChainPublisher.MissingLoop` | src/learning_loop/persistence.py:264-270 | The second preflight loop accepts exactly the same vectors |
| `ChainPublisher.InvIsPublishable` | src/learning_loop/persistence.py:234-275 | Every state that satisfies the invariant passes preflight after temp cleanup |
| `ChainPublisher.AcceptedIsPublishable` | src/learning_loop/persistence.py:234-275 | The preflight accepts exactly the trees whose digest directory holds only artifacts, in the order of the chain and with the producers' bytes, without a request for an ineligible evaluation |
| `ChainPublisher.StateDisk.CleanupTemps` | src/learning_loop/persistence.py:174-180 | Removes exactly the temporaries of one directory |
| `ChainPublisher.StateDisk.Check` | src/learning_loop/persistence.py:234-275 | Preflight answers in the order of its checks: an unexpected entry, a queue request of an ineligible evaluation, an artifact without its predecessors, other bytes than the producers'; it accepts exactly the rest and reports which artifacts are present |
| `ChainPublisher.StateDisk.CapabilityProbe` | src/learning_loop/persistence.py:278-291 | The probe leaves the visible tree as it was and keeps the invariant at every cut |
| `ChainPublisher.StateDisk.EnsureDir` | src/learning_loop/persistence.py:294-299 | Creates a missing level or re-fsyncs an existing one; either way it is durable afterwards |
| `ChainPublisher.StateDisk.PublishFile` | src/learning_loop/persistence.py:302-323 | Adds one artifact with the expected bytes, durable, and nothing else; never replaces a final file |
| `ChainPublisher.StateDisk.RunChain` | src/learning_loop/persistence.py:326-354 | Accepts exactly the publishable trees; then evaluation, reflection and eligibility are durable with the producers' bytes, the queue request likewise if and only if the evaluation is eligible, and no temporary is left; cut anywhere it keeps the invariant and all existing artifacts |
| `ChainPublisher.StateDisk.Persist` | src/learning_loop/persistence.py:357-361 | From every reachable state an uninterrupted persist succeeds, with E, R and El durable, the request durable if and only if the evaluation is eligible, and no temporaries |
| `ChainPublisher.StateDisk.Resume` | src/learning_loop/persistence.py:364-408 | Resume is refused exactly when E is missing, is not canonical, or belongs to another evaluation or digest, each with its own code and without a change; otherwise it does what persist does |
| `ChainPublisher.CompletedTwice` | src/learning_loop/persistence.py:326-354 | Completing a complete chain changes no byte |
| `ChainPublisher.Replay` | src/learning_loop/persistence.py:326-408 | Any number of persist and resume runs, each cut anywhere, mixed with power losses, keeps the invariant and never changes a durable artifact |
| `ChainPublisher.Converge` | src/learning_loop/persistence.py:326-408 | After any such history one uninterrupted persist completes the chain, the request present iff eligible and no temporaries left; a resume and a second persist change nothing |
| `DecisionStore.ReduceState` | src/human_review/decision.py:212-265 | No event means pending; a first decision alone, or a deferral followed by a second decision that does not defer, gives the state that the action of the last one names; every other list is refused |
| `DecisionSafety.DecideMoveOk` | src/human_review/review_store.py:614-679 | Every I/O step of decide keeps the store's invariant, whatever the other processes do in between |
| `DecisionSafety.RunInv` | src/human_review/review_store.py:532-587 | The invariant holds after every interleaving with failures, kills and power losses |
| `DecisionRuns.SuccessIsForever` | src/human_review/review_store.py:448-452 | Once decide has returned published or idempotent, the slot is durable and no later step, power losses included, changes it |
| `DecisionRuns.PublishedOnce` | src/human_review/review_store.py:559-577 | At most one caller per slot is ever told "published" |
| `DecisionRuns.PublishedExactlyOnce` | src/human_review/review_store.py:559-587 | Every file there is has its linker, and exactly that caller has been told "published", unless it is still about to report or was ended by a failure, a kill or a power loss |
| `DecisionRuns.SuccessesAgree` | src/human_review/review_store.py:448-461 | All callers that succeed on a slot submitted the same command and got the same event |
| `DecisionRuns.DecisionHasDurableRequest` | src/human_review/review_store.py:540 | A visible decision has a durable request, after every mix of failures |
| `DecisionRuns.ReduceIffLegal` | src/human_review/decision.py:212-265 | reduce_state succeeds on a request exactly when slot 2 is absent or follows a deferral without deferring again |
| `DecisionRuns.PublishedNamesTheState` | src/human_review/decision.py:212-265 | After every interleaving that leaves legal requests, each published decision is what its request's state says: accept, reject and revise settle it, a deferral until a second decision stands |
| `DecisionRuns.ConcurrentDecidersStayLegal` | src/human_review/review_store.py:614-679 | Without power loss any number of concurrent deciders keeps every request legal, and nobody is told the store is malformed |
| `DecisionRuns.LossIsHarmlessIff` | src/human_review/decision.py:212-265 | On every disk of the store, all power losses leave requests that reduce_state accepts, exactly if each second decision stands on a durable deferral |
| `DecisionRuns.SealBreaksIff` | src/human_review/review_store.py:532-587 | The one step that takes this away is linking a second decision before its deferral is durable |
| `DecisionRuns.PowerLossIsHarmlessIff` | src/human_review/review_store.py:532-587 | So over every interleaving with any failures: no power loss at any moment leaves a store that reduce_state refuses, exactly if no second decision was linked before its deferral was durable |
| `DecisionRuns.SequentialDecidersSurvivePowerLoss` | src/human_review/review_store.py:391-396 | With one decider at a time for each request that never happens: a second decision stands on a durable first one, through every mix of kills and power losses |
| `DecisionRuns.ListNeverReportsOrphan` | src/human_review/review_store.py:815-855 | list never raises orphan_decision, in every interleaving |
| `DecisionSafety.OrphanMeansNoQueueYet` | src/human_review/review_store.py:730-746 | A pass sees an orphan only if it looked for the queue before there was one, which the second pass cannot |
| `DecisionWitnesses.FirstPassCanSeeOrphan` | src/human_review/review_store.py:815-855 | The first pass alone can see an orphan, so the second pass is needed |
| `DecisionWitnesses.ConcurrentDecidersAndPowerLoss` | src/human_review/review_store.py:532-587 | A run of two concurrent deciders and a power loss after which reduce_state fails |
| `DecisionAlone.DecideAlone` | src/human_review/review_store.py:614-679 | A decider that runs alone answers by the state of its request: published with its own event if allowed, idempotent or a conflict if the slot is taken, refused otherwise |
| `DecisionAlone.PublishAlone` | src/learning_loop/persistence.py:294-323 | A queue request published alone is there and durable, with the queue it lies in |
| `DecisionAlone.ListAlone` | src/human_review/review_store.py:815-855 | A listing that runs alone over legal decisions comes through |
| `DecisionAlone.StartsIff` | src/human_review/review_store.py:614-640 | A call with another ordinal than 1 and 2, or without claim or reason, does nothing |
| `JsonText.ReadPrinted` | src/human_review/decision.py:74-83 | Reading an escaped string back, surrogate pairs included, joins adjacent halves and changes nothing else |
| `JsonText.MergeIffWhole` | src/human_review/decision.py:74-83 | Joining changes a string exactly when a high half stands before a low half |
| `JsonText.EscapeMerged` | src/human_review/decision.py:74-83 | The joined string has the same escaped form |
| `JsonText.ReadIsWhole` | src/human_review/decision.py:285-297 | No string the decoder returns holds two adjacent halves |
| `JsonObject.ObjectBack` | src/human_review/decision.py:279-297 | A printed object of strings and integers is read back with the same members in the same order |
| `RecordedAt.PrintedIsAccepted` | src/human_review/review_store.py:464-475 | Every UTC datetime printed by the store is accepted with the same fields |
| `RecordedAt.AcceptedIsPrinted` | src/human_review/decision.py:116-165 | Every accepted time stamp is the printed form of exactly one real datetime |
| `RecordedAt.LeapRule` | src/human_review/decision.py:147-153 | The leap rule agrees with the length of the year counted in days of the proleptic Gregorian calendar |
| `RecordedAt.PrintIs` | src/human_review/review_store.py:464-475 | The stamp is year, month, day, `T`, hour, minute, second, `Z`, two digits each and four for the year |
| `RecordedAt.RealIff` | src/human_review/decision.py:116-165 | Its fields are exactly those of the calendar |
| `DecisionCodec.DecodeOfCanonical` | src/human_review/decision.py:279-322 | The canonical bytes of every valid decision decode, to the decision with its surrogate halves joined |
| `DecisionCodec.RoundTrip` | src/human_review/decision.py:279-322 | They decode to the same decision exactly when neither text holds adjacent halves |
| `DecisionCodec.BuildRoundTrip` | src/human_review/decision.py:95-113 | In particular for everything build_decision makes of texts without surrogates |
| `DecisionCodec.AcceptedIsCanonical` | src/human_review/decision.py:279-322 | Every accepted byte string is the canonical form of its result, which is valid and bound to the request and slot asked for |
| `DecisionCodec.CanonicalIsInjective` | src/human_review/decision.py:74-92 | Two valid decisions share their bytes only if they differ in nothing but the joining of halves |
| `DecisionText.EscapeLaw` | src/human_review/decision.py:74-83 | Each character is written as itself, as one of seven short escapes, or as lower-case UTF-16 escapes |
| `DecisionText.KeysAscend` | src/human_review/decision.py:74-83 | The keys ascend by code point |
| `DecisionText.CanonicalText` | src/human_review/decision.py:74-113 | The canonical text and the text of the digest, pair by pair: which field stands under which of the eight names |
| `DecisionText.DecodedFields` | src/human_review/decision.py:279-322 | Every field of a decoded decision is what the text holds under its name |
| `DecisionText.BuildIff` | src/human_review/decision.py:95-113 | build_decision succeeds exactly on a `rq_` identifier, slot 1 or 2, one of the four actions, claim, reason and a valid stamp; it keeps them and adds the digest of the text without it |
| `DecisionText.DecodeIff` | src/human_review/decision.py:279-322 | Accepted are exactly the canonical texts of valid decisions with the right digest for the request and slot asked for, without adjacent surrogate halves |
| `IndexDatabase.Index.MakePlan` | src/memory.py:2153-2197 | An item is kept exactly if all three tables hold it alone at its path, added exactly if neither path nor id is known, updated otherwise, in order; deleted are exactly the indexed paths without an item whose records do not live on elsewhere |
| `IndexDatabase.Index.ApplyDeletions` | src/memory.py:2393-2400 | Afterwards exactly the rows at the planned paths are gone from all three tables |
| `IndexDatabase.Index.UpsertItem` | src/memory.py:2246-2273 | Row by row in all three tables: whoever else held the path is gone, the item stands at its path with its digest and time, its old path is forgotten; no insert ever meets another holder of the path |
| `IndexSync.UpsertMemories` | src/memory.py:2402-2415 | After any part of the upsert loop the memory rows are those of the items done, plus the old rows nobody displaced |
| `IndexSync.UpsertState` | src/memory.py:2402-2415 | ... and the index rows likewise, except those a later mover took away |
| `IndexSync.FinalMemories` | src/memory.py:2393-2417 | The memory table always ends as a rebuild would have it |
| `IndexSync.FinalStateOn` | src/memory.py:2402-2407 | The index row of an item is lost exactly when another record moved from its path to a later one |
| `IndexSync.RebuiltUnlessBadMove` | src/memory.py:2393-2417 | All three tables equal a rebuild from scratch exactly when no surviving record moved from a path still in use to a later path |
| `IndexStore.CheckIff` | src/memory.py:2315-2351 | On such tables the consistency check passes exactly when no index row is missing |
| `IndexStore.Apply` | src/memory.py:2393-2417 | apply_index_changes succeeds exactly without such a move, then the tables are a rebuild and fresh; the path constraint is never hit |
| `IndexStore.ReplanIsIdle` | src/memory.py:2153-2197 | After a success every item is unchanged, nothing is deleted, and the index is fresh |
| `IndexStore.Store` | src/memory.py:2447-2500 | Both indexes are committed together exactly when neither has a bad move; otherwise both keep their old tables; the reported counts are the numbers of new, kept and left-behind entries |
| `IndexStore.SwapIsRefused` | src/memory.py:2402-2417 | In a store of any size, any two records that swap their files make the run fail |
| `IndexTables.ClassifyIs` | src/memory.py:2153-2197 | When an item counts as unchanged, added or updated, table by table |
| `FrontMatterRoundTrip.QuotedRead` | src/memory.py:390-391 | A string quoted without ASCII escapes is read back as its code points |
| `FrontMatterLines.FileRead` | src/memory.py:579-663 | A file written by hand, with unquoted values, lists and text blocks, is read without errors as exactly these, whatever body follows |
| `FrontMatterLines.SkippedLine` | src/memory.py:598-617 | Which lines are skipped, each with its error |
| `FrontMatterLines.SecondValue` | src/memory.py:619-623 | A second value of a key is an error and replaces the first |
| `FrontMatterLines.NoValue` | src/memory.py:637-655 | Only a list field may be left without a value |
| `FrontMatterLines.Unframed` | src/memory.py:587-594 | Nothing is read without the opening line or without the closing one |
| `FrontMatterFile.ParseFrontMatter` | src/memory.py:579-663 | The index-driven loop computes what the parser of whole lines computes |
| `FrontMatterFile.ParseOfRender` | src/memory.py:394-458 | Parsing a printed record gives it back without errors, whatever body follows, with only the line ends of its content unified |
| `FrontMatterFile.RoundTripIff` | src/memory.py:579-663 | Without U+0085, U+2028 and U+2029 outside the content, the very same record comes back exactly when its content is its own lines joined by newlines |
| `FrontMatterLimits.Unterminated` | src/memory.py:563-568 | A quoted string cut off anywhere before its closing quote never parses |
| `FrontMatterLimits.BrokenIsReported` | src/memory.py:579-663 | A record with one of these characters in any scalar or list item breaks its line, and the parser always reports an error: it never accepts a shortened value silently |
| `FrontMatterLimits.RoundTripExactly` | src/memory.py:394-458 | So for every record the printer takes, the same record comes back without errors exactly when no string outside the content holds these characters and the content is its own lines joined by newlines |
| `FrontMatterFile.RenderExisting` | src/memory.py:473-481 | Replaces the front matter and appends what stood below the closing delimiter |
| `FrontMatterFile.BodyOfRendered` | src/memory.py:473-481 | The body is found again below every printed front matter: no printed line looks like the delimiter |
| `FrontMatterFile.ReplaceKeepsBody` | src/memory.py:473-481 | The new file has the bytes below the old closing delimiter exactly if these hold no carriage return, whatever the line ends above, and parses to the new record |
| `FrontMatterFile.WindowsBodyChanges` | src/memory.py:473-481 | A file with Windows line ends loses a byte of its body |
| `TextLines.SameLines` | src/memory.py:579-585 | Reading a file changes the ends of its lines and nothing else |
| `ReplaceTransaction.Disk.PrepareAll` | src/memory.py:1068-1079 | Prepares a temporary file with the new content for every operation, or stops at the fault with no file changed |
| `ReplaceTransaction.Disk.ReplaceAll` | src/memory.py:1106-1109 | Puts the new contents in place in order; cut anywhere, exactly a first part of the operations is in effect |
| `ReplaceTransaction.Disk.Rollback` | src/memory.py:1110-1125 | Whatever part was in effect, every file is as before, less the cleanup paths, and no temporary file or backup is left |
| `ReplaceTransaction.Disk.Transaction` | src/memory.py:1082-1128 | For distinct paths and a fault at every possible operation: everything is old exactly when it comes before the last replacement is synced, everything new otherwise; never a mixture |
| `ApplyFiles.Apply` | src/memory_distill.py:304-331 | Success exactly when files, index and verification go through; a fault while writing leaves all old or all new files; an index or a verify failure, told apart, restores the files and refreshes the index again; the restore itself fails exactly if the fault comes among its operations |
| `ApplyFiles.RestoredIff` | src/memory_distill.py:305-325 | The restored files equal the old ones exactly when no replaced file held a carriage return |
| `Lifecycle.DeadStaysDead` | src/memory/lifecycle.py:5-29 | Along the transition table a deprecated, conflicted or archived record never changes again |
| `MemoryFiles.MemoryFiles.AcceptCandidate` | src/memory_distill.py:686-842 | For every action when it is accepted, when it is stale, and what it writes: ADD activates; UPDATE and DEPRECATE activate the candidate and deprecate its target with links both ways; merge and support let the target gain the references and archive the candidate; a transition writes the planned record in the place of its target; REVIEW_REQUIRED gives a conflict, anything else archives; nothing else changes |
| `MemoryFiles.MemoryFiles.CheckTransitions` | src/memory_distill.py:592-598 | Accepts exactly the changes whose status steps are among the seven of the table |
| `SupersessionEffects.AcceptedProposal` | src/memory_distill.py:686-842 | For all stores and proposals: acceptance exactly if the action can be carried out on the target, staleness exactly if target or plan have changed, and the effect of each action |
| `SupersessionEffects.MergeGains` | src/memory_distill.py:763-771 | A merged list keeps the old entries in order and adds each missing one once |
| `SupersessionEffects.ReplacementGoesThrough` | src/memory_distill.py:686-842 | A replacement of an active record that is proposed and accepted with nothing in between always takes its place |
| `SupersessionRuns.LinkKeepsInv` | src/memory_distill.py:787-800 | Retiring an active record in favour of one without links keeps the links symmetric, acyclic and single |
| `SupersessionRuns.RunInv` | src/memory_distill.py:686-842 | After every run of proposals and reviews from a store without links, the links are symmetric and acyclic and every record has at most one successor |
| `SupersessionRuns.NoCycle` | src/memory_distill.py:787-800 | No walk along superseded_by comes back |
| `SupersessionRuns.EndsActive` | src/memory_distill.py:787-800 | Following superseded_by from a superseded record ends at an active one |
| `SupersessionRuns.SupersededOnce` | src/memory_distill.py:721-731 | A record is superseded at most once, and is deprecated then |
| `SupersessionRuns.DeadIsForever` | src/memory_distill.py:592-598 | No deprecated, archived or conflicted record becomes active again in any run |
| `SupersessionRuns.CompetitorIsStale` | src/memory_distill.py:721-731 | Once a replacement or a context transition has retired a target, every other proposal bound to it, of whatever kind, is refused for ever |
| `BridgeInbox.BridgeEventInbox.IngestEvent` | src/bridge/inbox.py:196-291 | When each of the six outcomes is given; an insert appends the event, queued if final and captured if not; an update puts it in the place of its draft and keeps the attempts; every other outcome changes nothing |
| `BridgeInbox.BridgeEventInbox.ClaimNext` | src/bridge/inbox.py:293-332 | Claims the first queued event whose parent is processed in its conversation and counts the attempt; nothing exactly if there is none |
| `BridgeInbox.BridgeEventInbox.MarkFailed` | src/bridge/inbox.py:349-362 | Back to the queue while fewer than five attempts were made, failed otherwise |
| `BridgeInbox.BridgeEventInbox.RecoverProcessing` | src/bridge/recovery.py:12-31 | Puts exactly the interrupted events back |
| `BridgeProjector.SessionProjector.Project` | src/bridge/projector.py:157-202 | The answer is the first thing that goes wrong on the way, if any; without one the session gains the message unless its tag is there; the pass is a run of the machine's steps |
| `BridgeProjector.SessionProjector.ProcessNext` | src/bridge/projector.py:204-225 | The claimed event ends processed exactly when nothing goes wrong, queued again after an unexpected error with attempts left, failed otherwise; processed, its message is in the session |
| `BridgeProjector.SessionProjector.Drain` | src/bridge/projector.py:227-238 | Stops after the limit, at the first event that went back to the queue, or when nothing can be claimed |
| `BridgeSafety.NextKeepsInv` | src/bridge/projector.py:157-225 | Every statement of the worker, every arrival, every recovery and every crash keeps the invariant |
| `BridgeRuns.AtMostOnce` | src/bridge/projector.py:109-114 | In every run an event is in at most one place of at most one session |
| `BridgeRuns.ProcessedIsProjected` | src/bridge/projector.py:204-225 | A processed message is in its session with its final content |
| `BridgeRuns.EveryEntryIsAnEvent` | src/bridge/projector.py:165-182 | Whatever is in a session is the final content of one of its events, behind the message of its parent |
| `BridgeRuns.AppendAfterParent` | src/bridge/inbox.py:296-316 | A message with a parent is appended only after an event with that message id was processed |
| `BridgeRuns.AttemptsBounded` | src/bridge/inbox.py:349-362 | Attempts never exceed five plus the event's recoveries; an event waits as captured exactly while it is not final |
| `BridgeRuns.FinalIsForever` | src/bridge/inbox.py:257-268 | A final event never changes and processed is for ever |
| `BridgeRuns.TakenIsKept` | src/bridge/inbox.py:245-290 | After an accepted final event its content, role and parent are in the inbox for ever |
| `BridgeRuns.EntryHolds` | src/bridge/projector.py:164-182 | What an entry of a session says, key by key, the metadata of the event over the bridge's own |
| `BridgeTags.OnceIffHonest` | src/bridge/projector.py:164-179 | Among honest events, a final message as the inbox holds it, with or without a parent, is appended at most once in every run exactly if its metadata does not overwrite its tag |
| `BridgeThefts.LostWasStolen` | src/bridge/projector.py:109-114 | In every run, whatever arrives: a message that is processed without being in its session had its tag brought into that session by another event |
| `BridgeThefts.LostIffStolen` | src/bridge/projector.py:109-114 | Of two events as the inbox holds them, with honest events beside them, a final message can be lost exactly if the other is a final message that carries its tag into its session, in a slot and with an entry of its own |
| `BridgePool.RecoveryMustWait` | src/bridge/recovery.py:12-31 | With any number of workers an honest message is appended at most once in every run in which no recovery puts back an event that a worker is still at; without that condition two workers append every such message twice |
| `PatternGraph.PatternGraph.AddEdge` | src/learning_loop/pattern_engine.py:98-105 | Sets exactly one weight, never negative, between existing patterns |
| `PatternGraph.MatrixFollowsWeights` | src/learning_loop/pattern_engine.py:128-143 | A node sends its rank along its edges in proportion to their weights, one without outgoing weight to all nodes alike |
| `PowerIteration.IterateAt` | src/learning_loop/pattern_engine.py:125-150 | Every node starts with the same rank; a turn gives it an equal part of 1 - d and d times what is sent to it |
| `PatternGraph.CalculatePagerank` | src/learning_loop/pattern_engine.py:108-161 | The result is the k-th iterate from the uniform vector, has total rank 1 and positive ranks, and k is the first turn that meets the tolerance |
| `PowerIteration.StepKeepsMass` | src/learning_loop/pattern_engine.py:130-150 | One turn conserves the total rank, with any number of dangling nodes |
| `PowerIteration.StepContracts` | src/learning_loop/pattern_engine.py:130-150 | One turn brings any two vectors closer by the damping factor in the L1 norm |
| `PowerIteration.DiffBound` | src/learning_loop/pattern_engine.py:143-153 | The k-th difference is at most 2 d^(k-1), whatever the graph |
| `PowerIteration.StationaryIsUnique` | src/learning_loop/pattern_engine.py:130-150 | There is at most one stationary vector |
| `PowerIteration.Approach` | src/learning_loop/pattern_engine.py:130-150 | The iterates approach every stationary vector geometrically |
| `StationaryRanks.BalanceExists` | src/learning_loop/pattern_engine.py:130-150 | Every network in which each node keeps something back has a balance: nodes are taken out one by one, as in Gaussian elimination |
| `StationaryRanks.StationaryExists` | src/learning_loop/pattern_engine.py:130-150 | So every graph has a stationary vector, with total rank 1 and positive ranks |
| `StationaryRanks.Converges` | src/learning_loop/pattern_engine.py:130-150 | On every graph the k-th iterate is within 2 d^k of the one stationary vector |
| `PowerIteration.IteratesAreCauchy` | src/learning_loop/pattern_engine.py:130-150 | The iterates from k on are all within 2 d^k of the k-th, whatever the graph |
| `PowerIteration.StoppingError` | src/learning_loop/pattern_engine.py:152-153 | The last difference bounds the distance to a stationary vector |
| `PowerIteration.LaterIteratesStayClose` | src/learning_loop/pattern_engine.py:152-153 | It also bounds the distance to every later iterate |
| `PatternGraph.DefaultStopsEarly` | src/learning_loop/pattern_engine.py:108-113 | With the default parameters the break fires by the 91st turn, so max_iter is never what ends the loop |
| `PatternGraph.DefaultError` | src/learning_loop/pattern_engine.py:108-113 | ... and the ranks are then within 0.000006 of the stationary distribution, which every graph has |
| `PatternGraph.DefaultSettles` | src/learning_loop/pattern_engine.py:108-113 | ... and of every later iterate |
| `Evidence.BuildComposition` | src/learning_loop/evidence.py:67-90 | Every record is entered once: contradicted if in conflict or superseded, verified if confirmed, active and not superseded, unknown otherwise; the counts are the sizes of these sets |
| `Evidence.CountedIs` | src/learning_loop/evidence.py:45-90 | The counts are the numbers of the records with these properties and add up to the number of records |
| `Evidence.StrataAre` | src/learning_loop/evidence.py:45-64 | When a record is contradicted, verified or unknown |
| `VerdictLaws.EvaluateIff` | src/learning_loop/evaluation.py:70-180 | An evaluation is made exactly of bundles that speak of one task and two runs, whose figures agree within 1e-9, with thresholds in bounds |
| `VerdictLaws.EvaluationIs` | src/learning_loop/evidence.py:113-147 | The evidence suffices exactly if there are records and the verified share reaches the threshold; the verdict is C unless that holds and the thresholds were frozen, and then A exactly if the gain is above its threshold |
| `VerdictLaws.ReflectionIs` | src/learning_loop/reflection_builder.py:180-262 | The reflection repeats the figures of its evaluation; its uncertainties and missing information are exactly those that apply |
| `VerdictLaws.EligibilityIs` | src/learning_loop/eligibility.py:16-159 | The case number counts four for the verdict, two for contradicted and one for unknown records; eligible are A and B; the reasons are exactly those that apply |
| `VerdictLaws.ForbiddenIs` | src/learning_loop/reflection_builder.py:22-62 | A key is refused exactly if one of the seven terms stands in its folded form |
| `VerdictLaws.ExtrasOkIff` | src/learning_loop/reflection_builder.py:51-62 | What stands beside the thresholds is accepted exactly if no place in it, at any depth, holds such a key or a non-finite number |
| `VerdictChain.RequestIffEligible` | src/learning_loop/queue_request.py:54-80 | A queue request is made exactly for the one reflection and the one eligibility of an admitted evaluation with frozen thresholds and sufficient evidence; then its ratio and verdict are what counts, delta and thresholds determine |
| `VerdictChain.EvaluationGoesThrough` | src/learning_loop/evaluation.py:19-200 | An evaluation is admitted exactly when its runs are named and nothing beside the thresholds holds a forbidden key or a non-finite number at any depth; then it passes P1 to P8 and one matrix row, is eligible iff A or B iff frozen and sufficient, and yields a request iff eligible |
| `VerdictChain.SameIdSameVerdict` | src/learning_loop/evidence.py:16-42 | Two evaluations with the same identifier have the same verdict, status and ratio |
| `MessageSplit.Prefix` | src/message_io/types.py:51-61 | The binary search returns the longest prefix that fits |
| `MessageSplit.LongestIsLongest` | src/message_io/types.py:51-61 | No longer prefix fits |
| `MessageSplit.SplitMessage` | src/message_io/types.py:64-79 | Every part fits and is the longest prefix of what remained, or ends at the last newline or space in the second half of that prefix; the message is the parts with only white space dropped after them; it raises exactly for limit 1 and a character beyond U+FFFF |
| `MessageSplit.MeasuresUnits` | src/message_io/types.py:47-48 | A message measures as many units as its UTF-16 encoding has, from which joining the pairs gives it back |
| `MessageSplit.OneSplit` | src/message_io/types.py:64-79 | There is only one way to cut a message like this |
| `TaskBoard.KanbanStore.RecomputeReady` | src/delegation/tasks.py:177-200 | Releases exactly the todo tasks whose parents are all done |
| `TaskBoard.KanbanStore.ClaimTask` | src/delegation/tasks.py:202-227 | Claims the ready task of highest priority and earliest creation, and changes that one only |
| `TaskBoard.KanbanStore.CompleteTask` | src/delegation/tasks.py:244-259 | Only the owner completes a running task; then exactly the todo tasks whose other parents are all done become ready |
| `TaskBoard.KanbanStore.BlockTask` | src/delegation/tasks.py:261-278 | Only the owner of a running task blocks it; a dependency sends it back to todo, a transient cause to ready, input or capability blocks it |
| `TaskRuns.OwnersInRuns` | src/delegation/tasks.py:202-278 | In every run a task has an owner exactly while it is running |
| `TaskRuns.ClaimIsGranted` | src/delegation/tasks.py:202-227 | So a claim succeeds exactly when something is ready |
| `TaskRuns.TransientIsClaimedAgain` | src/delegation/tasks.py:202-278 | After a transient block the next claim takes the task again if nothing ready comes before it |
| `TaskRuns.DoneIsForever` | src/delegation/tasks.py:244-259 | Done is absorbing |
| `TaskRuns.OrderBreaksIff` | src/delegation/tasks.py:91-278 | A call keeps "every ready, running or done task has all its parents done" exactly unless it links an unfinished parent to a task that is already ready, running or done |
| `TaskRuns.ParentsDoneIff` | src/delegation/tasks.py:177-200 | So in a run that holds at all times exactly if no such link is added |
| `TaskRuns.CyclesNeverRun` | src/delegation/tasks.py:165-227 | Then no task on a dependency cycle is ever ready or running, and if one is done, all are |
| `TaskRuns.CyclesNeverFinish` | src/delegation/tasks.py:165-259 | If moreover no link is added to a finished task, none is ever done |
| `TaskRuns.LateLinkBreaksOrder` | src/delegation/tasks.py:165-175 | A run with such a link, in which a task runs before its parent is done |

## Left out

- Path gates, symbolic links, path lengths and sync roots: taken as passed. Temporary and probe names are abstract and fresh.
- ChainPublisher.StateDisk.Resume: an E that is no JSON and one that is not canonical are refused with one code; the original has two.
- ChainPublisher.StateDisk.Check: the second preflight loop's own error is not a separate result, since both loops accept the same vectors.
- The `show` command, decision temporaries and the bytes of requests: the decision store keeps names and events only.
- IndexDatabase.Index.MakePlan: the deletions come in any order instead of sorted by path; their order has no effect.
- Legacy `recent` rows, WAL, checkpoints, tokenizer, ranking and the database schema.
- FrontMatterFile.ParseFrontMatter: errors are told apart by kind and key, not by their text; the later validation of the parsed fields is not modelled.
- ReplaceTransaction.Disk.Transaction: faults inside the rollback, the interpreter's own interrupts and power losses are not modelled.
- Supersession: the checks of the hypothetical store that do not concern links are one parameter; source bindings are taken as verified; record digests stand for whole files; `refs` stands for each of the lists that a merge joins.
- The normalisation of incoming bridge events, scope mappings and the review coordinator: an event arrives in the form `BridgeTables.Normalised` describes, and is refused otherwise; scope and review are inputs.
- BridgeSafety.NextKeepsInv: one worker. For several, `BridgePool.RecoveryMustWait` says which recoveries are safe and that one that does not wait can double a message; which of the others happen to do no harm is not stated. That the source of an event is in lower case is not tracked.
- PatternGraph.CalculatePagerank: floats are reals, so rounding and the order of additions are not covered. Hints, decay and outcomes are left out.
- Evidence.BuildComposition: values of unexpected dynamic types are refused by the original and cannot be written here.
- VerdictChain: claim texts, reason texts and keys that are not strings are left out.
- MessageSplit.SplitMessage: strings with lone surrogates cannot be measured by the original and are not modelled.
- TaskBoard: descriptions, results, events and expiry of claims, which the original never acts upon.
- Model backends, HTTP, command lines, handoff, profiles, registry, context packs and retrieval: formatting, I/O or smaller versions of the same arguments.
