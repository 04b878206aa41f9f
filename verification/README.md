# A verified model of the WhatsApp bridge's local state

The bridge keeps everything it knows about WhatsApp on one machine: media blobs in a directory, the
pairing flow and the sync run in memory, chats, messages, reactions and polls in SQLite tables, and
views over those tables for its tool callers. This project models that local state in Dafny and
proves what its callers rely on. `dafny verify dfyconfig.toml` checks all of it.

One module per file.

- **Media** (`MediaNames`, `MediaCache`, `MediaRetention`, `MediaDirectory`, `MediaSweep`,
  `SweepTwice`, `MediaStore`, `MediaRefinement`, `LruQueue`, `LruRefinement`, `StoreGuarantees`,
  `MediaAnswers`). A directory of blob and sidecar files whose two modification times are the only
  database. The methods of `MediaStore.Store` follow the code file by file; one lemma each relates
  put, lookup, open and sweep to a map of objects, and `LruRefinement` relates every run of that map
  to a plain least-recently-used queue with hard expiry, sweep reports included. A payload whose
  chosen extension is `.json` is the exception: the sidecar overwrites the blob. `PutThenOpen` says
  exactly when bytes put are bytes opened, in any directory: when the directory already read them
  back, or read nothing and the extension is not `.json`. `JsonPayloadIsLost` gives a payload that
  is lost, `SecondPutIsLost` one that stays lost when the same bytes are put again as plain text.
- **Pairing and sync** (`PairEvents`, `PairSession`, `PairFlow`, `PairTheorems`, `SyncReports`,
  `SyncOrchestrator`, `SyncFlow`, `PairAnswers`, `SyncOutcomes`). The critical sections are class
  methods; the interleavings of goroutine, observers, watchdog and admin calls are a state machine
  over those sections with invariants over all runs. The two places where the protocol does not keep
  what one might expect have a concrete run each (`ExpiryCanBeMissed`, `TimeoutLeavesTwoLive`);
  `AtMostOneLive` says exactly which runs have one live session throughout.
- **Ingest** (`CacheTables`, `CacheStore`, `Events`, `Ingestor`, `LastWriterWins`, `IngestRuns`,
  `IngestErasure`, `IngestConvergence`, `MessageRows`, `EventAnswers`, `MessageAnswers`,
  `HistoryAnswers`). Each event denotes a list of row writes, and each handler performs exactly
  those. What holds over all event sequences — monotone rows, the maximum of last-message times,
  convergence of reactions and votes under reordering and repetition, their non-interference with
  the rest — is proved about the lists.
- **Conversations** (`Calendar`, `CalendarDates`, `CalendarKeys`, `Aliases`, `Conversations`,
  `ConversationTheorems`, `ConversationIdentities`, `ConversationLoads`, `ConversationTies`,
  `ConversationUnread`, `ConversationSources`, `ConversationList`, `ConversationAnswers`). Loading
  the chats with their last messages, merging the chats of one contact, filtering in place, sorting
  by RFC 3339 strings, paging.
- **Voice notes** (`OggPages`, `OggProbe`, `OggAnswers`). Ogg pages (RFC 3533, section 6), the
  identification header and granule positions (RFC 7845, sections 4 and 5.1), and the 64-bit
  arithmetic of durations.
- **Polls** (`Polls`, `PollVoting`, `PollRoundTrip`, `PollSources`, `PollAnswers`), **message
  context** (`ContextWindow`, `ContextTheorems`, `MessageReactions`, `ContextAnswers`) and
  **migrations** (`Migrations`).
- `Wrappers`, `GoValues`, `Lex`, `Sorting` and `Sums` are shared: results, 64-bit values, the order
  of strings, stable sorting, and sums over sets.

The modules named `…Answers`, with `MessageRows`, `SyncOutcomes` and `CalendarDates`, say what the
answers are, of the arguments and the stored rows alone.

Code outside the model is a parameter: SHA-256, JSON, the MIME database and file-name sanitising are
fields of `MediaCache.Env`; option hashing, trimming and lower-casing are functions passed in; the
effect of a migration's SQL is a function from schemas to schemas; clock readings and failures are
arguments. Go maps are iterated in an arbitrary order. Strings are sequences of code units compared
as Go compares bytes.

Where code and comments differ the model follows the code:

- The overview's comment says that its identities match `ResolveLinkedJIDs`; they do for a phone
  JID, and for a LID only if the pair is the whole family (`LidIdentitiesAgree`, `TwoLidsDisagree`).
- Its unread count is described as the sum over the merged chats; a chat with several messages in
  its last second is loaded, and counted, once for each (`UnreadIsExact`, `TiedChatCountsTwice`).
- The sort comment says that the strings order as the times do. They do exactly when the strings of
  the years are in order and the null time, stored as 0, is not beside a time before 1970
  (`KeyOrderIsTimeOrder`): always from year 0 to 9999 (`FourDigitYearsAreInOrder`), and not for 9999
  and 10000 (`Year10000SortsFirst`).
- `page * limit` can exceed 64 bits; `PageIsExact` says when the page is still the one asked for,
  `HugePageIsOutOfBounds` and `HugePageIsTheFirst` give pages for which it is not.
- The merge is meant not to depend on the order of the rows. Over arbitrary orders it does, exactly
  when newest rows differ in more than a missing name or two contact names differ
  (`WholeMergeIgnoresOrder`). The query's own order leaves only the preview open
  (`SameUpToPreview`), and that exactly when the newest chat has several messages in its last second
  (`PreviewIsFixed`, `EitherPreview`).

## Model

| member | source | states |
|---|---|---|
| `MediaNames.NormalizeDigest` | internal/media/media.go:387-404 | accepts exactly 64 hex digits, folds them to lower case, and accepts its own result unchanged |
| `MediaNames.PathRoundTrip` | internal/media/media.go:325-327 | the sweeper reads back from a blob's file name the digest and extension it was built from |
| `MediaNames.PathInjective` | internal/media/media.go:325-327 | different digests or extensions never share a path |
| `MediaStore.Store.PutStream` | internal/media/media.go:167-253 | the directory and result of a put in any state, including refusals, a deduplicated digest and a failed sidecar write that takes its blob back |
| `MediaStore.Store.Lookup` | internal/media/media.go:258-271 | a hit returns the stored descriptor and moves only the sidecar's time; a miss changes nothing |
| `MediaStore.Store.Open` | internal/media/media.go:280-299 | a hit returns the bytes, the descriptor and the blob's own time, and moves only the sidecar's time |
| `MediaAnswers.PutAnswers` | internal/media/media.go:167-253 | which payloads are refused and with which error; new bytes are described by their hash, their path, their length, the type given or the default, and the file name given or one made of the hash |
| `MediaAnswers.DescriptorComesBack` | internal/media/media.go:258-299 | after any further run that keeps the object, lookup and open return that description, the bytes and the time of the put |
| `MediaAnswers.TableIsTypes` | internal/media/media.go:409-428 | which types each listed extension stands for |
| `MediaAnswers.SanitizedExt` | internal/media/media.go:453-471 | an extension with a dot stays, in lower case, exactly when it has at most 16 letters and digits, and is `.bin` otherwise |
| `MediaDirectory.ReadRefines` | internal/media/media.go:258-339 | reading a directory is one use of an object of the abstract map |
| `MediaDirectory.PutRefines` | internal/media/media.go:167-253 | putting bytes is one abstract put: the first descriptor and age stay, or exactly one object is added |
| `MediaDirectory.PutThenOpen` | internal/media/media.go:167-253 | in any directory, a put that succeeds makes its bytes readable if and only if they read back before, or nothing did and the extension is not `.json` (a payload equal to its own sidecar excepted) |
| `MediaDirectory.JsonPayloadIsLost` | internal/media/media.go:433-448 | a JSON document reads back as its own sidecar, and the next sweep removes what is left |
| `MediaDirectory.SecondPutIsLost` | internal/media/media.go:219-225 | after a JSON put, a put of the same bytes as plain text succeeds and still does not bring them back |
| `MediaStore.Store.Scan` | internal/media/sweep.go:59-106 | the first pass finds exactly the blobs and sidecars and drops exactly the stale temp files, in any listing order |
| `MediaStore.Store.DropOrphanSidecars` | internal/media/sweep.go:108-114 | exactly the sidecars without a blob go |
| `MediaStore.Store.SplitByAge` | internal/media/sweep.go:116-140 | exactly orphaned and expired blobs go, the rest is live, and the counters agree with both |
| `MediaStore.Store.EnforceCap` | internal/media/sweep.go:142-162 | the loop removes exactly the blobs that do not fit the cap together with everything used later |
| `MediaStore.Store.Sweep` | internal/media/sweep.go:59-163 | the directory loses exactly the doomed paths, less those that cannot be removed, and the report is the one the directory's contents determine |
| `MediaSweep.ReportConserves` | internal/media/sweep.go:23-29 | freed and remaining bytes are all bytes, expired, evicted and kept blobs are all blobs, remaining is what the kept ones weigh |
| `MediaAnswers.SweepLeaves` | internal/media/sweep.go:59-163 | which files are left: temp files up to an hour old, the blob and sidecar of a digest no older than the TTL whose blob, with all used no earlier, fits the cap, and every file of another name |
| `MediaAnswers.ReportSays` | internal/media/sweep.go:59-163 | the report counts the blobs found, those past their age, the other ones that go, and the bytes of those that go and stay |
| `MediaRefinement.SweepRefines` | internal/media/sweep.go:59-163 | sweeping a paired directory leaves exactly the abstract survivors, untouched |
| `MediaRetention.VictimsArePrefix` | internal/media/sweep.go:142-162 | whatever was used before a removed blob is removed too |
| `MediaRetention.SurvivorsFit` | internal/media/sweep.go:142-162 | what is left fits the cap |
| `MediaRetention.VictimsAreFewest` | internal/media/sweep.go:142-162 | every least-recently-used prefix whose removal fits the cap contains all that is removed |
| `SweepTwice.SecondSweepIsIdle` | internal/media/sweep.go:59-163 | in any tidy directory, orphans and temp files included, a second sweep at the same instant dooms no path, and its report says so |
| `LruRefinement.StoreRefinesObjects` | internal/media/media.go:167-299 | each operation on the directory is that operation on the objects, with the same answer |
| `LruRefinement.ObjectsRefineQueue` | internal/media/sweep.go:108-162 | each operation on timed objects is that operation on a queue that keeps no times |
| `LruRefinement.StoreIsLruCache` | internal/media/media.go:167-339 | under an increasing clock every run of the store answers exactly as an expiring LRU queue does, each sweep's report included |
| `StoreGuarantees.ObjectsAreFrozen` | internal/media/media.go:198-299 | over every run of the store an object that stays keeps its bytes, its first descriptor and its age |
| `StoreGuarantees.StoredBytesComeBack` | internal/media/media.go:167-299 | after any run of the store before and any after, stored bytes open to themselves under the descriptor returned, until evicted |
| `StoreGuarantees.ExpiryIsHard` | internal/media/sweep.go:116-140 | whatever was read since, a sweep of the store leaves no object stored longer ago than the TTL |
| `PairSession.Session.Publish` | internal/wa/admin_ops.go:46-52 | one critical section records the event, counts it and wakes every parked waiter |
| `PairSession.Session.MarkDone` | internal/wa/admin_ops.go:56-61 | the end of the flow is recorded and every parked waiter woken |
| `PairSession.Session.CheckOrPark` | internal/wa/pair_observe.go:60-73 | one turn of the wait loop: ready exactly when there is news, the flow is over or the context has expired |
| `PairTheorems.RunKeepsInv` | internal/wa/admin_ops.go:73-162 | every interleaving of goroutine, observers, watchdog and admin calls keeps the protocol invariant |
| `PairTheorems.RunEvolves` | internal/wa/admin_ops.go:103-162 | streams only grow, nothing is published after a terminal event, a finished session is frozen |
| `PairTheorems.NoWaiterMissesAnEvent` | internal/wa/pair_observe.go:32-73 | on every reachable state a parked waiter has seen everything published and the flow has not ended; its watchdog has fired exactly when it fired between the waiter's check and its park |
| `PairTheorems.OutChannelFollowsPublished` | internal/wa/admin_ops.go:103-162 | the out channel carries the published stream, or that stream without its last event |
| `PairAnswers.ItemIsAnnounced` | internal/wa/admin_ops.go:271-301 | the event of every kind of item: code and timeout, success, timeout, the two named errors, and a failure under its message for any other |
| `PairAnswers.EventsAreItems` | internal/wa/admin_ops.go:118-162 | on every reachable state the published events are those of the items received, one for one and in order; an event is sent as long as the channel holds fewer than 8 |
| `PairAnswers.WaiterIsTold` | internal/wa/pair_observe.go:32-73 | whatever runs in between, a waiter that returns has the latest event: one published since it looked, or the last one of a finished flow, or its context has expired |
| `PairTheorems.OneLiveStep` | internal/wa/admin_ops.go:197-214 | a step keeps at most the current session live exactly when it is not a timeout of Unpair on a session that has not ended |
| `PairTheorems.AtMostOneLive` | internal/wa/admin_ops.go:73-267 | at most the current session is live throughout a run exactly when no timeout in the run abandons a session that has not ended |
| `PairTheorems.TimeoutLeavesTwoLive` | internal/wa/admin_ops.go:204-214 | a run whose timeout abandons one, after which two sessions are live at once |
| `PairTheorems.ExpiryCanBeMissed` | internal/wa/pair_observe.go:48-73 | a run in which it does: the context has expired and the waiter stays parked |
| `SyncOrchestrator.Orchestrator.Start` | internal/cache/sync.go:107-131 | a run starts exactly when none is in progress, with a report of its own; the caller's snapshot is a copy |
| `SyncOrchestrator.Orchestrator.Snapshot` | internal/cache/sync.go:136-140 | the copy shows the current report, and no later change reaches any copy handed out |
| `SyncOrchestrator.Orchestrator.BeginStage` | internal/cache/sync.go:180-190 | marks one stage running and disturbs no snapshot |
| `SyncOrchestrator.Orchestrator.EndStage` | internal/cache/sync.go:200-224 | records one stage's outcome and disturbs no snapshot |
| `SyncOrchestrator.Orchestrator.FinishRun` | internal/cache/sync.go:146-174 | the run is done exactly when no stage failed, and the error lists those that did |
| `SyncFlow.NoRunWritesAnothersReport` | internal/cache/sync.go:146-224 | the only run that can take a step is the one whose report is current |
| `SyncFlow.RunKeepsInv` | internal/cache/sync.go:107-224 | every interleaving of starts, stages and snapshots keeps the invariant |
| `SyncFlow.EveryReportIsConsistent` | internal/cache/sync.go:107-224 | any snapshot shows finished, then at most one running, then pending stages; the flag is set exactly while running; a settled report is done exactly when none failed |
| `SyncOutcomes.ReportsTellOutcomes` | internal/cache/sync.go:107-224 | over every run each stage shows the times, item count and error of its own worker and is failed exactly when that returned an error; a settled report is done exactly when none did, and its error names those that did |
| `CacheStore.Store.UpsertChat` | internal/cache/upsert.go:17-52 | names are never blanked, the time only advances, the type changes only when named, the flags are overwritten |
| `CacheStore.Store.SetChatPinned` | internal/cache/upsert.go:57-71 | sets one flag, creating the row if it is missing |
| `CacheStore.Store.SetChatArchived` | internal/cache/upsert.go:74-88 | sets one flag, creating the row if it is missing |
| `CacheStore.Store.SetChatUnread` | internal/cache/upsert.go:92-110 | sets or clears the unread mark, creating the row if it is missing |
| `CacheStore.Store.UpsertContact` | internal/cache/upsert.go:116-137 | known names are never blanked |
| `CacheStore.Store.UpsertPresence` | internal/cache/upsert.go:365-391 | writes the presence columns of a contact and none of its names; a hidden last-seen time does not clear a known one |
| `CacheStore.Store.UpsertJIDAlias` | internal/cache/upsert.go:144-158 | records the pair, ignoring empty addresses |
| `CacheStore.Store.InsertMessage` | internal/cache/upsert.go:196-227 | inserts, or leaves an existing row as it is |
| `CacheStore.Store.MarkMessageEdited` | internal/cache/upsert.go:233-250 | replaces the body and marks the row, or reports that there is none |
| `CacheStore.Store.MarkMessageDeleted` | internal/cache/upsert.go:255-272 | empties the body and marks the row, or reports that there is none |
| `CacheStore.Store.UpsertReaction` | internal/cache/upsert.go:285-306 | the newest reaction of a sender wins; own reactions share the empty sender |
| `CacheStore.Store.DeleteReaction` | internal/cache/upsert.go:328-340 | removes the row whatever its time |
| `CacheStore.Store.UpsertPoll` | internal/cache/polls.go:71-111 | replaces the ballot, hashes the names that have no hash, keeps a known sender |
| `CacheStore.Store.UpsertPollVote` | internal/cache/polls.go:161-185 | the newest vote of a voter wins |
| `Ingestor.Ingestor.HandleEvent` | internal/cache/handler.go:108-146 | every event changes the tables by exactly the writes it denotes |
| `Ingestor.Ingestor.HandleMessage` | internal/cache/handler.go:148-220 | which writes a message makes: edit, revoke, reaction, vote or a row with its chat, sender and ballot |
| `Ingestor.Ingestor.HandleReaction` | internal/cache/handler.go:230-263 | records the sender, the alias and the reaction, against the chat its key names |
| `Ingestor.Ingestor.PersistReaction` | internal/cache/handler.go:268-283 | an empty emoji removes, anything else stores |
| `Ingestor.Ingestor.RecordAlias` | internal/cache/handler.go:314-331 | records a pair only when one address is a LID and the other a phone number, LID first |
| `Ingestor.Ingestor.HandleProtocol` | internal/cache/handler.go:336-362 | edits and revokes reach the message their key names |
| `Ingestor.Ingestor.HandleHistorySync` | internal/cache/handler.go:364-434 | every conversation's messages, polls and reactions, then its chat row at the newest of their times |
| `Ingestor.Ingestor.HandlePollVote` | internal/cache/handler.go:675-723 | stores the decrypted selection under the chat the event arrived in |
| `MessageRows.NewMessageIsStored` | internal/cache/handler.go:148-220 | over every run, a message that is new when it arrives is stored under its chat and id with its sender, push name, second, direction, kind, text, media and the message it answers, and shows them at the end |
| `MessageRows.OnePart` | internal/cache/handler.go:774-905 | kind, text, media and reply for an envelope with one part, part by part |
| `MessageRows.NewHistoryMessageIsStored` | internal/cache/handler.go:364-434 | the same of every message of a history sync that is the first under its key |
| `MessageAnswers.MessageEvents` | internal/cache/handler.go:196-219 | a message makes its chat active at its second, tells who sent it, adds one row and the ballot it carries with hashed options, and nothing else |
| `MessageAnswers.ReactionEvents` | internal/cache/handler.go:230-283 | a reaction is filed under the chat and id of its key and its sender, at its own time, own ones under the empty sender; an older one is dropped and an empty one removes |
| `MessageAnswers.VoteEvents` | internal/cache/handler.go:675-723 | a vote replaces the voter's selection unless that is newer, and tells who sent it |
| `MessageAnswers.ReactionToNothing` | internal/cache/handler.go:230-234 | a reaction that names no message changes nothing |
| `MessageAnswers.UnreadableVote` | internal/cache/handler.go:190-194 | a vote that cannot be read only tells who sent it |
| `MessageAnswers.EmptyMessage` | internal/cache/handler.go:196-211 | an envelope with nothing to show makes its chat active and stores no message |
| `MessageAnswers.BallotIs` | internal/cache/polls.go:99-108 | a stored option has its name and the hash it came with, or else that of its name |
| `HistoryAnswers.ConversationIsKnown` | internal/cache/handler.go:418-432 | a conversation makes its chat known by its name or display name, its unread count and the second of its newest message |
| `HistoryAnswers.PollIsKnown` | internal/cache/handler.go:387-416 | each message of a sync adds the ballot it carries under its sender and changes no other poll |
| `HistoryAnswers.ReactionIsKnown` | internal/cache/handler.go:440-470 | each reaction of a sync is filed under its message and reactor: the one its key names, this device, or the chat |
| `HistoryAnswers.QuietMessage` | internal/cache/handler.go:440-470 | messages without reactions, conversations without messages and syncs without conversations change none |
| `HistoryAnswers.EmptyHistoryMessage` | internal/cache/handler.go:380-409 | a message without a key, an id or something to show stores no row |
| `EventAnswers.HandledEndsRun` | internal/cache/handler.go:108-146 | what is said of one more event holds at the end of any run |
| `EventAnswers.GroupEvents` | internal/cache/handler.go:520-534 | the chat row after news of a group: name, type, time, flags, and no other row changes |
| `EventAnswers.JoinEvents` | internal/cache/handler.go:539-559 | a joined group is a community exactly when it is a parent |
| `EventAnswers.NewsletterEvents` | internal/cache/handler.go:561-589 | a newsletter keeps its type and name when it is left |
| `EventAnswers.StarEvents` | internal/cache/handler.go:628-639 | a starred message makes its chat known |
| `EventAnswers.ReadEvents` | internal/cache/handler.go:591-600 | reading clears and marking sets the unread mark of one chat, and nothing else but the time of the change |
| `EventAnswers.PinEvents` | internal/cache/handler.go:602-611 | pinning changes that flag of one chat and nothing else but the time of the change |
| `EventAnswers.ArchiveEvents` | internal/cache/handler.go:613-622 | archiving changes that flag of one chat and nothing else but the time of the change |
| `EventAnswers.NameEvents` | internal/cache/handler.go:475-518 | which name of which contact each of the three events sets |
| `EventAnswers.PresenceEvents` | internal/cache/handler.go:762-770 | presence sets whether a contact is online and when it was seen; a hidden time keeps the known one |
| `EventAnswers.RevokeEvents` | internal/cache/handler.go:336-352 | a revoke empties the message its key names and marks it deleted at its second |
| `EventAnswers.ProtocolEdits` | internal/cache/handler.go:336-361 | an edit gives the message its key names the new body and its second |
| `EventAnswers.EditEvents` | internal/cache/handler.go:169-181 | an unwrapped edit of a stored message replaces its body by the text it carries |
| `EventAnswers.NothingHappens` | internal/cache/handler.go:108-146 | events that name no message, nobody or no chat, and those of other kinds, change nothing |
| `IngestRuns.RunIsReplay` | internal/cache/handler.go:108-146 | a run of events is the replay of one list of row writes |
| `IngestRuns.RunsAreMonotone` | internal/cache/upsert.go:17-272 | over every event sequence no row disappears, no known name or last-seen time is blanked, origins and media stay, edit and delete marks stay, times never go back |
| `IngestRuns.LastTimeIsMaximum` | internal/cache/upsert.go:17-52 | a chat's last-message time is the maximum of every value ever offered |
| `IngestRuns.UntypedKeepsType` | internal/cache/upsert.go:17-52 | only a write that names a type changes a chat's type |
| `IngestRuns.AliasColumnsStayApart` | internal/cache/handler.go:314-331 | after every run the LID column holds LIDs and the phone column phone JIDs |
| `IngestErasure.ReactionsDoNotInterfere` | internal/cache/handler.go:148-434 | erasing the reactions and votes from a run, message events that are handled as one and not sent as an edit, and the reactions inside its history syncs, leaves chats, messages, polls and ballots exactly as they are |
| `LastWriterWins.FoldIsNewest` | internal/cache/upsert.go:285-306 | whatever the order, a key ends up with a newest value offered for it |
| `LastWriterWins.Converges` | internal/cache/upsert.go:285-306 | two sequences offering the same entries end in the same table when entries of one key and second agree |
| `IngestConvergence.ReactionsAreLww` | internal/cache/upsert.go:285-322 | without removals the reactions table is such a table |
| `IngestConvergence.VotesAreLww` | internal/cache/polls.go:161-185 | the votes table is such a table |
| `IngestConvergence.StreamsConverge` | internal/cache/handler.go:148-434 | any two runs over the same events, messages and history syncs included, end in the same reactions and votes, whatever the order, the repetitions and the seconds they are handled at, when nothing is removed, every reaction and vote carries its time, no edit event carries one, and entries of one key and second agree |
| `IngestConvergence.HandlingTimeMatters` | internal/cache/handler.go:148-263 | what a reaction or vote event writes is the same at whatever second it is handled exactly when it carries a time of its own |
| `IngestConvergence.RemovalOrderMatters` | internal/cache/upsert.go:328-340 | storing and removing a reaction commute exactly when they concern different keys |
| `IngestConvergence.ReactionsStayProper` | internal/cache/handler.go:268-283 | no stored emoji is ever empty, and own reactions are only under the empty sender |
| `Calendar.CivilInOrder` | internal/mcptools/tools.go:120-125 | the calendar rendering is strictly monotone in time, before year 0 as well |
| `CalendarDates.DayFollowsDay` | internal/mcptools/tools.go:120-125 | at every time, a day later is the next day of the same month, or the first of the next month or year, for months of 31, 28 or 29, 31, 30 days and so on |
| `CalendarDates.EpochDate` | internal/mcptools/tools.go:120-125 | time 0 is 1 January 1970 |
| `CalendarDates.DateExists` | internal/mcptools/tools.go:120-125 | every date rendered is one of its month, and the time of day is the second modulo 86400 |
| `CalendarDates.IsoReads` | internal/mcptools/tools.go:120-125 | the digits of a rendered time read back as that year, month, day and second of the day |
| `CalendarKeys.KeyOrderIsTimeOrder` | internal/mcptools/list_conversations.go:409-416 | any two sort keys order as their times exactly when null is not beside a time before 1970 and the later year, cut to the digits of the earlier one, is not smaller (before year 0 the other way round); different times have different keys |
| `CalendarKeys.FourDigitYearsAreInOrder` | internal/mcptools/list_conversations.go:409-416 | from year 0 to 9999 that fails between the null time and times before 1970 only |
| `CalendarKeys.Year10000SortsFirst` | internal/mcptools/list_conversations.go:409-416 | the first second of the year 10000 sorts before the last of 9999, though after the year 1000 |
| `Aliases.LoadAliasMaps` | internal/mcptools/list_conversations.go:229-266 | the phone JID read last for every LID, and for every phone JID itself and then its LIDs in order |
| `Aliases.ResolveLinkedJIDs` | internal/cache/reader.go:304-334 | the JID first, then everything one alias away, each once |
| `Aliases.PhoneIdentitiesAgree` | internal/mcptools/list_conversations.go:229-266 | for a phone JID both readings give the same identities, the phone JID first |
| `Aliases.LidIdentitiesAgree` | internal/cache/reader.go:304-334 | from a LID they agree exactly when the pair is the only alias of either |
| `Aliases.TwoLidsDisagree` | internal/mcptools/list_conversations.go:229-266 | two LIDs of one phone: the list has both, the query from one misses the other |
| `Aliases.IdentityListsDisjoint` | internal/mcptools/list_conversations.go:254-264 | identity lists are disjoint exactly when no LID has two phone JIDs |
| `Conversations.GroupRows` | internal/mcptools/list_conversations.go:171-199 | one group for each canonical JID with rows: their unread sum, members, first contact name and newest row under a name one of the newest carries |
| `Conversations.MergedIdentities` | internal/mcptools/list_conversations.go:340-350 | the recorded identities, or else the members in order |
| `Conversations.BuildOverview` | internal/mcptools/list_conversations.go:201-218 | each conversation shows its group's winner, names an untitled direct chat after its contact, and hides the preview when not asked for |
| `ConversationTheorems.EveryRowOnce` | internal/mcptools/list_conversations.go:171-199 | every loaded row is in exactly one conversation |
| `ConversationTheorems.UnreadIsConserved` | internal/mcptools/list_conversations.go:171-218 | the conversations' unread counts sum to those of the rows |
| `ConversationTheorems.MergeIgnoresOrder` | internal/mcptools/list_conversations.go:190-198 | unread, members, newest time and whether there is a title do not depend on the order of the rows |
| `ConversationTheorems.WholeMergeIgnoresOrder` | internal/mcptools/list_conversations.go:171-199 | over arbitrary orders, more than the query returns, the whole group is the same exactly when newest rows differ at most in missing names and no two contact names differ |
| `ConversationTheorems.WinnerIsNewest` | internal/mcptools/list_conversations.go:190-198 | the winner has the greatest time and a title exactly when a row of that time has one |
| `ConversationLoads.LoadConversationChats` | internal/mcptools/list_conversations.go:270-335 | every row of the join once, newest chat first and then by JID: one for each message at a chat's last time, or a bare one |
| `ConversationLoads.RowCount` | internal/mcptools/list_conversations.go:284-303 | a chat is returned once for each of its messages at its last time, or once |
| `ConversationTies.SameUpToPreview` | internal/mcptools/list_conversations.go:171-199 | whatever order the query returns its rows in, a conversation is the same but for its preview |
| `ConversationTies.PreviewIsFixed` | internal/mcptools/list_conversations.go:284-303 | the preview too is the same for every such order exactly when the newest chat, the first by JID, is returned once |
| `ConversationTies.EitherPreview` | internal/mcptools/list_conversations.go:284-303 | a chat with two messages in its last second: two results of the query that merge under different previews |
| `ConversationAnswers.ConversationsTellChats` | internal/mcptools/list_conversations.go:131-225 | every conversation shows group flag, type and time of its newest chat, a message of that chat's last second with its body, id, sender and direction, and the first title or contact name; every chat asked for has a conversation |
| `ConversationIdentities.RowsAreListed` | internal/mcptools/list_conversations.go:340-350 | a conversation lists the JID of each of its rows |
| `ConversationIdentities.ListsOverlap` | internal/mcptools/list_conversations.go:340-350 | two conversations share a JID exactly when a LID is recorded for both |
| `ConversationIdentities.SharedLidIsListedTwice` | internal/mcptools/list_conversations.go:245-264 | a LID recorded for two phone JIDs is listed with both |
| `ConversationIdentities.ListsAreDisjoint` | internal/mcptools/list_conversations.go:340-350 | with one phone JID for each LID no JID is in two conversations |
| `ConversationUnread.UnreadIsExact` | internal/mcptools/list_conversations.go:284-303 | a conversation's unread count is the sum of its chats' counts exactly when no chat with unread messages has several messages at its last time |
| `ConversationUnread.TiedChatCountsTwice` | internal/mcptools/list_conversations.go:289-294 | one unread message in a chat with two messages in its last second: the chat is loaded as two rows and its group shows two unread |
| `ConversationUnread.ExactWithoutPreview` | internal/mcptools/list_conversations.go:296-302 | without previews the count is always exact |
| `ConversationSources.RunsFeedTheList` | internal/mcptools/list_conversations.go:131-225 | a database filled by any run of events gives the list what it takes for granted |
| `ConversationList.FilterConversations` | internal/mcptools/list_conversations.go:356-380 | the filter within the slice keeps what a filter of a copy keeps, in order |
| `ConversationAnswers.FilterKeeps` | internal/mcptools/list_conversations.go:356-380 | what is kept has a name or a JID that contains the query, both in lower case |
| `ConversationList.SortConversations` | internal/mcptools/list_conversations.go:384-407 | the front of the slice becomes its sort, the rest stays |
| `Sorting.SortIsStable` | internal/mcptools/list_conversations.go:384-407 | sorting keeps the order of conversations the comparison does not tell apart |
| `ConversationList.OrderIsStrict` | internal/mcptools/list_conversations.go:384-407 | both modes are strict orders that decide between any two JIDs |
| `ConversationAnswers.OrderAsked` | internal/mcptools/list_conversations.go:384-407 | by name with untitled ones last, or by time with the latest first, as asked; the JID decides between equals |
| `ConversationList.SortIgnoresOrder` | internal/mcptools/list_conversations.go:384-407 | the sorted list does not depend on the order in which conversations were collected |
| `ConversationList.ActivityOrderIsTimeOrder` | internal/mcptools/list_conversations.go:399-416 | for any two times, sorting by string key is newest first by seconds, never-active last, then by JID, exactly when the keys are in order |
| `ConversationList.PageIsExact` | internal/mcptools/tools.go:56-70 | the page is the one asked for exactly when its first index fits 64 bits or wraps past the end |
| `ConversationAnswers.RequestIsRead` | internal/mcptools/list_conversations.go:131-155 | which limits, pages, sort modes and types are refused, in which order, and what the accepted ones ask for |
| `ConversationList.HugePageIsOutOfBounds` | internal/mcptools/list_conversations.go:419-428 | page 2^62 of size 2 wraps to a negative offset, which the slice does not accept |
| `ConversationList.HugePageIsTheFirst` | internal/mcptools/tools.go:56-70 | page 2^62 of size 4 is the first page again |
| `ConversationList.PagesCoverTheList` | internal/mcptools/list_conversations.go:419-428 | the pages in turn are the list, nothing lost or repeated |
| `ConversationList.ListConversations` | internal/mcptools/list_conversations.go:131-225 | the answer is the asked-for page of the sorted, filtered merge, or the first argument error |
| `ConversationList.AllPages` | internal/mcptools/list_conversations.go:220-224 | reading all pages gives every conversation that passes the filter once, in strict order |
| `OggPages.PageBound` | internal/audio/audio.go:257-270 | a page has at least 27 and at most 65307 bytes |
| `OggProbe.LastGranule` | internal/audio/audio.go:354-365 | returns the granule position of the last header that carries one, and nothing exactly when none does |
| `OggProbe.TailFindsLastPage` | internal/audio/audio.go:301-316 | the scan finds the last page that completes a packet exactly when it and the pages after it fit the scanned length |
| `OggProbe.LastPageIsFound` | internal/audio/audio.go:266-319 | when the last page completes a packet the scan always finds it |
| `OggProbe.PreSkipRoundTrip` | internal/audio/audio.go:329-346 | the pre-skip written in a conforming identification page is the one read back |
| `OggProbe.NoOverflow` | internal/audio/audio.go:314-317 | up to 9223372036 samples the nanosecond product does not overflow |
| `OggProbe.SecondsAreExact` | internal/audio/audio.go:250-255 | the two truncations give the samples over 48000, rounded, exactly up to 9223372036 samples |
| `OggProbe.Probe` | internal/audio/audio.go:279-319 | the answer depends on the bytes alone, and the reader is left at its start |
| `OggAnswers.OpusIsRecognised` | internal/audio/audio.go:329-346 | data is Ogg Opus exactly when it starts with OggS, has 27 bytes, and the first OpusHead of its first 512 bytes lies at 27 to 128 with 12 bytes to read |
| `OggAnswers.DurationIs` | internal/audio/audio.go:279-319 | for any data the duration is that of the last granule position less the pre-skip, and 0 when there is no such position, it is not above the pre-skip or the data is not Ogg Opus |
| `OggProbe.ProbeIsRight` | internal/audio/audio.go:279-319 | for every conforming stream the duration is that of the last granule position less the pre-skip |
| `OggProbe.ProbedSecondsAreRight` | internal/audio/audio.go:250-319 | in whole seconds it is right exactly up to the 64-bit limit |
| `Polls.Tally` | internal/tools/polls.go:387-410 | each option is credited with the voters whose hashes name it, in order; empty selections count nowhere |
| `Polls.TallyConserves` | internal/tools/polls.go:393-409 | option votes and unknown votes together are all selected hashes, and each count is the length of its voter list |
| `Polls.NobodyCountsTwice` | internal/tools/polls.go:393-409 | when no selection repeats a hash, no voter is credited twice to an option |
| `PollAnswers.TallySays` | internal/tools/polls.go:387-410 | each option is shown under its name, with the voters who selected its hash; of several options with one hash only the last has any |
| `PollAnswers.TallyOfTable` | internal/tools/polls.go:371-410 | the voters of an option are those whose stored selection has its hash, the earliest vote first |
| `PollAnswers.VotersAreCasting` | internal/tools/polls.go:393-398 | the number of voters is that of those with a selection |
| `PollVoting.NormalisePollOptions` | internal/tools/polls.go:418-439 | accepts exactly 2 to 12 options that are different and not empty once trimmed, and otherwise names the first fault |
| `PollVoting.MatchPollOptions` | internal/tools/polls.go:445-476 | succeeds exactly when every requested name is on the ballot and none is repeated, and selects in ballot order; otherwise it names the first request at fault |
| `PollVoting.SelectionIsRequest` | internal/tools/polls.go:457-475 | the selection has exactly the requested names, each once |
| `PollAnswers.SelectionInOrder` | internal/tools/polls.go:469-475 | whatever the order of the request, the selection is in the order of the ballot |
| `PollVoting.RequestOrderIsIrrelevant` | internal/tools/polls.go:469-475 | the order of the request does not matter |
| `PollRoundTrip.ListPollVotes` | internal/cache/polls.go:190-224 | every voter's row once, oldest first, then by voter |
| `PollRoundTrip.VotePoll` | internal/tools/polls.go:283-330 | votes exactly when the request is eligible, within the limit and the own JID is known; otherwise the cache is untouched and the error is the first of these that fails |
| `PollRoundTrip.HashedBallotIsFaithful` | internal/cache/polls.go:99-108 | options that come without a hash are stored under their names, each with the hash of its name |
| `PollRoundTrip.CastThenTally` | internal/tools/polls.go:548-569 | a cast vote is tallied for exactly the requested options, whatever was stored before, unless a newer vote of the voter is, which then keeps counting |
| `PollRoundTrip.CastCountsOnce` | internal/tools/polls.go:393-409 | a cast vote that is not stale counts at most once for each option |
| `PollRoundTrip.OthersAreUntouched` | internal/cache/polls.go:161-185 | nobody else's credits change |
| `PollSources.RunsHashBallots` | internal/cache/handler.go:640-666 | after every run of events each stored ballot carries the hashes of its own names |
| `PollSources.CastOnStoredBallot` | internal/tools/polls.go:283-410 | on any ballot stored by any run, a cast vote is tallied for exactly the requested options and at most once for each, unless it is stale |
| `ContextWindow.FindTarget` | internal/mcptools/get_message_context.go:119-137 | the message with the id in the first chat that has one |
| `ContextWindow.SelectSide` | internal/mcptools/get_message_context.go:149-188 | the messages on one side of the target in the order asked for, up to the limit |
| `ContextWindow.ReverseMessages` | internal/mcptools/get_message_context.go:222-228 | filling by index reverses the list |
| `ContextTheorems.WindowIsSlice` | internal/mcptools/get_message_context.go:149-188 | before, target and after are one stretch of the chat ordered by time and id, of maximal length within the counts |
| `MessageReactions.SelectReactions` | internal/mcptools/reactions.go:47-59 | one query gives exactly the reactions to the batch, by time and sender |
| `MessageReactions.AttachReactions` | internal/mcptools/reactions.go:22-97 | in place, every message gets exactly its own reactions and changes in nothing else |
| `MessageReactions.GetMessageContext` | internal/mcptools/get_message_context.go:85-204 | the refused arguments, the missing message, or the window around the target with its reactions |
| `MessageReactions.ContextIsSlice` | internal/mcptools/get_message_context.go:190-204 | every chat has exactly one timeline, and the assembled context is a stretch of it around the target, each message with its own reactions in time and sender order |
| `ContextAnswers.WindowIsRead` | internal/mcptools/get_message_context.go:85-102 | which windows are refused and why; `before` and `after` are the counts of their own side, 5 each when not given |
| `ContextAnswers.ContextSays` | internal/mcptools/get_message_context.go:149-204 | messages of the chat in order of time, each as stored and with all its reactions in order; no message of the chat is missing unless its side is full |
| `Migrations.LoadMigrations` | internal/cache/migrations.go:36-86 | the versions in increasing order, each with both directions; an error means mismatched names or a missing direction |
| `Migrations.Database.ApplyUp` | internal/cache/migrations.go:165-173 | schema and version change together or not at all |
| `Migrations.Database.ApplyDown` | internal/cache/migrations.go:175-183 | schema and version change together or not at all |
| `Migrations.Database.Migrate` | internal/cache/migrations.go:90-111 | whatever fails, the applied versions stay a prefix of the list and the schema the one it builds; which prefix, by where it failed |
| `Migrations.Database.MigrateDown` | internal/cache/migrations.go:116-138 | the same downwards, to the target or to where it failed |
| `Migrations.Database.Replay` | internal/cache/migrations.go:90-138 | so does every run of both, each with its own failures |
| `Migrations.Database.CurrentVersion` | internal/cache/migrations.go:141-151 | the version of the last migration of the prefix, or 0; nothing to read in a database that was never migrated |
| `Migrations.DownThenUp` | internal/cache/migrations.go:116-138 | going down and up again without failures restores the full schema, and undoing everything reaches the empty one |
| `Migrations.LongerList` | internal/cache/migrations.go:90-111 | a list that grows only at its end keeps the databases of the shorter one valid |

## Left out

- MediaDirectory.PutRefines: takes the chosen extension not to be `.json`, the case `MediaDirectory.PutThenOpen` decides.
- Conversations.GroupRows: takes every loaded row to have a JID, which `ConversationSources.RunsFeedTheList` shows of every run.
- LruRefinement.StoreIsLruCache: takes no payload to have the extension `.json`; `MediaDirectory.PutThenOpen` says what happens then.
- StoreGuarantees.ObjectsAreFrozen: takes no payload to have the extension `.json`.
- StoreGuarantees.ExpiryIsHard: takes no payload to have the extension `.json`.
- StoreGuarantees.StoredBytesComeBack: takes no payload to have the extension `.json` and no other bytes to have the digest of the bytes stored.
- MediaAnswers.DescriptorComesBack: takes no payload to have the extension `.json`.
- MediaAnswers.SweepLeaves: takes no digest to have two blobs and sidecar names to be in lower case, as the store writes them.
- MediaAnswers.ReportSays: the same.
- MessageRows.NewMessageIsStored: takes the chat to have a server; a chat without one has no address to file a row under.
- MessageAnswers.VoteEvents: takes chat and sender to have a server, for the same reason.
- PollAnswers.TallyOfTable: takes no stored selection to repeat a hash.
- OggProbe.TailFindsLastPage: takes the magic bytes to occur only at page starts from the last completing page on; false headers inside its body are not resynchronised, as in the code.
- PollRoundTrip.CastThenTally: takes the hash to tell the names on the ballot apart; `PollSources.RunsHashBallots` shows the rest of what it takes of a ballot.
- PollSources.CastOnStoredBallot: takes the hash to tell the names on the ballot apart.
- ConversationList.ListConversations: the sort mode arrives trimmed.
- ConversationUnread.UnreadIsExact: takes unread counts not to be negative, which `ConversationSources.RunsFeedTheList` shows of every run.
- MediaStore.Store.Scan: takes no digest to have two blobs and sidecar names to be in lower case, as the store writes them.
- MediaStore.Store.Sweep: the same. The store writes directories of this kind with one exception: a blob that a sweep cannot remove stays without its sidecar, and a put of the same bytes under another extension then gives the digest a second blob.
- SweepTwice.SecondSweepIsIdle: the same, and every doomed path can be removed.
- Crash recovery, temp-file spooling, file-system errors other than a failed sidecar write or removal, and two puts of one digest at once: they break the one-blob-per-digest rule the sweep relies on.
- The blob time and the sidecar time of a put are given; that the clock moves between operations is a premise of the LRU theorem only.
- Real time: whether an expired context is ever noticed by a parked waiter is not claimed, since the watchdog broadcasts without the lock.
- The observers' event counter is unbounded; the code's wraps at 64 bits.
- The workers of the sync stages and their foreign calls: a stage's item count and error are given.
- Decryption of votes, decoding of messages and the variants of the poll envelope: an event carries the decoded parts.
- SQLite itself, full-text search and LIKE: a table is a map from its conflict key, an upsert is the update its SQL spells out, a query is what its WHERE and ORDER BY say.
- Nicknames, contact display names and voter views: they only choose a label.
- Calendar.CivilInOrder: seconds whose calendar date needs more than 64 bits of intermediate arithmetic are not modelled as overflowing.
- OggProbe.Probe: read and seek errors are not modelled.
- Migrations.LoadMigrations: file names arrive taken apart; the pattern they must match is not modelled.
- Migrations.Database.MigrateDown: takes every down to undo its up on the schema the ups before it build; nothing else is known of a migration's SQL.
- Lifecycle events, subscriber fan-out, connection and auto-reconnect, the HTTP routes and headers, uploads through CDN, argument decoding and configuration: each is settled by reading a branch or is a foreign call.
