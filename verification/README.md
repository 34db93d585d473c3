# Verification of the portal's stateful protocols

This project models the parts of the portal that keep state over many steps, and proves what they
promise over whole runs. Each file is one module.

**Archive-first durability.** Messages live in a hot table and in an archive, and the two drift:
inserts grow the hot copy, retention and session-age cleanup shrink it, and archiving merges hot rows
into the archived transcript. `Transcripts` has the merge, `ObjectKeys` the object keys, `ArchiveStore`
the write order and what every interruption leaves behind, `ArchiveWriters` what any number of archivers
with interleaved reads and writes can do to one archive, `StoreBackends` both backends.
`Durability` is the state machine of tables, archive and routines: a routine looks at a session, is told
that it is archived, and deletes on that licence without another look. `Retention` is the retention
cycle's choice of candidates and rows, `ArchiveService` the background routines, with messages arriving
wherever they wait, shown to be runs of the machine; `OldestFirst` the ordered queries. In every run a
message is lost exactly if its row was deleted before any archive pass caught it, and each deletion comes
with that account. `ArchiveRace` takes one session's dealings apart into single reads and writes, and
`SweepProgress` says how fast the sweep drains its queue.

**The Claude I/O task.** `ClaudeFrames` has the frames, `ClaudeEchoes` the markers that suppress
echoed prompts, `ClaudeRetries` the rate-limit retry budget, `ClaudeIo` the driver state and the loop
that runs both, `ClaudeTurns` what the loop does, told from its inputs alone, `ContextAnchor` the context-occupancy fold, `ResetTime` the reset-time calculation
over a time zone.

**The dashboard broker.** `DashboardRpc`: correlated one-shot replies over a socket that comes, goes
and changes accounts.

**Smaller protocols.** `InputQueue` (Antigravity's turn queue), `ArchiveScan` and `ScanCache` (the
history page), `PagedImport` (importing a Codex conversation), `Federation` (the connection registry),
`HashedAsset` (the two recognisers of hashed asset paths), `RequestIds` (request ids as text).

A state machine is given as `Enabled` and `Next`; a run is a sequence of states related by `Next`
(`IsRun`), and a theorem about runs holds of every sequence of events. Where the program updates state
in place, a class has the same fields and its methods are proved to take exactly the machine's steps.
What the steps amount to is then stated without the machine: by the history of events, by the caller's
view of the broker, by the script of the loop, or by counting rows and lines.

## Assumptions that are part of a model

- An archive pass in `Durability` and `ArchiveService`, from the row query to the stamp, is one step; what
  arrives arrives before or after it. Storing a message is two steps, its row and the move of its
  session's activity, with anything in between. `ArchiveRace` takes the pass apart as well: an arriving
  row is harmless exactly while every routine that deals with the session has got no further than finding
  it not fresh, a look exactly if it takes no session with an overlooked row for fresh
  (`ArrivalIsSafeExactly`, `LookIsSafeExactly`); with only such arrivals and looks any number of routines
  may overlap and nothing is lost, and after any other a message can be lost (`CarelessCanLose`).
- In `ArchiveWriters` the read and each of the two writes of a pass are steps of their own; a media upload,
  stopped anywhere, is one step.
- A history scan shows every manifest written before its walk began. Of those written during the walk it
  may show any, as it reads one listing and one manifest after the other. In `ArchiveScan` the archive
  stands still during a scan.
- The two candidate queries of a retention cycle are answered at one moment, and one trim is one moment.
- Transcripts are switched on, and archiving is configured. With either off, retention deletes rows
  that are in no archive, by the operator's choice.
- Object storage replaces one object at a time, and a file rename happens whole or not at all.
- New identifiers (message ids, request ids) are different from all earlier ones, and the time a session's
  activity is moved to is not before the last.

## Where the code falls short of its own documentation

Each of these is a theorem about the code as it is, with the exact condition under which it does what
its comments promise.

- That retention can never silently destroy the last copy is true exactly of the rows that some archive
  pass caught in the hot table before they are deleted: the licence to delete is not questioned again, so
  a message that arrives between the archive's yes and the deletion is destroyed, by a close, an age
  cleanup or a trim (`Durability.LostExactly`, `Durability.NothingLostExactly`,
  `Durability.ArrivalBeforeDeleteIsLost`).
- A fresh session's rows are archived exactly if none was stored while it was fresh and left uncaught with
  its activity not moved (`Durability.FreshSpeaksTrueExactly`). The row is stored before the activity is
  moved, a message stored through the message endpoint, as shown media or as a spawn notice does not move
  it at all, and elsewhere the update may fail. Whoever looks meanwhile takes the session for archived and
  may destroy the message, though nothing else arrives (`Durability.InsertKeepsFreshnessExactly`,
  `Durability.UndatedMessageIsLost`, `ArchiveRace.EarlyLookIsLost`).
- Retention destroys exactly the rows it deletes that slipped through and that no archive pass has caught:
  rows that arrived or came of age after the candidate queries, rows of a session that went over its cap
  after them, rows that a failed query should have found, and rows that the freshness test overlooked
  (`Retention.TrimLosesExactly`, `Retention.TrimLosesByHistory`).
- The transcript-first order keeps a manifest from ever counting more lines than the transcript beside it
  holds, unless archivers overlap on a session: the lock covers the writes of a pass and not its reading
  and merging. Each write of a transcript keeps this exactly if it is as long as the manifest counts, and
  loses no archived message exactly if it has all of them; passes that do not overlap always do
  (`ArchiveWriters.PutConsistentExactly`, `PutGrowsExactly`, `SerialPassesCover`, `OverlapBreaks`).
- Suppressing echoes is exact only if no genuine user frame arrives while an echo is outstanding or
  after a blank or system-reminder prompt in the same turn, whose marker its own echo never takes
  (`ClaudeEchoes.SuppressionIsExact`).
- The comment on the retry window says that the cap is reached by attempt 5 but the budget ends before
  that. The cap is reached at attempt 6 and the budget is 30 (`ClaudeRetries.WindowShape`).
- The reset time is the next occurrence of the stated time, except between the two occurrences of a
  time that a clock change repeats, as any autumn night has them (`ResetTime.ResetIsNextOccurrence`,
  `ResetTime.RepeatIsPassedOver`).
- A request whose `ready` signal has fired survives an account switch and can be sent on the next
  account's connection (`DashboardRpc.SignalledCallCrosses`, `DashboardRpc.CrossingOccurs`).
- Warming the scan cache after archiving is described as the freshness mechanism. It is sure to publish the
  write unless a refresh is in flight whose walk began before the write, or one that is finishing; the
  write then stays unseen until the cache expires (`ScanCache.WarmPublishesExactly`,
  `ScanCache.WarmingIsLost`).
- A connection id is never reused while fewer than 2^32 have been given out; then a row gets the home
  connection's id. It gets no client under it (`Federation.NeverHomeBelowTheWrap`, `OneRowPerAccount`).
- The service worker's expression is to be kept in sync with the backend's recogniser; they differ on
  upper-case hash digits (`HashedAsset.UrlPathsDifferOnUpperCase`).
- A request id that is a string spelling a 64-bit integer comes back as that integer
  (`RequestIds.StringsRoundTripExactly`).
- `ensure_session_archived` is documented to return whether the session now has a fresh archive; it
  returns true even when storing the stamp failed. What true does mean is that every row known to the
  look or the pass is archived, but for those the freshness test overlooked
  (`ArchiveService.WorkingVouches`).

## Model

| member | source | states |
|---|---|---|
| Transcripts.Merge | archive-format/src/lib.rs:338-364 | the merged transcript is the one listing of the right-biased union by id that is strictly ordered by (created_at, id) |
| Transcripts.MergeTranscriptLines | archive-format/src/lib.rs:348-364 | the two insertion loops and the sort produce exactly that transcript, for inputs in any order and with repeats |
| Transcripts.ListValues | archive-format/src/lib.rs:360-363 | putting a map's values in order gives a strictly ordered listing with the map's contents, whatever order the map yields them in |
| Transcripts.TranscriptsUnique | archive-format/src/lib.rs:338-364 | a transcript is determined by its contents by id: there is one strictly ordered listing |
| Transcripts.MergeAssociative | archive-format/src/lib.rs:348-364 | merging is associative |
| Transcripts.MergeAbsorbs | archive-format/src/lib.rs:348-364 | merging the same rows a second time changes nothing, so repeating a re-archive is harmless |
| Transcripts.MergeIdempotentOnTranscripts | archive-format/src/lib.rs:348-364 | merging with itself or with nothing keeps a listing exactly if it is a transcript |
| Transcripts.MergeIgnoresOrder | archive-format/src/lib.rs:348-364 | only the lines by id matter, not their order or repeats |
| Transcripts.MergeNeverShrinks | archive-format/src/lib.rs:338-347 | one line for each id of either input; the current row wins, every other archived line stays as it is |
| Transcripts.LastOfEachId | archive-format/src/lib.rs:352-359 | of several lines with one id in an input it is the last that counts |
| Transcripts.MergeIsChronological | archive-format/src/lib.rs:361-363 | the listing is oldest first, and by id within one moment |
| Transcripts.CountByRole | backend/src/background.rs:393-396 | the counting loop computes the histogram of roles |
| Transcripts.RoleCountsExact | archive-format/src/scan.rs:35-38 | each role's count is exact and the counts add up to the number of lines, so the history page's total is the transcript's length |
| Transcripts.CountsPlaces | backend/src/background.rs:393-396 | a role's count is the number of places where it stands |
| ObjectKeys.PathInjective | archive-format/src/lib.rs:314-336 | two different objects of any sessions of any users never share a path |
| ObjectKeys.TempPathIsNoKey | archive-format/src/store.rs:435-452 | the temporary name of an atomic write is no object's path |
| ArchiveStore.ReadsBack | archive-format/src/store.rs:183-205 | a complete transcript reads back whole and in order |
| ArchiveStore.PassOutcomes | archive-format/src/store.rs:390-398 | a pass stopped anywhere leaves nothing new, the transcript alone, or transcript and manifest |
| ArchiveStore.RearchiveSafe | backend/src/background.rs:386-553 | a pass, wherever it stops, keeps its session consistent and touches no other; a reported success means the merge of old transcript and rows is archived |
| ArchiveStore.BackfillSafe | backend/src/handlers/history.rs:409-470 | filling in the message count of an old manifest keeps the session consistent and every transcript as it is |
| ArchiveStore.BackfillExact | backend/src/handlers/history.rs:409-470 | the rewrite fills in a missing count and changes nothing else of a manifest; one that has a count keeps it |
| ArchiveStore.MediaReadsBack | archive-format/src/store.rs:229-249 | an upload that goes through has stored the given data under the blob's key, and its kind beside it |
| ArchiveStore.StoreMediaSafe | archive-format/src/store.rs:229-249 | storing a blob and its sidecar, wherever it stops, leaves no sidecar without its blob and touches no transcript |
| ArchiveStore.OthersKept | archive-format/src/lib.rs:314-336 | a write to one session leaves every other session's objects, transcript and consistency as they were |
| ArchiveStore.PassSafe | archive-format/src/store.rs:390-398 | a whole pass, wherever it stops, keeps the whole archive consistent and changes no other session's transcript |
| ArchiveStore.FirstWriteArchives | archive-format/src/store.rs:390-398 | the first write of a pass already archives every row; with no write nothing changes |
| ArchiveStore.PassManifests | backend/src/background.rs:447-530 | a pass that reports success has stored a manifest with its time, each role's number of lines, the user-message count and the transcript's key, codec and length, and that transcript beside it |
| ArchiveWriters.PutConsistentExactly | backend/src/background.rs:545-550 | writing a transcript keeps the archive consistent exactly if it is as long as the manifest beside it counts, whoever wrote what since it was merged |
| ArchiveWriters.PutGrowsExactly | backend/src/background.rs:386-391 | it loses no archived id exactly if it has every id archived at that moment |
| ArchiveWriters.StepSafe | archive-format/src/store.rs:390-398 | every single read, write, failure, backfill and media upload keeps the archive consistent and loses no id, if the transcript it writes covers what is archived |
| ArchiveWriters.AlwaysConsistent | archive-format/src/store.rs:390-398 | in every history of such steps by any number of archivers, at every step, a manifest that names a transcript has one beside it with at least as many lines as it counts |
| ArchiveWriters.NeverShrinks | backend/src/background.rs:386-391 | no continuation of such a history loses an archived message id |
| ArchiveWriters.SerialPassesCover | backend/src/background.rs:386-553 | passes that do not overlap on a session write only such transcripts |
| ArchiveWriters.OverlapBreaks | backend/src/background.rs:545-550 | a history of two overlapping archivers that leaves a manifest counting two lines beside a transcript of one, with a message gone from the archive |
| ArchiveWriters.StaleManifestOccurs | archive-format/src/store.rs:390-398 | an old manifest beside a newer, longer transcript does occur |
| StoreBackends.ObjectArchiveStore.PutBytes | archive-format/src/store.rs:352-358 | a put replaces one object or changes nothing |
| StoreBackends.ObjectArchiveStore.PutSessionArchive | archive-format/src/store.rs:390-398 | whichever puts fail, the objects are those after a prefix of the write sequence; success means all of it |
| StoreBackends.ObjectArchiveStore.PutMedia | archive-format/src/store.rs:229-249 | blob first, sidecar last, stopping anywhere |
| StoreBackends.LocalArchiveStore.WriteAtomic | archive-format/src/store.rs:435-452 | a torn write, a failed rename or a crash anywhere inside leaves the object as it was |
| StoreBackends.LocalArchiveStore.PutSessionArchive | archive-format/src/store.rs:476-484 | the local backend refines the object store: it stops after some prefix of the same write sequence |
| StoreBackends.StoredAtPath | archive-format/src/store.rs:429-452 | writing the file at an object's path changes that object and no other |
| StoreBackends.TempFilesUnseen | archive-format/src/store.rs:435-452 | whatever is written under a temporary name, no object changes |
| Durability.MergedLines | backend/src/background.rs:386-391 | merging a session's rows keeps every archived line word for word and adds exactly the rows |
| Durability.ArchiveAdds | backend/src/background.rs:722-746 | an attempt that writes at all adds to the archive exactly the session's rows, one that does not adds nothing; a yes means that it wrote |
| Durability.RunKeepsBasic | backend/src/background.rs:386-391 | in any run whatsoever the archive holds only what was inserted, under its own session, and archived lines never go |
| Durability.FreshSpeaksTrueExactly | backend/src/background.rs:209-214 | a fresh session's rows are all archived exactly if none was stored while it was fresh and is still uncaught |
| Durability.InsertKeepsFreshnessExactly | backend/src/handlers/websocket/message_handlers.rs:363-427 | the row of a message keeps "fresh means archived" exactly if its session is not fresh; after the move of the activity it holds exactly if the session was stamped strictly before |
| Durability.TimesByHistory | backend/src/background.rs:718-746 | in every run the two times compared are those of the last pass that stored its stamp, if no rename or deletion came since, and of the last move of the activity |
| Durability.FreshByHistory | backend/src/background.rs:209-214 | so a session is fresh exactly if that stamp is not before that move |
| Durability.StepKeepsSound | backend/src/background.rs:718-746 | every step, whenever it comes, keeps this: a fresh session's rows, and all that a licence knew of, are archived, but for rows stored while their session was fresh |
| Durability.RunKeepsSound | backend/src/background.rs:718-746 | so does every run, with no condition on what arrives when |
| Durability.KnownIsArchived | backend/src/background.rs:733-738 | what a licence knew is archived, unless it was stored while its session was fresh |
| Durability.StepLoses | backend/src/background.rs:983-993 | a step destroys exactly the rows it deletes that no archive pass caught before; nothing comes back |
| Durability.ArchivedExactly | backend/src/background.rs:386-391 | in every run a message is archived exactly if an earlier pass over its session wrote the transcript while the message was in the hot table |
| Durability.LostExactly | backend/src/background.rs:891-903 | in every run a message is lost exactly if its row is gone and there was no such pass |
| Durability.NothingLostExactly | backend/src/background.rs:891-903 | a run never loses a message exactly if every row is caught by a pass before the step that deletes it |
| Durability.NoRunLosesAMessage | backend/src/background.rs:891-903 | if no row arrives between a look or pass and the deletion, no look comes between a row stored in a fresh session and the move of its activity, and nothing is deleted without licence, every message ever inserted is in the hot table or, word for word, in its own session's archive, which holds nothing else |
| Durability.InsertIsSafeExactly | backend/src/background.rs:718-746 | a row's arrival keeps the world safe exactly if no routine holds or is about to hold a licence for its session |
| Durability.LookIsSafeExactly | backend/src/background.rs:733-738 | a look keeps it safe exactly if the freshness test overlooks no row of the session |
| Durability.CarelessCanLose | backend/src/handlers/sessions.rs:261-289 | after any other arrival or look there is a run that loses a message |
| Durability.ArrivalBeforeDeleteIsLost | backend/src/handlers/sessions.rs:261-289 | wherever a licence is held, a message that arrives before the deletion is destroyed by it |
| Durability.UndatedMessageIsLost | backend/src/handlers/messages.rs:119-124 | wherever a session is fresh, a message whose session's activity is not moved before the next look is destroyed by the close that follows, even if it is moved before the deletion |
| Durability.ArchivedOnce | backend/src/background.rs:722-746 | both situations are reached by a careful run |
| OldestFirst.TakeOldest | backend/src/background.rs:231-233 | an ordered, limited query returns that many rows, in order, and leaves out none older than one it takes |
| Retention.TrimHitsTargets | backend/src/handlers/retention.rs:144-191 | the trim deletes only rows past the cutoff or of sessions over their cap, of sessions not held |
| Retention.CutKeepsNewest | backend/src/handlers/retention.rs:34-73 | a session within its cap keeps all rows, one over it exactly its cap or as many as the budget leaves, and always the newest |
| Retention.TrimKeepsNewest | backend/src/handlers/retention.rs:144-191 | over the whole trim: only the age rule takes a session below its cap; held or not queued it keeps what the age rule spared; queued, with fewer than 1000 deletions in all, exactly as many as its cap allows; and always the newest |
| Retention.AgeTrimExact | backend/src/handlers/retention.rs:88-136 | the age trim takes all rows of sessions not held that are older than the retention days, or as many as the budget allows, oldest first |
| Retention.AffectedExactly | backend/src/background.rs:661-683 | the candidates are the sessions with a row older than the retention days and those with more rows than the cap, as far as the queries answer |
| Retention.TargetsAreCandidates | backend/src/background.rs:661-683 | such a row is of a candidate session or slipped through: it arrived, came of age, or its session went over its cap after the queries, or a query failed |
| Retention.TrimLosesExactly | backend/src/background.rs:885-948 | a cycle, age trim and count trim, held sessions and failed queries, destroys exactly the rows it deletes that slipped through or were overlooked by the freshness test and that no archive pass has caught |
| Retention.TrimLosesByHistory | backend/src/background.rs:885-948 | in every run: exactly those that no earlier step, a pass over their session, caught in the hot table |
| Retention.AgedMeanwhileIsLost | backend/src/handlers/retention.rs:98-116 | any trim destroys the only copy of a message that came of age after the queries |
| Retention.CrowdedMeanwhileIsLost | backend/src/handlers/retention.rs:44-68 | any trim destroys the only copy of a message of a session that went over its cap after the queries |
| Retention.FailedAgeQueryIsLost | backend/src/background.rs:671-673 | a failed age query holds nothing, and any trim destroys the only copy of a message |
| Retention.FailedCountQueryIsLost | backend/src/background.rs:675-683 | so with a failed count query |
| ArchiveService.EligibleMeansNotFresh | backend/src/background.rs:216-234 | the sweep's SQL filter selects an idle session exactly if the freshness test rejects it |
| ArchiveService.UserMessagesExact | backend/src/background.rs:402-407 | the user-message count is the number of lines of role user with a substantive content |
| ArchiveService.LateIsNew | backend/src/background.rs:987-993 | what a deletion destroys came after the look, or after the pass if there was one, or was overlooked by the look |
| ArchiveService.WorkingVouches | backend/src/background.rs:690-712 | what a routine was told is archived had all the rows it had when the routine began, but for those the freshness test overlooked |
| ArchiveService.ArchiveService.StoreMessage | backend/src/handlers/websocket/message_handlers.rs:363-364 | storing a message's row is the machine's insert and moves no activity |
| ArchiveService.ArchiveService.MoveActivity | backend/src/handlers/websocket/message_handlers.rs:424-427 | moving the session's activity is a step of its own, which may come later or never |
| ArchiveService.ArchiveService.ArchiveOneSession | backend/src/background.rs:299-553 | loading, merging, counting and writing amount to one pass over the store for all of the session's rows; on success the stored manifest has the time, each role's number of lines and the number of substantive user messages |
| ArchiveService.ArchiveService.EnsureSessionArchived | backend/src/background.rs:718-746 | a fresh row is believed as it was loaded; otherwise a pass; yes is a licence that knows the rows of the look or of the pass; only this session's stamp may change |
| ArchiveService.ArchiveService.LoadArchiveEligible | backend/src/background.rs:216-234 | the batch is the longest idle of the eligible sessions |
| ArchiveService.ArchiveService.ArchivePendingSessions | backend/src/background.rs:276-297 | one sweep backs exactly the sessions it counts as archived, whatever arrives and however storage fails in between; with nothing arriving and nothing failing it is a clean sweep |
| ArchiveService.ArchiveService.ArchiveRetentionCandidates | backend/src/background.rs:639-712 | every candidate session is licensed, knowing the rows it had at the queries, or held |
| ArchiveService.ArchiveService.DeleteOldMessages | backend/src/handlers/retention.rs:88-136 | all rows older than the retention days of sessions not held, or as many as the budget allows, oldest first |
| ArchiveService.ArchiveService.TruncateSessionMessages | backend/src/handlers/retention.rs:34-73 | a session within its cap keeps all rows, one over it its cap or as many as the budget leaves, and always the newest |
| ArchiveService.ArchiveService.TrimMessages | backend/src/handlers/retention.rs:144-191 | the age trim, then one cut a queued session, each counted anew, a thousand rows in all, counted exactly; what is left of every session is as the whole trim promises |
| ArchiveService.ArchiveService.RunRetentionCleanup | backend/src/background.rs:885-948 | with messages arriving all the while, in whatever order their rows and activities, the cycle is a run of the machine that leaves of every session what the trim promises and destroys exactly the rows it deletes that slipped through or were overlooked and that no pass caught |
| ArchiveService.ArchiveService.DeleteSessionWithData | backend/src/handlers/helpers.rs:148-239 | deletes on a licence whatever rows there are, perhaps only in part, and destroys exactly those that no pass caught |
| ArchiveService.ArchiveService.CloseSession | backend/src/handlers/sessions.rs:248-291 | an archive failure deletes nothing; only messages that arrive during the call, and rows that the freshness test overlooks at its start, can be lost, and the loss is accounted exactly |
| ArchiveService.ArchiveService.RunSessionAgeCleanup | backend/src/background.rs:951-1004 | only sessions idle too long are deleted, each after a yes; those held back keep all their rows; counts and losses are exact |
| SweepProgress.SweepTakes | backend/src/background.rs:276-297 | a clean sweep takes min(25, n) of the n eligible sessions, longest idle first |
| SweepProgress.QueueDrains | backend/src/background.rs:276-297 | with nothing newly eligible, n sessions need exactly ceil(n/25) clean sweeps |
| SweepProgress.FailingHeadStarves | backend/src/background.rs:216-297 | a full batch that keeps failing is selected again by every later sweep, so no other session is tried |
| ArchiveRace.ArrivalIsSafeExactly | backend/src/background.rs:722-746 | an arriving row is harmless exactly if no routine has got further with the session than finding it not fresh |
| ArchiveRace.LookIsSafeExactly | backend/src/background.rs:733-738 | a look is harmless exactly if it does not take a session with an overlooked row for fresh |
| ArchiveRace.CarefulRunsLoseNothing | backend/src/background.rs:722-746 | with such arrivals and looks only, any number of overlapping routines lose nothing, and a fresh archive without an overlooked row is complete |
| ArchiveRace.CarelessCanLose | backend/src/background.rs:722-746 | from any state of such a run, after any other arrival or look a message can be lost, at each of the points a routine may have reached |
| ArchiveRace.ArrivalInFlightIsLost | backend/src/background.rs:733-738 | a run of one archiver and one arrival that loses the arrival |
| ArchiveRace.ArrivalBeforeDeleteIsLost | backend/src/handlers/sessions.rs:261-289 | a run in which the arrival comes after the licence, with the session by then not fresh, and is lost |
| ArchiveRace.EarlyLookIsLost | backend/src/handlers/websocket/message_handlers.rs:363-427 | a run with nobody dealing with the session when a message arrives, in which a look between its row and the move of the activity loses it |
| ArchiveRace.StaleOverwriteIsLost | backend/src/background.rs:545-550 | a run of two archivers in which the slower one overwrites an archived message whose row is gone |
| ClaudeFrames.JoinBlocks | claude-session-lib/src/io_task.rs:209-232 | the block loop joins a frame's text, or finds that it is no plain text |
| ClaudeFrames.AllTextIffPlain | claude-session-lib/src/io_task.rs:217-232 | that succeeds exactly on a non-empty frame of text blocks only |
| ClaudeFrames.AllTextJoins | claude-session-lib/src/io_task.rs:217-232 | the joined text is that of the blocks, in order and with nothing between |
| ClaudeFrames.NonBlankExactly | claude-session-lib/src/io_task.rs:503-510 | a text is blank exactly if all of it is white space |
| ClaudeFrames.SystemReminderExactly | claude-session-lib/src/io_task.rs:205-207 | a reminder is a text that opens with the tag, behind white space at most |
| ClaudeEchoes.SuppressionIsExact | claude-session-lib/src/io_task.rs:485-536 | over a whole run every echo is dropped and nothing else, exactly if each genuine user frame arrives with no echo outstanding and no hidden prompt sent in its turn |
| ClaudeEchoes.MarkersAreOutstanding | claude-session-lib/src/io_task.rs:493-523 | with visible prompts only, the queue is the outstanding prompts, each echo meets its own text, and nothing is left when all have come |
| ClaudeEchoes.QueueLength | claude-session-lib/src/io_task.rs:493-523 | each hidden prompt of the turn leaves one marker too many |
| ClaudeEchoes.DropsAreBounded | claude-session-lib/src/io_task.rs:131-134 | in any run at all, frames dropped by a marker never outnumber the prompts sent |
| ClaudeEchoes.BlankPromptSwallowsAFrame | claude-session-lib/src/io_task.rs:503-510 | a blank prompt makes the next genuine user frame disappear |
| ClaudeRetries.RetryState | claude-session-lib/src/io_task.rs:442-481 | the counter is the number of backoffs since the last restart and at most 30; what waits is the last input sent; the latch never leaks into a later turn |
| ClaudeRetries.ErrorResult | claude-session-lib/src/io_task.rs:830-905 | what an error result does, read off the history: thirty backoffs, then one give-up that restarts the budget |
| ClaudeRetries.ResendsRepeatLastInput | claude-session-lib/src/io_task.rs:912-931 | every re-send repeats the last input sent, at most thirty between restarts |
| ClaudeRetries.WindowShape | claude-session-lib/src/io_task.rs:467-474 | the window is min(60, 2^attempt), never narrows and reaches the cap at attempt 6 |
| ClaudeRetries.NoSaturation | claude-session-lib/src/io_task.rs:472-473 | the power never saturates within the budget |
| ClaudeIo.LoopRunsBothMachines | claude-session-lib/src/io_task.rs:593-1000 | every history of the loop is a run of the echo filter and of the retry machine |
| ClaudeIo.LoopShowsExactlyGenuineFrames | claude-session-lib/src/io_task.rs:647-675 | of a fresh or resumed session, under the condition above, the loop passes on a visible user frame exactly if input has been seen and it is not an echo |
| ClaudeIo.ClaudeIoState.ResetTurnRetryState | claude-session-lib/src/io_task.rs:442-446 | clears the three retry fields and nothing else |
| ClaudeIo.ClaudeIoState.OnRateLimitTerminator | claude-session-lib/src/io_task.rs:457-481 | the machine's decision and new budget |
| ClaudeIo.ClaudeIoState.ShouldDropUserEcho | claude-session-lib/src/io_task.rs:493-523 | drops what the filter drops, and takes a marker exactly when it does |
| ClaudeIo.ClaudeIoState.NoteTexts | claude-session-lib/src/io_task.rs:731-748 | latches the rate-limit text and the first usage-limit banner, and reads no further |
| ClaudeIo.ClaudeIoState.NoteResult | claude-session-lib/src/io_task.rs:750-905 | ends a turn: no marker outlives it, the retry machine takes its step, and a failed one announces the limit noted |
| ClaudeIo.ClaudeIoState.ClaudeIoTask | claude-session-lib/src/io_task.rs:593-1000 | the loop takes exactly the machines' steps, passes on exactly the frames they pass and announces exactly the limits noted |
| ClaudeTurns.ScanExactly | claude-session-lib/src/io_task.rs:731-748 | the scan of an assistant frame finds the rate-limit text exactly if a text block starts with it and no banner stands before, and the first banner's reset time |
| ClaudeTurns.LoopFollowsScript | claude-session-lib/src/io_task.rs:593-1000 | at every point of every run the retry fields are what the script of inputs says: the last prompt written, the retries used, whether this turn showed the rate-limit text, what is scheduled |
| ClaudeTurns.ResultSchedulesExactly | claude-session-lib/src/io_task.rs:830-931 | an error result schedules the last prompt exactly if the rate-limit text was shown in its turn and fewer than thirty retries were used; a successful result schedules nothing and restarts the budget; nothing else schedules |
| ClaudeTurns.LimitNotedExactly | claude-session-lib/src/io_task.rs:837-864 | the usage limit noted is always that of the last banner shown in the present turn |
| ClaudeTurns.OtherFramesExactly | claude-session-lib/src/io_task.rs:310-330 | a frame that cannot be an echo is passed on exactly if input has been seen or it shows and does nothing; blank frames and reminders never are |
| ClaudeTurns.FilterIsTold | claude-session-lib/src/io_task.rs:593-675 | the echo filter is told of exactly the prompts as they are written, first or again, of the frames looked at and of the ends of turns |
| ContextAnchor.AnchorContext | claude-session-lib/src/io_task.rs:704-722 | after any frames the anchor is input, cache-creation and cache-read tokens of the first frame of the last group of equal ids, of those that may anchor, and there is none exactly if none may |
| ContextAnchor.AnchorOnOneMore | claude-session-lib/src/io_task.rs:712-722 | a continuation of the last group keeps the anchor, any other frame replaces it |
| ContextAnchor.MayAnchorExactly | claude-session-lib/src/io_task.rs:286-300 | a frame may anchor exactly if it has usage, is not of the synthetic model and does not open with one of five texts |
| ContextAnchor.AnchorUnique | claude-session-lib/src/io_task.rs:704-722 | there is only one first frame of the last group |
| ResetTime.ResetIsAhead | claude-session-lib/src/io_task.rs:1073-1104 | where local dates never step back, a reset is strictly ahead, today or tomorrow, at the stated time; and when there is none |
| ResetTime.ResetIsNextOccurrence | claude-session-lib/src/io_task.rs:1073-1104 | it is the next occurrence of the stated time exactly if now is not between two occurrences of a repeated time |
| ResetTime.RepeatIsPassedOver | claude-session-lib/src/io_task.rs:1073-1104 | an ordinary autumn night has such a moment: the reset is taken to be tomorrow's, not the repeat an hour later |
| ResetTime.PastResetWhereDatesStepBack | claude-session-lib/src/io_task.rs:1092-1102 | the assumption on dates is needed: in a made-up zone whose date steps back, the reset lies in the past |
| DashboardRpc.StepGoesForward | frontend/src/dashboard_rpc.rs:89-144 | a call only moves forward, and a finished call keeps its one reply |
| DashboardRpc.StepKeepsInv | frontend/src/dashboard_rpc.rs:16-144 | at every interleaving: pending entries and in-flight calls correspond one to one, both tables hold at most 32, nobody waits unlisted, nothing is sent twice |
| DashboardRpc.RunInv | frontend/src/dashboard_rpc.rs:16-144 | so in every state of every run |
| DashboardRpc.NeverReplayed | frontend/src/dashboard_rpc.rs:1-2 | what was sent is never sent again, under any id or for any call, whatever connections come and go |
| DashboardRpc.OneReplyEach | frontend/src/dashboard_rpc.rs:66-87 | a caller gets at most one reply |
| DashboardRpc.EachCall | frontend/src/dashboard_rpc.rs:27-144 | what every event makes of every call, told without the tables: who waits for a reply gets the one to its own id, or 401, 503 or 504; who waits for a connection gets the next one or 503; a new call is sent, waits, or fails with 429 or 503 by how many calls are under way |
| DashboardRpc.EndsExactly | frontend/src/dashboard_rpc.rs:66-144 | in every run a call has a reply exactly if an earlier step gave it: an answer is the payload of the reply to its own id, and 401, 429, 503, 504 and a drop each have their own event and condition |
| DashboardRpc.AnsweredUnderItsId | frontend/src/dashboard_rpc.rs:66-131 | the id of the reply that answered a call is the one the call was sent under |
| DashboardRpc.GenerationCounts | frontend/src/dashboard_rpc.rs:27-51 | the generation counts connections and account switches modulo 2^64 |
| DashboardRpc.StaleDisconnectIsIgnored | frontend/src/dashboard_rpc.rs:52-65 | a disconnect with an earlier generation changes nothing exactly if the generation has moved by anything but full turns; otherwise it takes the connection down and answers every pending request 503 |
| DashboardRpc.SwitchClears | frontend/src/dashboard_rpc.rs:25-40 | after an account switch no sender, pending entry or waiting call remains; the only unfinished calls are those already signalled |
| DashboardRpc.SentUnderOwnAccount | frontend/src/dashboard_rpc.rs:89-131 | unless a switch lands while a call is signalled but not resumed, every request is sent under the account it was made under |
| DashboardRpc.SignalledCallCrosses | frontend/src/dashboard_rpc.rs:101-131 | and if one does, the old account's request can be sent on the new account's connection |
| DashboardRpc.CrossingOccurs | frontend/src/dashboard_rpc.rs:101-131 | a run of six steps in which this happens |
| DashboardRpc.Broker.DrainPending | frontend/src/dashboard_rpc.rs:36-38 | answers everything pending, in any order, and empties the table |
| DashboardRpc.Broker.BindAccount | frontend/src/dashboard_rpc.rs:27-40 | the machine's account switch, nothing if the account is the same |
| DashboardRpc.Broker.SignalReady | frontend/src/dashboard_rpc.rs:46-48 | wakes every waiting caller of the ready list and empties it |
| DashboardRpc.Broker.Connect | frontend/src/dashboard_rpc.rs:42-51 | the machine's connection step, returning the new generation |
| DashboardRpc.Broker.Disconnect | frontend/src/dashboard_rpc.rs:52-65 | the machine's disconnect |
| DashboardRpc.Broker.Resolve | frontend/src/dashboard_rpc.rs:66-72 | answers the one call pending under this id, with exactly this payload; any other id changes nothing |
| DashboardRpc.Broker.RetainLive | frontend/src/dashboard_rpc.rs:94 | drops exactly the waiters whose call is gone |
| DashboardRpc.Broker.SendRequest | frontend/src/dashboard_rpc.rs:112-131 | registers and sends, or fails with 429 or 503, touching nothing else |
| DashboardRpc.Broker.Request | frontend/src/dashboard_rpc.rs:89-99 | sends at once if connected, waits if there is room, fails otherwise |
| DashboardRpc.Broker.ReplyTimeout | frontend/src/dashboard_rpc.rs:81-144 | answers 504 and frees the entry |
| InputQueue.StepConserves | antigravity-session-lib/src/io_task.rs:45-106 | what was received is, in order, the inputs with an outcome, the one being started, the queue and the turn's queue |
| InputQueue.StepAccounts | antigravity-session-lib/src/io_task.rs:117-196 | answers and prompts sent are exactly those the outcomes call for, in arrival order |
| InputQueue.RunInv | antigravity-session-lib/src/io_task.rs:45-196 | both hold in every state of every run |
| InputQueue.AnsweredAtMostOnce | antigravity-session-lib/src/io_task.rs:76-81 | in every state of every run no delivery handle is answered twice, nor for an input without an outcome |
| InputQueue.ReceivedExactly | antigravity-session-lib/src/io_task.rs:45-106 | the inputs taken up are those that came on the channel, in order and unchanged |
| InputQueue.SettledByStep | antigravity-session-lib/src/io_task.rs:76-163 | every input with an outcome was settled by one step: an empty one by a yes, any other by the attempt to start its turn, which sends the prompt exactly if it started |
| InputQueue.AnsweredExactly | antigravity-session-lib/src/io_task.rs:76-163 | in every state of every run the sender of such an input has exactly one answer, yes exactly if the input is empty or its turn was started and its prompt sent |
| InputQueue.SentInArrivalOrder | antigravity-session-lib/src/io_task.rs:155-163 | in every state of every run the prompt of an earlier input stands earlier among those sent |
| InputQueue.OnlyQueuedInputsAreLeft | antigravity-session-lib/src/io_task.rs:71-74 | when the loop stops, the inputs without an answer are exactly those still queued |
| InputQueue.OutputsOnlyGrow | antigravity-session-lib/src/io_task.rs:45-196 | nothing received, answered or sent is ever taken back |
| InputQueue.AntigravityTask.BeginTurn | antigravity-session-lib/src/io_task.rs:117-163 | the prompt is sent and its sender told yes exactly if every step of starting went well, and otherwise told no |
| InputQueue.AntigravityTask.RunTurn | antigravity-session-lib/src/io_task.rs:109-324 | a turn takes exactly the machine's steps until it ends, is shut down, or the channel closes |
| InputQueue.AntigravityTask.AppendAfterExisting | antigravity-session-lib/src/io_task.rs:362-367 | what arrived during the turn goes behind what was waiting before |
| InputQueue.AntigravityTask.IoTask | antigravity-session-lib/src/io_task.rs:36-107 | the loop takes exactly the machine's steps, to the end of what happens |
| ArchiveScan.CollectRows | archive-format/src/scan.rs:64-96 | fails only if the users cannot be listed, and otherwise yields the rows of every listing in order |
| ArchiveScan.ScanIsExact | archive-format/src/scan.rs:59-96 | a scan shows exactly the readable manifests of the users whose sessions can be listed |
| ArchiveScan.ScanIsSorted | archive-format/src/store.rs:456-474 | from sorted listings, a scan is sorted by user and session and repeats nothing |
| ArchiveScan.FilterAndSort | archive-format/src/scan.rs:150-155 | exactly the matching rows, most recent first, and those of the same moment in scan order |
| ArchiveScan.MatchingExact | archive-format/src/scan.rs:150-155 | the rows kept are those that match, each time they stand in the scan and in its order |
| ArchiveScan.ListingUnique | archive-format/src/scan.rs:150-155 | there is only one such listing |
| ScanCache.StepKeepsInv | backend/src/archive.rs:124-206 | at every interleaving at most one refresh is in flight, exactly while the flag is up, and whatever is cached or served is the whole of one finished scan |
| ScanCache.RunInv | backend/src/archive.rs:124-206 | so in every state of every run |
| ScanCache.StaysFilled | backend/src/archive.rs:145-154 | once filled the cache is never empty again |
| ScanCache.WarmRequestsNeverScan | backend/src/archive.rs:156-186 | from then on a request is answered in the step that makes it, from an earlier whole scan, and never scans |
| ScanCache.FirstLookExactly | backend/src/archive.rs:169-186 | the first look serves whatever is cached, and starts a refresh exactly if it is at least five minutes old and none is in flight |
| ScanCache.SecondLookExactly | backend/src/archive.rs:124-134 | the second look serves rows less than five minutes old and otherwise scans |
| ScanCache.CacheOnlyMovesForward | backend/src/archive.rs:145-206 | once no request scans for itself, and no walk runs that began before a write in the cache, nothing the cache shows is ever missing from it again |
| ScanCache.ScansAreDated | archive-format/src/scan.rs:64-96 | in every run a scan shows all writes made before the step that began its walk and none made after its end |
| ScanCache.InlineScanSetsBackExactly | backend/src/archive.rs:145-154 | a request that scans for itself can set the cache back exactly if the cache shows a write made after the request's walk began |
| ScanCache.WarmPublishesExactly | backend/src/archive.rs:189-212 | warming publishes every write, however the refresh in flight ends well, exactly if that has yet to start walking, or began to after the last write, or is finishing with all writes shown already; and it can publish them unless that is finishing without |
| ScanCache.LostWarmingStaysLost | backend/src/archive.rs:189-212 | a write not published by then stays unseen, with nothing running that would fetch it, until the cache expires |
| ScanCache.WarmingIsLost | backend/src/archive.rs:189-212 | a run in which the warming after an archive write starts nothing and the next request is served without the write |
| ScanCache.ExpiredRequestHeals | backend/src/archive.rs:175-182 | the first request at least five minutes after the last scan is served at once and starts a scan that, when it ends well, publishes every write so far |
| ScanCache.ArchiveRuntime.SpawnScanRefresh | backend/src/archive.rs:189-206 | starts a refresh exactly if the flag was clear |
| ScanCache.ArchiveRuntime.ScanRowsCached | backend/src/archive.rs:169-186 | the first look at the cache: stale rows at once, or on to the second |
| ScanCache.ArchiveRuntime.ScanRows | backend/src/archive.rs:124-134 | the second look: fresh rows, or a scan of its own |
| ScanCache.ArchiveRuntime.Rescan | backend/src/archive.rs:145-154 | a finished scan replaces the cache, whatever it holds; a failed one changes nothing |
| PagedImport.AppendExact | codex-session-lib/src/imports.rs:168-227 | appending succeeds exactly if no turn is running and both caps hold of the total, and then drops, alters and reorders nothing |
| PagedImport.AppendTwice | codex-session-lib/src/imports.rs:168-210 | appending in two goes is appending all at once, failures included |
| PagedImport.FailureSticks | codex-session-lib/src/imports.rs:127 | a failure met on some page is the failure of the whole conversation |
| PagedImport.ImportExact | codex-session-lib/src/imports.rs:295-309 | an import is all of the messages or none: all exactly if no turn is running, at most 8 MiB and at most 50,000 messages |
| PagedImport.FlatJoins | codex-session-lib/src/imports.rs:168-210 | the messages of turns stand one turn after the other |
| PagedImport.FlatOfOne | codex-session-lib/src/imports.rs:186-210 | each turn's items, and then the message of its end |
| PagedImport.SizeConcat | codex-session-lib/src/imports.rs:212-227 | the bytes of two runs of messages add up |
| PagedImport.FailsAtFirst | codex-session-lib/src/imports.rs:168-227 | a failure is that of the first turn that could not be taken, still running or too large |
| PagedImport.PageStands | codex-session-lib/src/imports.rs:118-137 | every page's turns stand behind those of the pages before it, whole and in order |
| PagedImport.Importer.PushMessage | codex-session-lib/src/imports.rs:212-227 | takes a message exactly if the total stays within 8 MiB and 50,000 messages, and then adds it unchanged |
| PagedImport.Importer.AppendTurns | codex-session-lib/src/imports.rs:168-210 | the loop over turns computes the fold, or its first failure |
| PagedImport.Importer.ImportPages | codex-session-lib/src/imports.rs:118-137 | whatever the server answers at most 2501 pages are asked for, and if the conversation ends by then the result, success or failure, is that of importing all its turns at once |
| PagedImport.Importer.Prepare | codex-session-lib/src/imports.rs:96-166 | succeeds exactly for a root thread at rest whose whole history can be imported and that did not change meanwhile, and otherwise says which of these failed |
| Federation.StepKeepsIds | frontend/src/federation.rs:80-156 | while fewer than 2^32 ids were given out: ids are distinct, never the home id, and every row's id is old or new, not recycled |
| Federation.GoneForGood | frontend/src/federation.rs:103-106 | an id whose row was removed, replaced or reloaded is never held again |
| Federation.WithoutExact | frontend/src/federation.rs:143 | removing an id removes its rows and no other |
| Federation.WithoutKeeps | frontend/src/federation.rs:143 | the rows that stay keep their order, and none of them is left out |
| Federation.EditExact | frontend/src/federation.rs:136-154 | a deactivation takes away the one row's client, a status change only its text; no other row changes |
| Federation.OneRowPerAccount | frontend/src/federation.rs:99-135 | no account ever has two rows, and no client ever holds another row's id or the home id, however many ids were given out |
| Federation.EnrolExact | frontend/src/federation.rs:99-135 | an enrolment puts one row in the place of the account's old one, or at the end: under the next id, with a client of that id if its credentials and origin will do, and otherwise with the error; no other row changes |
| Federation.HomeIsRefused | frontend/src/federation.rs:107-118 | at the home id an enrolment gets a row without a client |
| Federation.NeverHomeBelowTheWrap | frontend/src/federation.rs:83-107 | no row ever gets the home id, for registries that gave out at most n ids, exactly if n < 2^32 |
| Federation.FederationState.Initialize | frontend/src/federation.rs:83-93 | every loaded row gets the next id in turn |
| Federation.FederationState.Enrol | frontend/src/federation.rs:94-135 | replaces the account's row in its place, or appends one, under a new id |
| Federation.FederationState.Reduce | frontend/src/federation.rs:80-156 | every action takes exactly the machine's step |
| HashedAsset.StrippingIsThePattern | backend/src/routes.rs:40-60 | the stripping code accepts exactly a directory, a non-empty name, a dash, 12 to 16 hex digits, perhaps `_bg`, and one of three extensions |
| HashedAsset.HashOfText | backend/src/routes.rs:46-60 | taking apart a path built from such parts finds its hash |
| HashedAsset.RecognisersAgreeExactly | frontend/sw.js:52-55 | the service worker's expression matches exactly what the backend accepts under a directory with a lower-case hash |
| HashedAsset.UrlPathsDifferOnUpperCase | frontend/sw.js:52-55 | on a URL's path the two differ exactly on a hash with an upper-case digit |
| HashedAsset.UpperCaseHashDiffers | frontend/sw.js:52-55 | a path the backend takes for hashed and the service worker does not |
| RequestIds.IntegersRoundTrip | codex-session-lib/src/helpers.rs:4-18 | every 64-bit integer, the least included, comes back as itself |
| RequestIds.StringsRoundTripExactly | codex-session-lib/src/helpers.rs:4-18 | a string comes back as itself exactly if it is no signed decimal that fits 64 bits |
| RequestIds.TextRoundTripsExactly | codex-session-lib/src/helpers.rs:4-18 | text survives parsing and printing exactly if it is no such decimal or a canonical one |
| RequestIds.SameTextExactly | codex-session-lib/src/helpers.rs:4-9 | two different ids have the same text exactly if one is an integer and the other the string that spells it |

## Left out

- ArchiveService.ArchiveService.RunRetentionCleanup: a delete statement that fails deletes nothing and is not modelled; the routine with archiving disabled is not either.
- ArchiveService.ArchiveService.EnsureSessionArchived: a pass over a session that another routine has deleted meanwhile finds no rows and rewrites what is archived; it is not modelled.
- ArchiveService.ArchiveService.ArchiveOneSession: owner, members, token totals, turn statistics, media section and byte counts of the manifest are not modelled, nor is a manifest without transcript content in the service (`ArchiveStore` covers it).
- ArchiveService.ArchiveService.DeleteSessionWithData: the call without a licence, when archiving is disabled or a user is removed, recorded costs, members, pending inputs and launch tokens are not modelled.
- Transcripts.MergeTranscriptLines: the sort is by insertion, the map's iteration order arbitrary; memory use is not modelled.
- ClaudeIo.ClaudeIoState.ClaudeIoTask: delivery confirmations, notices, the text of an announced limit, turn metrics, shutdown and the fatal error branches of the loop are not modelled; the jitter of a backoff is any delay within its window.
- ResetTime.ResetIsAhead: finding the clause, the time formats and the zone name in the banner's text, and the end of the calendar, are not modelled; the zone is any pair of conversions that agree.
- ArchiveScan.CollectRows: the warnings it passes to its caller are not modelled.
- ScanCache.ArchiveRuntime.ScanRowsCached: poisoned locks and a scan that panics with the flag up are not modelled.
- PagedImport.Importer.Prepare: the JSON shapes of messages are a content and a length; a content that cannot be serialized is not modelled.
- Federation.FederationState.Reduce: credentials and clients are an id or nothing; status texts are carried along.
- InputQueue.AntigravityTask.RunTurn: stop reasons, usage, step events and the harness's requests are not modelled; what happens is a sequence of steps, so a task observed mid-way is a run that stops there.
- DashboardRpc.Broker.Request: payloads are numbers, and the two timeouts are steps that may happen at any time.
- Diesel queries, the schema, routing, authentication, S3, zstd and JSON encodings: library behaviour; tables and stores are maps, and decoding undoes encoding.
- Rendering, login flows, launchers, the other agents' task loops and the Python and build scripts: no property over runs.
