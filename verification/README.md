# The stateful core of OMNI, modelled and proved in Dafny

OMNI keeps a person's memories, conversations and request records in one encrypted vault and lets language-model
providers see only what the owner has granted. This project models the parts of it that change state over several
steps, and proves what they keep in every run. Each vault call is one atomic step, as one lock serialises the calls;
a request is several such steps, and edits, revocations, deletions, restores, crashes and other requests come in between.

| file | what it models |
|---|---|
| `Continuity.dfy`, `ContinuityRuns.dfy`, `RestoreFence.dfy` | saved conversations: prepare, finish, clear, delete, expiry, replay; runs with any number of outstanding attempts, and restores between them |
| `Recovery.dfy`, `Restore.dfy`, `RestoreGuards.dfy`, `RestoredThreads.dfy` | export and restore of the vault's tables as one transaction, its guard, and its effect on the conversations |
| `Memories.dfy`, `Disclosure.dfy` | memories, grants, the context a grant discloses, receipts; runs of read, inject, revalidate, record |
| `Metering.dfy`, `Trace.dfy` | token accounting, the line parser of a provider's stream, and the guard that completes one exchange |
| `Journal.dfy`, `UsageStatistics.dfy` | the record lifecycle, cost, recovery of interrupted work, and usage totals by provider and model |
| `JsonValues.dfy`, `ContentPolicy.dfy`, `PolicyEngine.dfy`, `Attachments.dfy` | what a request policy sees, its verdict, and the rewriting of attached files |
| `Analytics.dfy` | quantisation of weekly counts and the lifetime budget of four reports |
| `ChatImport.dfy` | the branch walk of an exported ChatGPT conversation |
| `HistoryContract.dfy` | the chat history the desktop builds against the one the core accepts |
| `Rotation.dfy` | rotation of the tunnel's identity key between a crashing client and a crashing server |
| `Common.dfy` | options, results and sequence helpers |

Operations that change state in place are class methods; their `ensures` give the new state as a function of the old one,
and the lemmas about runs are proved of those functions. Texts are strings with one `char` per UTF-8 byte, so that
`|t|` is a byte length. Times, fresh ids, hashes, the JSON reader, regular expressions, noise and serialised sizes are
parameters of which nothing is assumed.

## Where the code and its own description differ

The model follows the code.

- **Restore and late replies.** `docs/RECOVERY.md:28` says that earlier replies stay out because restored conversations are
  reopened at a new revision. The revision alone does not do it, as an archive may be older than the send. What does is
  that a restore needs a vault without audit rows, that a deletion leaves one for at least a day, and that a restored
  thread has the expiry it always had: no reply crosses a restore if and only if sends are given up within a day of the
  vault's clock (`RestoreFence.FenceHoldsIff`). The HTTP clients give up after 180 seconds (`crates/omni-core/src/http.rs:47-55`),
  so only a clock that jumps by more than a day during a request lets one through. Without a restore in between, no bound
  is needed (`ContinuityRuns.ClosedForGood`).
- **Token totals.** A provider that reports a total is believed when input plus output is out of the signed 64-bit range,
  so a known total is the sum of the two exactly when that sum is in range (`Metering.TotalWithoutSum`).
- **Status codes from 600 to 999.** The HTTP client passes them on and the journal refuses them, so the completion of such
  an exchange is lost and its record stays open until the next start (`Trace.OddStatusStaysOpen`).
- **Edits within one instant.** A waiting request is stopped by an edit of a selected memory exactly when the clock has
  moved since that memory was last written (`Disclosure.EditStopsExactly`); an edit undone in the same instant is not seen.

## Model

| member | source | states |
|---|---|---|
| Continuity.Store.Create | crates/omni-core/src/continuity.rs:91-140 | a conversation is created exactly when consent, retention, the limit of conversations, the grant and the labels allow it; expired ones are pruned even when it is not |
| Continuity.Store.Delete | crates/omni-core/src/continuity.rs:149-164 | the thread and all its turns go, and nothing else |
| Continuity.Store.Clear | crates/omni-core/src/continuity.rs:165-173 | succeeds exactly if that request is pending, and then moves the thread to a new revision |
| Continuity.Store.Prepare | crates/omni-core/src/continuity.rs:174-257 | every refusal, the replay of a stored exchange, and a fresh attempt with its history, each with the exact state it leaves; a send admitted or replayed has the provider, destination, model and grant of its conversation |
| Continuity.Store.Select | crates/omni-core/src/continuity.rs:234-256 | the history is the longest chronological suffix of at most 10 pairs and 40000 bytes: contiguous, ending at the latest turn, alternating, not extendable |
| Continuity.Store.Fit | crates/omni-core/src/continuity.rs:234-254 | the budget loop stops at the longest admissible suffix |
| Continuity.Store.Latest | crates/omni-core/src/continuity.rs:234-242 | the newest rows by position, newest first |
| Continuity.Store.Finish | crates/omni-core/src/continuity.rs:258-308 | a reply is stored if and only if its attempt is the pending one at its revision and the thread is alive; the turn then holds the question and its hash, the reply, its receipt and interaction, the time, and the next position |
| Continuity.FlattenAt | crates/omni-core/src/continuity.rs:234-254 | a history alternates what was asked and what was answered, each exchange in its place, and the budget counts both |
| Continuity.AtMostHundredTurns | crates/omni-core/src/continuity.rs:213-256 | distinct positions up to the revision leave room for at most 100 turns in a thread |
| Continuity.PrepareKeeps | crates/omni-core/src/continuity.rs:174-257 | preparing keeps positions distinct and within the revision, and pending ids apart from stored ids |
| Continuity.FinishKeeps | crates/omni-core/src/continuity.rs:258-308 | storing a reply breaks neither uniqueness constraint |
| Continuity.RecoveredKeeps | crates/omni-core/src/recovery.rs:285-288 | reopening every thread at its next revision keeps the structure |
| Continuity.FinishAppends | crates/omni-core/src/continuity.rs:271-306 | a stored reply is the last of the thread's turns in order, after exactly those that were there |
| Continuity.OrderedIsChronological | crates/omni-core/src/continuity.rs:234-242 | the list that histories are taken from holds every turn of the thread once, by position |
| ContinuityRuns.ReachableStructure | crates/omni-core/src/continuity.rs:50-54 | in every state reachable from a new vault, restores included, both uniqueness constraints hold and no thread has more than 100 turns |
| ContinuityRuns.ReachableIsSettled | crates/omni-core/src/continuity.rs:165-308 | in every state reached by a guarded run each send ever prepared is the pending one of its thread, or over for good; a run is guarded if it restores nothing, or sends are given up within a day |
| ContinuityRuns.StartIsSound | crates/omni-core/src/continuity.rs:50-54 | a new vault has the structure that every step keeps |
| ContinuityRuns.StepKeeps | crates/omni-core/src/continuity.rs:56-308 | every operation keeps the structure, and every thread, turn, stored reply and answered send leaves the row that later forbids a restore |
| ContinuityRuns.LateReplyNeverStored | crates/omni-core/src/continuity.rs:258-308 | once a send is over, no later guarded run stores its reply, even if its request id is prepared again; however long a send may take, if the run restores nothing, and restores included, if it may take a day |
| ContinuityRuns.SettledStep | crates/omni-core/src/continuity.rs:165-308 | every step keeps it true that each send is the pending one of its thread or over; only a restore where sends may take longer than a day can break it |
| ContinuityRuns.ClosedForGood | crates/omni-core/src/continuity.rs:149-173 | in every state reached by a guarded run a clear, deletion, stored reply, expiry or guarded restore ends every earlier send on the thread, in every later guarded run |
| ContinuityRuns.ClosedOnceResponded | crates/omni-core/src/recovery.rs:208-233 | once any response has been recorded, which no operation undoes and which forbids every restore, the same holds in every later run without a condition |
| ContinuityRuns.ExactlyOnce | crates/omni-core/src/continuity.rs:258-308 | in every reachable state, restores included: each request id and each revision of a thread has been stored at most once, with what was asked |
| ContinuityRuns.SpentGrantAdmitsNothing | crates/omni-core/src/continuity.rs:198-201 | a grant that was revoked, or brought in by a restore, admits no send of any later run, fresh or replayed |
| ContinuityRuns.StoredTurnsAreImmutable | crates/omni-core/src/continuity.rs:271-306 | a stored exchange never changes while its thread lives, in any later run |
| ContinuityRuns.RetryReplays | crates/omni-core/src/continuity.rs:202-221 | after any later run a retry gets the stored reply, receipt and interaction and changes nothing; the same id with other content is refused |
| ContinuityRuns.SendIsReplayed | crates/omni-core/src/continuity.rs:174-308 | end to end: a send is prepared as fresh, its reply is stored after any run, and after any further run a retry of it gets that reply, receipt and interaction, or a refusal if the message hashes otherwise |
| RestoreFence.NothingCrosses | crates/omni-core/src/recovery.rs:208-233 | where sends are given up within a day, no reply to a send from before a restore is stored after it, in any run and for any archive |
| RestoreFence.SlowReplyCrosses | crates/omni-core/src/recovery.rs:208-233 | where a send may take longer, a run from a new vault in which one is |
| RestoreFence.FenceHoldsIff | crates/omni-core/src/recovery.rs:285-288 | the fence of a restore holds if and only if sends are given up within a day |
| Recovery.RowRoundTrip | crates/omni-core/src/recovery.rs:150-200 | every row the schema accepts is read back as it was written |
| Recovery.Load | crates/omni-core/src/recovery.rs:247-275 | for well-typed archives: the insertion loops succeed exactly on loadable archives, whatever order the rows come in, and leave exactly their rows |
| Recovery.InsertionChecks | crates/omni-core/src/recovery.rs:247-275 | the checks of one insertion against the rows so far are the declarative condition on the archive |
| Recovery.LoadedIsConsistent | crates/omni-core/src/recovery.rs:248-306 | what has been loaded satisfies column kinds, unique keys and references |
| Recovery.ArchiveLoads | crates/omni-core/src/recovery.rs:24-41 | an archive of a consistent vault always loads, to the same rows: the table order never breaks a reference |
| Restore.TablesAreOrdered | crates/omni-core/src/recovery.rs:24-41 | in the list of tables every parent comes before its children |
| Restore.Vault.Export | crates/omni-core/src/recovery.rs:150-207 | an archive carries every row of every table, or none is made, exactly for more than 10000 rows or 400000 bytes of them |
| Restore.Vault.ExportTable | crates/omni-core/src/recovery.rs:150-200 | the running counts are those of the rows, and the limits are checked on exactly them |
| Restore.WeightWithout | crates/omni-core/src/recovery.rs:150-200 | the byte count does not depend on the order rows are read in |
| Restore.Vault.RestoreArchive | crates/omni-core/src/recovery.rs:234-316 | all or nothing: for well-typed archives, exactly when all nine tables of ordinary use are empty, every audit row is of a start, and the archive loads with a policy that compiles, the result is the normalised archive; otherwise nothing changes, and a vault with only start-up rows is never refused as used |
| Restore.UnusedIs | crates/omni-core/src/recovery.rs:208-233 | unused means no source, memory, grant, receipt, interaction, report, client, conversation or exchange, and no audit row but of a start |
| RestoreGuards.OneGuard | crates/omni-core/src/recovery.rs:208-233 | the guards that the runs of conversations, journal, memories and analytics assume hold together, with no client enrolled, if and only if the guard of the tables does |
| Restore.RowsClash | crates/omni-core/src/continuity.rs:50-54 | two turns of a thread may share neither request nor position, and other rows no key of their table |
| Restore.RestoreLeavesTheRest | crates/omni-core/src/recovery.rs:276-289 | grants keep all but their revocation, settings all but consent, the instance all but its id, and every other table is as archived, with one audit row more |
| Restore.LoadedReferences | crates/omni-core/src/recovery.rs:276-302 | after the updates the foreign-key check finds nothing, for every loadable archive |
| Restore.RestoredIsConsistent | crates/omni-core/src/recovery.rs:234-316 | a restored vault satisfies every constraint of the schema, if and only if no conversation it keeps was at the largest revision an integer can hold |
| Restore.PruneFirst | crates/omni-core/src/recovery.rs:285-316 | expired conversations of an archive make no difference to what a restore leaves |
| Restore.ExportRestores | crates/omni-core/src/recovery.rs:150-316 | restoring an export loads, and gives the normalisation of exactly the exported rows |
| Restore.RestoreRevivesNothing | crates/omni-core/src/recovery.rs:276-289 | for every consistent archive: every grant revoked, every attempt closed, consent off, own identity kept, reports, sources and memories as archived, and no second restore possible; and every kept conversation is at its next revision if and only if none was at the largest an integer can hold |
| Restore.PruneKeepsIntegrity | crates/omni-core/src/continuity.rs:56-62 | pruning expired threads with their turns breaks no constraint |
| RestoredThreads.RestoreReopensConversations | crates/omni-core/src/recovery.rs:285-316 | the continuity tables seen in the restored rows are those of the archive, reopened and pruned as the runs of the protocol assume, if and only if no kept conversation was at the largest revision an integer can hold |
| Memories.ContextIsJustified | crates/omni-core/src/vault.rs:375-428 | whatever a context holds is confirmed and, where the grant names memories, one of those named, under an unrevoked, unexpired grant for that destination, as it stands, within 24 memories and 12000 bytes |
| Memories.ContextIs | crates/omni-core/src/vault.rs:375-428 | the same of the rows of the tables, newest first and then by id; and exactly when a context is refused and with which error |
| Memories.EligibleIsRead | crates/omni-core/src/vault.rs:398-412 | every confirmed memory that the grant names, or any where it names everything, is among the rows read |
| Memories.LeftOutForRoom | crates/omni-core/src/vault.rs:404-425 | a confirmed memory in scope that matches is left out only if it does not fit into what the context leaves, or 24 others are in it |
| Memories.SelectedIffItFits | crates/omni-core/src/vault.rs:413-425 | the budget filter passes over a row exactly when it does not fit what the rows before it left |
| Memories.SortedLists | crates/omni-core/src/vault.rs:404-412 | the rows are listed once each, newest first |
| Memories.Vault.ReadContext | crates/omni-core/src/vault.rs:375-428 | the read returns that context, or the first of its refusals |
| Memories.Vault.Select | crates/omni-core/src/vault.rs:413-425 | the loop with its running budget selects exactly the fitting, matching rows, 24 at most |
| Memories.Vault.CurrentContextReceipt | crates/omni-core/src/vault.rs:429-476 | a receipt is written only while the selection is still the whole context, and names exactly it |
| Memories.Vault.AddMemory | crates/omni-core/src/vault.rs:96-139 | a memory and its source are added together or not at all |
| Memories.Vault.UpdateMemory | crates/omni-core/src/vault.rs:146-192 | an edit is refused for a missing memory or bad content, is otherwise the only change, and keeps what the memory said before |
| Memories.Vault.DeleteMemory | crates/omni-core/src/vault.rs:193-217 | the memory goes with its versions, and its source unless another memory came from it |
| Memories.Vault.DeleteSource | crates/omni-core/src/vault.rs:218-234 | a source goes with all the memories that came from it |
| Memories.Vault.CreateGrant | crates/omni-core/src/vault.rs:285-337 | a grant is made exactly for a lifetime of at most a day and an existing, bounded scope |
| Memories.Vault.Revoke | crates/omni-core/src/vault.rs:355-374 | a grant keeps the time it was first revoked at |
| Disclosure.EveryDisclosureIsJustified | crates/omni-core/src/http.rs:1710-1783 | in every reachable state: at the instant a receipt was recorded the request body was the whole context of the grant, the receipt names exactly it, and each entry is a confirmed memory as it stood, one of those named where the grant names memories, under a usable grant for that destination |
| Disclosure.OnlyAPrincipalSends | crates/omni-core/src/http.rs:1710-1783 | a request begins and is recorded only while its principal is authorised, and a record is of that request, its grant, destination and body at that instant |
| Disclosure.SpentGrantNeverAuthorises | crates/omni-core/src/vault.rs:355-394 | once a grant is revoked, expired or gone, no run discloses under it again |
| Disclosure.StoppedForGood | crates/omni-core/src/vault.rs:460-476 | a request with a spent grant or a stale memory is never recorded |
| Disclosure.InterferenceStops | crates/omni-core/src/http.rs:1710-1783 | a revocation, expiry, restore, deletion of a selected memory or its source, later edit of one, the end of the request, or the loss of its principal stops the waiting request in every later run |
| Disclosure.EditStopsExactly | crates/omni-core/src/vault.rs:460-476 | an edit of a selected memory stops the request for good if and only if the clock has moved since that memory was last written |
| Metering.TokensAddUp | crates/omni-core/src/http.rs:207-296 | over every sequence of events of both forms mixed: counts fit 63 bits, cache counts fit in a known input, and a known total is input plus output exactly when that is in range |
| Metering.TotalWithoutSum | crates/omni-core/src/http.rs:270-281 | an event after which total, input and output are known and the total is not their sum |
| Metering.SeparateCounts | crates/omni-core/src/http.rs:237-267 | where input is reported apart from the cache, each part is the last report of it in whatever event, and the input is their sum, unknown until all are known |
| Metering.InclusiveCounts | crates/omni-core/src/http.rs:211-236 | where a prompt includes its cache, input, cached and written are each the count of its own field in the last such event, an absent cache write is zero only where none is ever made, and counts that cannot fit the prompt are unknown |
| Metering.LastOutput | crates/omni-core/src/http.rs:264-269 | the output is the last one reported, under either of its names |
| Metering.TotalCounts | crates/omni-core/src/http.rs:270-295 | an unreported total is the sum where it is in range, and a reported one is believed when nothing known contradicts it |
| Metering.LineCounts | crates/omni-core/src/http.rs:316-340 | the counts of a line are those of its event, and only an error object fails the stream |
| Metering.TrimIsInner | crates/omni-core/src/http.rs:311-315 | the end mark is compared after taking white space, all of it and nothing else, from both ends |
| Metering.LinesAreTheStream | crates/omni-core/src/http.rs:305-348 | the lines and the rest are the stream, with nothing lost or invented |
| Metering.ScanIsLineByLine | crates/omni-core/src/http.rs:305-348 | the byte-by-byte parser computes the fold over complete lines of at most 65536 bytes |
| Metering.ChunkingIsIrrelevant | crates/omni-core/src/http.rs:297-349 | for every way of cutting a stream into chunks the result is that fold, and the buffer stays within 65536 bytes |
| Trace.SucceededIff | crates/omni-core/src/http.rs:367-384 | a response succeeds if and only if it is within the limit, ended by itself with a 2xx status, no complete line was an error, and a stream of a known protocol announced its end |
| Trace.AbortedIff | crates/omni-core/src/http.rs:350-392 | an exchange is aborted if and only if the client went away within the limit and no complete line was an error |
| Trace.HeadIsRecorded | crates/omni-core/src/http.rs:196-206 | the head of a stream leaves its record streaming, with its status code and header latency |
| Trace.CompletionCloses | crates/omni-core/src/http.rs:350-366 | the completion of a trace closes its open record exactly when status code, byte count and latencies are reportable: the token counts never stand in the way |
| Trace.OddStatusStaysOpen | crates/omni-core/src/journal.rs:631-636 | a status code from 600 to 999 makes every completion fail |
| Trace.ExchangeTrace.Headers | crates/omni-core/src/http.rs:196-206 | status and latency of the head are noted, and recorded at once for a stream |
| Trace.ExchangeTrace.Usage | crates/omni-core/src/http.rs:207-296 | the field-by-field updates compute the counts that `Metering.InclusiveCounts` and `Metering.SeparateCounts` describe |
| Trace.ExchangeTrace.Chunk | crates/omni-core/src/http.rs:297-349 | a chunk is parsed as the specification says, and its bytes are counted with saturation |
| Trace.ExchangeTrace.Complete | crates/omni-core/src/http.rs:350-366 | only the first completion writes, and the record then says what the trace found exactly if the journal can hold it |
| Trace.ExchangeTrace.ResponseComplete | crates/omni-core/src/http.rs:367-384 | the verdict on a response that came to its own end |
| Trace.ExchangeTrace.Drop | crates/omni-core/src/http.rs:386-392 | a dropped guard aborts its exchange unless it was completed before |
| Trace.Forward | crates/omni-core/src/http.rs:436-475 | whatever the chunks, a stream within the limit is forwarded whole and unchanged, one beyond it never exceeds the limit, and the final status is a function of the bytes, the HTTP status, the protocol and the way it ended |
| Trace.ReadBody | crates/omni-core/src/http.rs:393-435 | a body is returned exactly if announced and actual sizes are within the limit and it was not cut short, and is then the concatenation of its chunks; otherwise the exchange has failed with the reason, and its record says so |
| Journal.CostPartitionsInput | crates/omni-core/src/journal.rs:420-445 | for anything one trace meters the subtraction never underflows, only a missing rate leaves the cost unknown, and the charged categories partition the input |
| Journal.MarginalCharge | crates/omni-core/src/journal.rs:420-445 | each category is charged at its own rate |
| Journal.UncachedCost | crates/omni-core/src/journal.rs:420-445 | without cache rates the cost is known exactly when nothing was cached or written, and is then that of input and output at their own rates |
| Journal.MergeEvolves | crates/omni-core/src/journal.rs:660-701 | a completion keeps a record's structure: finished iff terminal, header latency within total latency, bytes and stage never back |
| Journal.Ledger.Start | crates/omni-core/src/journal.rs:539-622 | a record starts pending exactly when recording is enabled, its data are in range and its id is new |
| Journal.Ledger.Finish | crates/omni-core/src/journal.rs:624-701 | an open record is completed unless the completion is refused; a completed or cleared one is left alone |
| Journal.AcceptedIff | crates/omni-core/src/journal.rs:624-659 | a completion is accepted exactly for an open record, in the ranges and the order written out |
| Journal.MergeReports | crates/omni-core/src/journal.rs:660-701 | field by field: what is reported replaces what was, what is not reported stays, an unknown error code is replaced, and an end has its time |
| Journal.Ledger.RecoverInterrupted | crates/omni-core/src/journal.rs:903-926 | a restart drops what is older than the retention, leaves what was finished, and makes every open record aborted with process_restarted now, with its other fields as they were; it counts those, and is never refused |
| Journal.RecoveryIs | crates/omni-core/src/journal.rs:903-926 | the same record by record, without reference to how a completion is merged |
| Journal.RecoveryCloses | crates/omni-core/src/journal.rs:903-926 | recovery leaves nothing open, and a second recovery finds nothing |
| Journal.Lifecycle | crates/omni-core/src/journal.rs:624-701 | from an empty ledger, over every run, records keep their structure; until an archive is restored, terminal records never change, bytes and stages never go back, and cleared records do not return |
| Journal.RestoreBringsBack | crates/omni-core/src/recovery.rs:247-275 | a restore into an emptied ledger does bring a cleared record back |
| UsageStatistics.Counter.Count | crates/omni-core/src/journal.rs:999-1047 | a record is counted in full, or the count fails exactly when a counter would overflow |
| UsageStatistics.JournalUsage | crates/omni-core/src/journal.rs:928-982 | the statistics fail exactly when a counter of the overall totals does not fit; otherwise overall and per group they are the sums of their records |
| UsageStatistics.TotalsCount | crates/omni-core/src/journal.rs:999-1047 | interactions are the five statuses added up, each status and byte counter is that of the records, and the cost is the sum over the priced ones |
| UsageStatistics.TotalsObserve | crates/omni-core/src/journal.rs:989-1047 | each token total is the sum over the records that reported that category, with their number |
| UsageStatistics.UnknownIffUnreported | crates/omni-core/src/journal.rs:989-997 | a token total is unknown exactly when no record reported it |
| UsageStatistics.GroupsAddUp | crates/omni-core/src/journal.rs:935-962 | conservation: in any order the groups add up to the overall totals, in every counter, observation and the cost |
| UsageStatistics.GroupIs | crates/omni-core/src/journal.rs:935-950 | a group holds the records of its provider and model as often as they occur, and no others |
| ContentPolicy.VisitIsComplete | crates/omni-core/src/policy.rs:339-390 | a visit records no fault if and only if every value is at most 64 levels deep and none is opaque, and then it has reached every text in order |
| ContentPolicy.FaultIsTheLast | crates/omni-core/src/policy.rs:339-390 | a visit reports the last value, in traversal order, that is too deep or opaque |
| ContentPolicy.InspectedFault | crates/omni-core/src/policy.rs:274-331 | the fault of a request is that of its last faulty attachment, or else that of its body |
| ContentPolicy.InspectedFiles | crates/omni-core/src/policy.rs:274-331 | each attachment is listed with its extension and size, and all bytes are counted, saturating |
| ContentPolicy.AttachmentInOrder | crates/omni-core/src/policy.rs:286-326 | exactly which names, media types and texts of an attachment are accepted |
| ContentPolicy.AfterLastDot | crates/omni-core/src/policy.rs:286-290 | an attachment's extension is what follows the last dot of its name |
| ContentPolicy.LiteralFlags | crates/omni-core/src/policy.rs:159-168 | a literal without a line break is flagged exactly when it occurs in the texts read one after the other |
| ContentPolicy.AllowedIff | crates/omni-core/src/policy.rs:141-180 | a verdict allows if and only if sizes, files, inspection, all block rules and all required rules do, wherever they stand in the list |
| ContentPolicy.VerdictNames | crates/omni-core/src/policy.rs:141-180 | which objection is named, with the id of the first rule of its kind that does not pass |
| ContentPolicy.TextsInOrder | crates/omni-core/src/policy.rs:333-338 | both inspected texts keep the order of the leaves, one with line breaks between them |
| ContentPolicy.InspectionHidesNothing | crates/omni-core/src/policy.rs:141-180 | an allowed request has the literal of no block rule in any decoded text at any depth, nor across texts, and nothing was skipped |
| ContentPolicy.LiteralPolicyIsExact | crates/omni-core/src/policy.rs:266-390 | for literal block rules the verdict is exact, in both directions |
| PolicyEngine.Inspection.constructor | crates/omni-core/src/policy.rs:274-331 | the inspection of a body with its attachments, with every attachment's name and text among the inspected texts |
| PolicyEngine.Inspection.Visit | crates/omni-core/src/policy.rs:339-390 | the recursive visit appends the texts it reaches and keeps the last fault |
| PolicyEngine.Evaluate | crates/omni-core/src/policy.rs:141-180 | the loops return the first objection in the specified order |
| PolicyEngine.PolicyVault.PolicyEvaluate | crates/omni-core/src/policy.rs:533-586 | allowed exactly if both layers allow; the local policy cannot weaken the managed one; the last 1000 decisions are kept |
| PolicyEngine.PolicyVault.Save | crates/omni-core/src/policy.rs:509-532 | a policy that compiles is replaced only at the expected revision, which then advances; one that does not is an error |
| Attachments.FileRoundTrip | crates/omni-core/src/policy.rs:395-402 | a file block read back is the attachment it was written from |
| Attachments.PreparingKeepsRequests | crates/omni-core/src/policy.rs:403-452 | messages and other blocks stay in place, and the returned files are exactly those attached, in message order, the new ones last |
| Attachments.OpenedMessageKeeps | crates/omni-core/src/policy.rs:435-450 | a message keeps its other members and blocks, and has no file block left |
| Attachments.OpenedFileIs | crates/omni-core/src/policy.rs:435-450 | a file is decoded from its own members and becomes a text block of its quotation |
| Attachments.AttachedMessage | crates/omni-core/src/policy.rs:410-434 | new files join a user message after its text or its blocks, and no other; its other members stay |
| Attachments.PreparedIff | crates/omni-core/src/policy.rs:403-452 | exactly which requests are prepared |
| Attachments.RefusedFor | crates/omni-core/src/policy.rs:403-434 | and why others are refused, in this order |
| Attachments.PreparingTwice | crates/omni-core/src/policy.rs:403-452 | a second run returns no files and changes nothing |
| Attachments.AttachedFilesAreInspected | crates/omni-core/src/http.rs:1723-1731 | in an allowed request no literal of a block rule is in the name or text of any attached file, although the provider gets the file quoted, and whatever context was added before inspection |
| Attachments.PrepareFiles | crates/omni-core/src/policy.rs:403-452 | the rewriting in loops computes that result, or the first of its refusals |
| Analytics.Residue | crates/omni-core/src/analytics.rs:146-150 | the floored units never exceed 65536 and lack at most seven |
| Analytics.UnitsAreWhole | crates/omni-core/src/analytics.rs:146-153 | the eight units add up to exactly 65536, each within it |
| Analytics.UnitsAreShares | crates/omni-core/src/analytics.rs:146-150 | each unit is within one of the exact share, the second at most seven above |
| Analytics.HistogramsAreClose | crates/omni-core/src/analytics.rs:157-172 | two histograms of any two installation-weeks differ by at most two wholes |
| Analytics.Quantise | crates/omni-core/src/analytics.rs:140-155 | the loop computes those units without underflow |
| Analytics.Measure | crates/omni-core/src/analytics.rs:109-156 | counting refuses exactly the rows in no known category, and gives the three histograms |
| Analytics.TallyIsTheNumber | crates/omni-core/src/analytics.rs:114-138 | a bucket counts exactly the rows of that week whose topic, latency or tokens are in it |
| Analytics.HistogramsCount | crates/omni-core/src/analytics.rs:114-155 | each histogram is of its own category: a bucket is within one unit of its share of the rows, the second at most seven above |
| Analytics.Vault.PrepareReport | crates/omni-core/src/analytics.rs:77-207 | every refusal in order, the replay of a stored week, and the storing of a new report before it is returned |
| Analytics.RefusedIff | crates/omni-core/src/analytics.rs:77-131 | exactly when a report is released, and what it then is |
| Analytics.LifetimeBudget | crates/omni-core/src/analytics.rs:88-107 | from nothing, over every run of any number of installations exchanging archives: each holds at most four reports, one to a week, never loses or changes one, has spent an epsilon equal to their number, and never gets any back |
| Analytics.RetryReturnsTheSameReport | crates/omni-core/src/analytics.rs:89-101 | however much later, a retry returns the very report released before and spends nothing |
| ChatImport.Walk | apps/desktop/src/conversations.ts:104-124 | the walk terminates on every mapping and succeeds exactly when the parent chain reaches a root |
| ChatImport.BranchIsAcyclic | apps/desktop/src/conversations.ts:104-124 | a chain that reaches a root has no node twice |
| ChatImport.OneBranch | apps/desktop/src/conversations.ts:104-124 | there is at most one such chain |
| ChatImport.AddMessages | apps/desktop/src/conversations.ts:49-70 | messages are kept in order within 500 messages and 100000 bytes each, or the import fails |
| ChatImport.KeptIff | apps/desktop/src/conversations.ts:49-146 | exactly which messages are kept, with their own role and text |
| ChatImport.TextsOf | apps/desktop/src/conversations.ts:24-47 | the text of a message is that of its plain blocks in order, joined by line breaks, and the others are counted as omitted |
| ChatImport.StartsIff | apps/desktop/src/conversations.ts:82-103 | without a current node the branch starts from the only node that is nobody's parent |
| ChatImport.ChatGpt | apps/desktop/src/conversations.ts:72-149 | an import succeeds if and only if everything it needs holds; it then holds the visible, non-blank messages of the chain, root first, and counts every node off it as omitted |
| HistoryContract.BuildHistory | apps/desktop/src/App.tsx:115-148 | the desktop sends the longest suffix of its log that may be sent |
| HistoryContract.TotalIs | apps/desktop/src/App.tsx:115-148 | the bytes of a history are those of every text, and of the encoded files of every entry that has some |
| HistoryContract.ChatMessages | crates/omni-core/src/http.rs:1342-1389 | the core accepts exactly alternating, non-blank, bounded histories |
| HistoryContract.RenderedIs | crates/omni-core/src/http.rs:1342-1389 | every entry becomes one message with its role, text and files, in order |
| HistoryContract.BuiltHistoryIsAccepted | crates/omni-core/src/http.rs:1342-1389 | the history the desktop builds is always accepted, and no longer suffix would be |
| HistoryContract.HistoryFilesSurvive | crates/omni-core/src/policy.rs:395-452 | the files of a history come back, all and in order, when its messages are prepared |
| Rotation.Supervisor.Rotate | infra/vpn/client.py:141-169 | the requests sent, and the file: it turns to the new identity exactly when its commit was acknowledged, and otherwise keeps both |
| Rotation.Disk.Persist | infra/vpn/client.py:30-43 | wherever writing, synchronising and renaming stops, a crash leaves the old configuration or the new one, whole; and only the new one when it is done |
| Rotation.PersistIsOneStep | infra/vpn/client.py:30-43 | a crash inside the file replacement leaves what a crash just before or just after the whole step leaves |
| Rotation.RotateIsARun | infra/vpn/client.py:141-169 | a rotation is a run of the client's steps in the state machine, with the same file and the same requests |
| Rotation.ServerStepKeeps | crates/omni-vpn/src/server.rs:299-379 | whatever is delivered, expires or crashes, the server stays with a key of the client's file |
| Rotation.ServerChanges | crates/omni-vpn/src/server.rs:299-379 | the committed identity changes only by a commit of the prepared one with a handshake, or back to what was saved; nothing is prepared while a previous key is accepted; and an acknowledgement follows the save |
| Rotation.ClientStepKeeps | infra/vpn/client.py:141-169 | every step of the client, and a crash at any of them, keeps that |
| Rotation.ClientWaits | infra/vpn/client.py:141-169 | the tunnel opens only after an acknowledged preparation or commit of the pending identity, and the file is replaced only after its acknowledged commit; no other identity is ever requested |
| Rotation.FileChanges | infra/vpn/client.py:141-169 | the file gives up its identity only for the pending one, when the server has it in memory and on disk |
| Rotation.CustodyHolds | infra/vpn/client.py:141-169 | in every state reachable from enrolment the file holds the key the server has committed, as current or pending, and the server's epoch is the file's or one more |
| Rotation.IdentityAdvances | crates/omni-vpn/src/server.rs:349-368 | the durable identity never goes back and an epoch never has two keys |
| Rotation.OpenIsNotStale | crates/omni-vpn/src/server.rs:323-323 | outside a rotation the two sides agree, so opening at the file's epoch is accepted, and at any other it is refused as stale |
| Rotation.RestartCanComplete | infra/vpn/client.py:141-169 | from every reachable state with a rotation under way, a restart can complete it |

## Left out

- Encryption, key derivation, signatures and hashing: a restore starts from the decrypted rows; replay compares a hash that is any function.
- Floating point: rates, costs and noise are reals, so the checks for finite values always pass.
- Regular expressions, JSON and URL parsing, trimming and case folding: abstract functions; a literal rule is one that matches exactly the texts that contain its literal.
- Control characters above U+007F in attachment names and texts, and lower-casing of non-ASCII extensions.
- The contents of audit rows outside `Recovery.dfy` and `Restore.dfy` (the runs of the conversations keep their times), captures, queries and pagination, retention settings, provider profiles.
- The context check inside a saved conversation: its outcome is the parameter `authorised`, which a revoked grant makes false.
- Expiry is compared as times, where the code compares RFC 3339 texts of one format.
- HTTP routing, headers, authentication of principals (a boolean of the step), timeouts (a way a stream ends), and poisoned or locked vaults (the parameter `available`).
- The Claude and neutral import formats, titles, and the outer list of conversations: they add no walk.
- Privacy accounting across cloned installations, which the project's documentation disclaims too: the budget is proved for each installation.
- The sampling of the noise and its privacy map, and 64-bit overflow of the local counts.
- Tunnels, routes, timers and signatures of the rotation, and the check that another client does not use the same key. The supervisor loop of the client is modelled as steps, so that it can crash between any two.
- Replies and requests of the rotation may be repeated without limit, although nonces forbid it: the proofs do not need them.
- Clocks that go back: time only advances, by any amount.
- The order of groups in the usage summary.
- Recovery.Load: does not model that SQLite coerces a cell of the wrong type, or takes a NULL in a text primary key, where the archive was not written by an export.
- Restore.Vault.RestoreArchive: as `Recovery.Load`, of which it is made.
- Journal.Ledger.Start: takes the verdict on names, destination and estimates as one boolean, because they only bound texts and repeat a division.
- UsageStatistics.JournalUsage: leaves out the context comparison with its own overflow, and the selection of the period; the totals are of any list of records.
- Rotation.Supervisor.Control: has its replies from outside and leaves out the checks of an acknowledgement's signature, fields and expiry; a reply that fails them is `Failed`.
