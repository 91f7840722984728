# App Studio assistant: model and proofs

The App Studio assistant keeps an append-only conversation log for each thread and turns it
into model input that a provider accepts. This project models that path and the algorithms
around it, and proves what they promise for every input or every run.

| module | file of the repository | what it models |
|---|---|---|
| `Utf8Range` | `api/assistant_attachment_model.go` | the paged `read_attachment` reader, over UTF-8 as in section 4 of RFC 3629 |
| `ResponsesStream` | `api/assistant_eino_responses_stream.go` | the byte-level observer of a Responses event stream and its table of encrypted reasoning |
| `ToolCallPairing` | `api/assistant_conversation.go` | the repair pass that makes tool calls replayable |
| `ConversationProjection` | `api/assistant_conversation.go` | the paged projection of the durable log, compaction checkpoints and failed starts |
| `UsageLedger` | `api/assistant_audit.go` | token and size totals behind a bounded de-duplication window |
| `ContextRecovery` | `api/assistant_eino_compaction.go` | eviction of the oldest history and the retry loops |
| `CompactionWindows` | `api/assistant_eino_compaction.go` | the window and attempt state machine |
| `CompactionRetention` | `api/assistant_eino_compaction.go` | the budgeted walk over recent user messages |
| `AttachmentMessages` | `api/assistant_eino_model.go` | durable chat messages to model messages and back, and the anchoring validator |
| `AttachmentLifecycle` | `api/assistant_eino_lifecycle.go`, `api/assistant_attachment_model.go` | stripping, expanding and rehydrating attachments around a provider call |
| `AttachmentAdmission` | `api/assistant_attachments.go` | the optimistic-concurrency loop that adopts a Project |
| `ActionGrants` | `api/action_grants.go` | merging provider action grants |
| `ReadDeduplication` | `api/assistant_eino_engine.go` | dropping superseded copies of complete file reads |
| `ReadReceipts` | `api/assistant_eino_read_file_projection.go` | reading receipts of file reads, rendering them within a bound, and projecting the history twice |
| `CommandSettlement` | `api/assistant_audit.go` | late receipts of interrupted commands |
| `ContentParts` | `api/assistant_content_parts.go`, `api/assistant_context_resources.go` | the canonical content of a turn |

Beside these stand modules that say the same once more on the fields and indices of the
inputs alone, with their own definitions, so that a helper the program and its
specification share is pinned from outside:

| module | reads |
|---|---|
| `RuneReading` | `Utf8Range`: valid bytes are encoded scalar values |
| `ResponsesReading` | `ResponsesStream`: what a server sends, and what is recorded of it |
| `ToolCallBlocks` | `ToolCallPairing`: the repaired list position by position |
| `ProjectionReading` | `ConversationProjection`: the log by positions, other threads, errors |
| `UsageReading` | `UsageLedger`: each total as a sum of integers |
| `RetentionReading` | `CompactionRetention`: charges, cuts and the rest of the budget |
| `MessageReading` | `AttachmentMessages`: both conversions message by message |
| `InputReading` | `AttachmentLifecycle`: the whole model input of a turn |
| `GrantReading` | `ActionGrants`: the merged grants on stored and declared fields |
| `ReceiptReading` | `ReadDeduplication`, `ReadReceipts`: trust, replacement and rendering |
| `SettlementReading` | `CommandSettlement`: the settled rows field by field |
| `TurnReading` | `ContentParts`: resources and parts as they were sent |

`Support`, `Text`, `Chat` and `ModelMessages` hold what several modules share. A loop of the
program is a method with a loop here, proved equal to a specification function; the
properties are then lemmas about that function. Objects whose methods update fields are
classes. Facts about calls the model cannot see (JSON, the attachment SDK, the catalogue
behind grant verification, the key of a resource) enter as function parameters, and the
little that is assumed of them is a predicate named `Sound`, `Faithful` or `Answers` in the module.

## Model

| member | source | states |
|---|---|---|
| `Utf8Range.AlignRange` | api/assistant_attachment_model.go:843-861 | the range loops compute the aligned range; a page that is returned is valid UTF-8 taken from the bytes fetched |
| `Utf8Range.ReadAttachmentTool` | api/assistant_attachment_model.go:788-837 | the tool call, argument checks and lookahead included, returns the page of its specification and only valid UTF-8 |
| `Utf8Range.PageFromBoundary` | api/assistant_attachment_model.go:811-836 | from a rune boundary a page never fails, ends at the first boundary at least `limit` bytes on, is at most limit + 3 bytes, and is complete exactly at the end of the file |
| `Utf8Range.PageFromAnywhere` | api/assistant_attachment_model.go:843-861 | from any offset the call gives the aligned page between two boundaries, or fails; it fails exactly when the lookahead is used up before a boundary |
| `Utf8Range.OffsetInsideRuneCanFail` | api/assistant_attachment_model.go:843-861 | a concrete file and offset inside a rune for which the call fails |
| `Utf8Range.ZeroLimitNeverAdvances` | api/assistant_attachment_model.go:801-836 | limit 0 passes the argument check and gives an empty page at the same offset for ever |
| `Utf8Range.SweepReassembles` | api/assistant_attachment_model.go:811-836 | following the next offsets from any boundary ends without error, with valid pages of at most limit + 3 bytes that concatenate to the rest of the file, in at most ceil(rest / limit) calls |
| `Utf8Range.WholeFile` | api/assistant_attachment_model.go:811-836 | the same from offset 0: the pages are exactly the file |
| `Utf8Range.BoundaryIsRuneStart` | api/assistant_attachment_model.go:843-861 | in valid UTF-8 a boundary is exactly a byte that is no continuation byte, so skipping continuation bytes is aligning |
| `RuneReading.ValidExactly` | api/assistant_attachment_model.go:843-861 | bytes count as valid UTF-8 if and only if they are the encoding of some sequence of Unicode scalar values, six bits to each continuation byte |
| `ResponsesStream.StreamMetadata.Consume` | api/assistant_eino_responses_stream.go:82-119 | the line splitter over one chunk computes the specified state, error included |
| `ResponsesStream.StreamMetadata.CaptureEvent` | api/assistant_eino_responses_stream.go:121-184 | one event updates the table, its size, the failure and the error as specified |
| `ResponsesStream.StreamMetadata.Restore` | api/assistant_eino_responses_stream.go:195-218 | after an error in the stream it reports that and leaves the message alone; otherwise the blocks become the restored blocks, and it fails exactly when they hold a tool call and a reasoning block with an empty signature |
| `ResponsesStream.ChunkingInvisible` | api/assistant_eino_responses_stream.go:82-119 | any split of a byte stream leaves the same error, table, size and failure as the stream fed whole or byte by byte |
| `ResponsesStream.StreamMeaning` | api/assistant_eino_responses_stream.go:82-184 | without an error, the observer holds what the declarative reading says: split at LF, strip one CR, join data lines, emit at a blank line; each ID once, first-seen order, latest content |
| `ResponsesStream.ConsumedValid` | api/assistant_eino_responses_stream.go:94-183 | buffered bytes and table size stay within the limit, the size is the sum over the rows, and IDs stay distinct |
| `ResponsesStream.GivesUpExactly` | api/assistant_eino_responses_stream.go:94-183 | the next byte makes the observer give up exactly when it does not fit the buffer, or when it completes an event and some item of it makes the table of all items announced so far, each ID with its latest content, larger than the limit |
| `ResponsesStream.SurvivesExactly` | api/assistant_eino_responses_stream.go:82-184 | a stream is read to its end exactly when none of its bytes meets that condition |
| `ResponsesReading.SentIsRead` | api/assistant_eino_responses_stream.go:82-119 | events written as data lines, comments and blank lines, with LF or CRLF, are read back as exactly the data that was sent |
| `ResponsesReading.StreamIsRecorded` | api/assistant_eino_responses_stream.go:121-184 | without an error the table has one row for each ID of a reasoning item with content in `item` of a done event or `output` of a completed one, in the order of first mention, with the content last announced, and nothing else; failure and size likewise from the decoded fields |
| `ResponsesReading.SentIsRecorded` | api/assistant_eino_responses_stream.go:82-184 | both together: a stream of sent events, in any chunks, leaves the record of exactly those events |
| `ResponsesStream.GivingUpIsFinal` | api/assistant_eino_responses_stream.go:82-93 | after an error no further chunk changes the state |
| `ResponsesStream.RestoredCarriesTable` | api/assistant_eino_responses_stream.go:195-218 | every row of the table is written to its block, other blocks keep theirs, and nothing but reasoning content is touched |
| `ResponsesStream.RestoreIdempotent` | api/assistant_eino_responses_stream.go:195-218 | restoring twice is restoring once |
| `ResponsesReading.RestoredAdds` | api/assistant_eino_responses_stream.go:195-218 | with distinct IDs, every block added behind those of the message is a reasoning block holding one row of the table |
| `ToolCallPairing.Normalize` | api/assistant_conversation.go:145-217 | the index loops with the results and answered maps compute the repaired list |
| `ToolCallPairing.NormalizedMeaning` | api/assistant_conversation.go:145-217 | each assistant message with calls is followed at once by one result per call in call order and no other result occurs; each non-blank ID of the input occurs once and has its first recorded result or the placeholder; all other messages keep content and order |
| `ToolCallPairing.NormalizedIdempotent` | api/assistant_conversation.go:145-217 | a repaired list is left as it is |
| `ToolCallBlocks.NormalizedClosedForm` | api/assistant_conversation.go:145-217 | the repaired list is one block per position: a run of requests becomes one message with all its new calls and the joined prose, followed by one answer per call; tool results go, every other message stays as it is |
| `ToolCallBlocks.AnsweredByFirst` | api/assistant_conversation.go:145-157 | every tool message of the repaired list is the one at the first index that answers its trimmed ID; without any it has role "tool", the fixed unsettled text and the name of the call |
| `ConversationProjection.LoadProjection` | api/assistant_conversation.go:379-508 | for every page size the paged loop computes the same fold over the log |
| `ConversationProjection.ProjectionClosedForm` | api/assistant_conversation.go:379-508 | the messages are the base of the last applied compaction and then exactly the items every later applied compaction spares and no failed start removed; tail, checkpoint and markers likewise |
| `ConversationProjection.ProjectionSucceeds` | api/assistant_conversation.go:396-497 | the projection fails exactly when an item of the log cannot be read |
| `ConversationProjection.InertAnywhere` | api/assistant_conversation.go:396-497 | budget items and checkpoints of other threads can be dropped anywhere without effect on messages, tail or checkpoint |
| `ConversationProjection.ItemShown` | api/assistant_conversation.go:379-508 | the message of an ordinary item is among the projected messages exactly when every later applied compaction spares it and no failed start removed it |
| `ConversationProjection.TombstoneAfterMessage` | api/assistant_conversation.go:275-291 | a failed-start marker recorded behind its message always removes it from the projected messages |
| `ConversationProjection.TombstoneBeforeMessage` | api/assistant_conversation.go:275-291 | with a marker recorded in front of it, a message is among the projected messages exactly when no later item makes another removal pass |
| `ConversationProjection.TailIsSuffix` | api/assistant_conversation.go:428-497 | the tail since the checkpoint is the end of the projected messages, up to the cloning of survivors |
| `ProjectionReading.OtherThreadsInvisible` | api/assistant_conversation.go:416-425 | for a thread, the projection of a log and that of the log without the compactions of other threads agree in everything but the last sequence number |
| `ProjectionReading.ProjectionByPosition` | api/assistant_conversation.go:379-508 | the projected messages are what the last compaction of the thread put in front, its history or its legacy summary, and then clones of the ordinary items, at exactly the positions that survive every later compaction and failed start; the checkpoint is that compaction |
| `ProjectionReading.LoadFailsExactly` | api/assistant_conversation.go:396-497 | the load fails with an error if and only if the first unreadable item of the log has it: an undecodable item, or an undecodable, unsupported or incomplete compaction of the thread |
| `ProjectionReading.SummaryReadBack` | api/assistant_conversation.go:440-465 | the text of a legacy summary is read back from the message it was stored as |
| `ConversationProjection.MergeLegacyConversation` | api/assistant_conversation.go:525-547 | the counting loop appends what is missing from the legacy messages |
| `ConversationProjection.MergeCounts` | api/assistant_conversation.go:525-547 | each piece of prose is supplied exactly as often as it is missing |
| `ProjectionReading.MergeSuppliesMissing` | api/assistant_conversation.go:525-547 | by positions: a recent user or assistant message is put in front exactly when it occurs among the recent ones before it at least as often as in the conversation, and those are put in front in order |
| `UsageLedger.Recorder.RecordUsage` | api/assistant_audit.go:1000-1059 | the recorder's maps, floor and totals become those of the ledger specification, and the row of the call gets the usage exactly when the ledger admits it |
| `UsageLedger.Recorder.RecordResult` | api/assistant_audit.go:935-984 | the newest open row of the ordinal gets the outcome and the admitted usage, and the ledger counts the call whether or not a row is left |
| `UsageLedger.Recorder.TrimUsageDedupe` | api/assistant_audit.go:1061-1084 | eviction of the lowest ordinals until at most 64 remain |
| `UsageLedger.Recorder.RecordModelCall` | api/assistant_audit.go:558-611 | appending a row and dropping the oldest keeps the totals of the book |
| `UsageLedger.Recorder.UpdateInputSize` | api/assistant_audit.go:619-650 | the last row of an ordinal is resized and the totals move with it |
| `UsageLedger.LedgerTruth` | api/assistant_audit.go:1000-1084 | after any order and repetition of callbacks the token totals are the sum over ordinals of the last usage accepted, the missing count is the number of ordinals without usage, and the maps are disjoint, above the floor and at most 64 together |
| `UsageLedger.AcceptedExactly` | api/assistant_audit.go:1000-1020 | a callback is accepted if and only if its ordinal is positive and at most 64 of the ordinals seen so far are as new |
| `UsageLedger.NothingLostExactly` | api/assistant_audit.go:1000-1084 | every callback counts if and only if every one is that recent when it comes |
| `UsageLedger.BookBalances` | api/assistant_audit.go:558-672 | over any run of recorded, resized and answered calls, total calls are retained plus dropped, the retained rows are the newest 32 with all that was observed and answered, and byte totals are the sum of the final sizes of all rows ever recorded |
| `UsageReading.TotalsAreSums` | api/assistant_audit.go:1023-1059 | prompt, cached, completion and total tokens are each the integer sum, over the ordinals with an accepted report, of what their last accepted report says; the missing count is the number of the other ordinals |
| `UsageReading.AcceptedByCount` | api/assistant_audit.go:1000-1020 | a callback is accepted if and only if its ordinal is positive and at most 64 of the ordinals accepted so far are at least as large |
| `UsageReading.BookFollows` | api/assistant_audit.go:558-672 | each recorded, resized or answered call changes the rows and totals field by field as stated, with at most 32 rows, and the byte totals stay the integer sums over all rows ever recorded |
| `ContextRecovery.EvictOldestModelHistory` | api/assistant_eino_compaction.go:441-494 | the loops find the segment to cut and cut it, or report that nothing may go |
| `ContextRecovery.EvictsExactly` | api/assistant_eino_compaction.go:441-494 | ordinary recovery evicts if and only if a message that is neither nil nor system stands behind the whole first segment after the leading system messages, compaction if and only if anything but its prompt stands behind those; what goes is exactly that segment: one message, or a tool request with the results directly behind it |
| `ContextRecovery.Generate` | api/assistant_eino_compaction.go:73-102 | the retry loop makes the calls and reaches the verdict of its specification |
| `ContextRecovery.EvictionKeeps` | api/assistant_eino_compaction.go:441-494 | a retry keeps all system messages and a strictly shorter suffix of the others |
| `ContextRecovery.EvictionKeepsNewest` | api/assistant_eino_compaction.go:441-494 | ordinary recovery keeps the newest non-system message, compaction its prompt |
| `ContextRecovery.EvictionKeepsBlocks` | api/assistant_eino_compaction.go:468-494 | in any input, a tool request answered directly and in full either stands unchanged, with all that follows it, or is gone with all its answers |
| `ContextRecovery.EvictionKeepsPairing` | api/assistant_eino_compaction.go:468-494 | an input in which every request is answered and no result stands elsewhere stays so |
| `ContextRecovery.RecoveryRuns` | api/assistant_eino_compaction.go:73-132 | on any run of overflows at most four calls are made, each loses exactly the oldest segment of the one before and is a reduction of every earlier one in all the senses above, so no block of calls and results is ever split |
| `ContextRecovery.GivesUpOnlyWhenStuck` | api/assistant_eino_compaction.go:73-132 | the loop gives up only on an overflow, after four calls or when no message stands behind the first segment that must stay behind it, and passes every other outcome through |
| `CompactionWindows.Runtime.BeginAttempt` | api/assistant_eino_compaction.go:577-610 | the fields after begin, whatever the audit answers |
| `CompactionWindows.Runtime.CompleteAttempt` | api/assistant_eino_compaction.go:624-653 | the fields after complete |
| `CompactionWindows.Runtime.FailAttempt` | api/assistant_eino_compaction.go:655-680 | the fields after fail |
| `CompactionWindows.CompletedAttemptsChain` | api/assistant_eino_compaction.go:559-680 | over any run the completed attempts form one chain by previous window, with one first window and rising numbers |
| `CompactionWindows.PersistedMayLinkPast` | api/assistant_eino_compaction.go:275-295 | a run after which the stored checkpoints form no such chain |
| `CompactionWindows.StoredChainExactly` | api/assistant_eino_compaction.go:275-295 | with fresh window IDs, each attempt stored at most once and completed only when stored last, the stored checkpoints form one chain, by previous window with one first window and rising numbers, if and only if every one but the last was completed |
| `CompactionRetention.RecentUserMessages` | api/assistant_eino_compaction.go:848-914 | the backward walk and the rendering compute the retained messages |
| `CompactionRetention.RetentionIsSound` | api/assistant_eino_compaction.go:848-914 | the retained messages are the newest eligible ones in order, only the oldest may be cut, placeholders that are kept follow their own message as a whole run, and the charge stays within the budget |
| `CompactionRetention.RetainedExactly` | api/assistant_eino_compaction.go:858-911 | a message is kept if and only if it is eligible and the newer ones left some budget; it is kept whole if its trimmed text fits behind its images, and its placeholders, all of them, if and only if they are readable and cost less than what remained |
| `CompactionRetention.DroppedExactly` | api/assistant_eino_compaction.go:858-911 | charges, tokens lost on unreadable placeholders and what is left make up the budget; an eligible message is dropped only when nothing is left, and with less charged than the budget exactly when tokens were lost |
| `CompactionRetention.LosesExactly` | api/assistant_eino_compaction.go:875-892 | no budget loses a token if and only if no eligible message has a placeholder with an image behind the newest unreadable one of its run |
| `CompactionRetention.DroppedEarlyExactly` | api/assistant_eino_compaction.go:858-911 | some budget drops a given eligible message with less than the budget charged if and only if a newer eligible message has such a run |
| `CompactionRetention.ReadableLosesNothing` | api/assistant_eino_compaction.go:875-892 | readable placeholders lose no tokens |
| `CompactionRetention.UnreadableCostsBudget` | api/assistant_eino_compaction.go:875-892 | images read before an unreadable placeholder are charged and dropped: a list in which an older message loses its place with one token charged out of 4097 |
| `CompactionRetention.PaddingIsNotCharged` | api/assistant_eino_compaction.go:870-905 | on a budget of one token a padded message of any size is kept whole: the charge is for the trimmed text |
| `CompactionRetention.PaddingExactly` | api/assistant_eino_compaction.go:870-905 | with readable images, what is kept stays within every budget if and only if no eligible message carries padding that costs a token |
| `CompactionRetention.CompactedRequestFits` | api/assistant_eino_compaction.go:835-846 | fixed parts, charged messages and the reserve fit the window, or nothing is retained |
| `RetentionReading.RetainedByFields` | api/assistant_eino_compaction.go:848-914 | message by message: a user message of its own words is kept while budget is left, whole or as a prefix of exactly the tokens that are left, marker included |
| `RetentionReading.LeftByFields` | api/assistant_eino_compaction.go:858-911 | from the newest message backwards: own words take a token for every four trimmed characters and, if that can be paid, 4096 for each image of the placeholders behind them that is read back before an unreadable one; nothing else takes anything |
| `RetentionReading.BudgetIsTheRest` | api/assistant_eino_compaction.go:835-846 | the budget is what the fixed parts and the reserve leave of the window |
| `AttachmentMessages.MessagesToChat` | api/assistant_eino_model.go:481-524 | the loop computes the durable projection of a model list |
| `AttachmentMessages.ChatMessagesToModel` | api/assistant_eino_model.go:526-565 | the loop computes the model list, or the first error |
| `AttachmentMessages.AppendReceipts` | api/assistant_eino_model.go:567-584 | receipts with a new ID are appended in order |
| `AttachmentMessages.ValidateHistorical` | api/assistant_eino_lifecycle.go:332-349 | the validator accepts exactly the lists in which every placeholder is readable and anchored to a user message |
| `AttachmentMessages.ChatRoundTrip` | api/assistant_eino_model.go:481-565 | canonical chat messages survive the way to the model and back |
| `AttachmentMessages.ModelRoundTrip` | api/assistant_eino_model.go:481-565 | an anchored, expanded model list with distinct receipts per run survives the way to chat and back |
| `AttachmentMessages.ProducedIsAnchored` | api/assistant_eino_model.go:526-565 | every produced list passes the validator |
| `MessageReading.ChatByPosition` | api/assistant_eino_model.go:481-524 | the durable chat has one message for each plain model message, in order, with its fields; a user message carries the first receipt of each ID that the placeholders up to the next plain message record readably |
| `MessageReading.ModelByFields` | api/assistant_eino_model.go:526-565 | each chat message becomes itself and, behind a user message, one placeholder for the first receipt of each ID; the conversion fails exactly at the first unknown role or unreadable receipt, with that error |
| `MessageReading.AnchoredByFields` | api/assistant_eino_lifecycle.go:332-349 | the validator accepts if and only if every placeholder has readable receipts and stands behind a user message with only placeholders between |
| `AttachmentLifecycle.WithoutAttachments` | api/assistant_eino_lifecycle.go:431-466 | stripping as specified |
| `AttachmentLifecycle.ExpandHistorical` | api/assistant_eino_lifecycle.go:222-241 | one placeholder per receipt, or the first unreadable one as error |
| `AttachmentLifecycle.RehydrateHistorical` | api/assistant_eino_lifecycle.go:243-330 | each placeholder is filled as specified, and the IDs of earlier turns are returned |
| `AttachmentLifecycle.SelectReceipts` | api/assistant_attachment_model.go:519-553 | the counting loop selects the receipts of the turn |
| `AttachmentLifecycle.MessagesExcluding` | api/assistant_attachment_model.go:668-751 | the messages of the current turn, or the first error |
| `AttachmentLifecycle.ModelState.Rehydrate` | api/assistant_eino_lifecycle.go:184-215 | the state becomes the whole new model input, or stays untouched on any error |
| `AttachmentLifecycle.ModelState.AfterModel` | api/assistant_eino_lifecycle.go:419-429 | the state is stripped |
| `AttachmentLifecycle.RunKeepsChat` | api/assistant_eino_lifecycle.go:184-466 | no composition of strip, expand and rehydrate changes the durable projection |
| `AttachmentLifecycle.StrippedInput` | api/assistant_eino_lifecycle.go:184-466 | after a provider call the stripped state depends on nothing the store answered |
| `AttachmentLifecycle.EarlierInputsLeaveNoTrace` | api/assistant_eino_lifecycle.go:184-466 | an input built on an earlier input, stripped or not, is the input built on the original messages, whatever turns and stores they used |
| `AttachmentLifecycle.EachCurrentImageOnce` | api/assistant_attachment_model.go:668-751 | each image of the current turn is in exactly one attachment message, with the caption of its receipt and exactly the verified bytes the store gave for it; no other message that names its ID has an image part |
| `AttachmentLifecycle.TallyMeaning` | api/assistant_attachment_model.go:519-553 | selected receipts are normalised and distinct, and their images within both caps |
| `InputReading.StrippedByFields` | api/assistant_eino_lifecycle.go:431-466 | message by message: a placeholder keeps its marks and gets the mention of its first text or file, transient messages go, others stay |
| `InputReading.InputByFields` | api/assistant_eino_lifecycle.go:184-330 | the model input is built if and only if every placeholder and every attachment of the turn can be read and verified within its bounds and caps; it then is, for each message, its refilled placeholders, or itself, followed by one message for each attachment of the turn, with mention, inline text or caption and image as its kind and size demand |
| `AttachmentAdmission.EnsureAdmission` | api/assistant_attachments.go:347-419 | under any interference: at most three writes, each based on the object it replaces, allowed by its annotations and changing only the two annotations and the finalizer; success only with a re-read, ready object; undisturbed, the identity check alone decides |
| `AttachmentAdmission.AdoptableExactly` | api/assistant_attachments.go:421-445 | a Project can be adopted if and only if it has the expected name and an ID, is not being deleted, and names no other tenant; which error is reported is stated as exactly |
| `AttachmentAdmission.AdmittedByFields` | api/assistant_attachments.go:347-419 | what was admitted was seen by the last read, has an ID, the finalizer and both annotations of the tenant, and is not being deleted |
| `AttachmentAdmission.GuardedByFields` | api/assistant_attachments.go:369-394 | every guarded write raises the version, sets the two annotations and adds the finalizer where it is missing, changes nothing else, and starts from an object that the tenant may adopt |
| `AttachmentAdmission.NotReadyNeedsChange` | api/assistant_attachments.go:369-394 | an admissible object that is not ready does need a change, so the branch without one is dead |
| `AttachmentAdmission.AdoptedIsReady` | api/assistant_attachments.go:369-394 | the written object is ready and admissible, and adopting it again changes nothing |
| `AttachmentAdmission.FirstOwnerStays` | api/assistant_attachments.go:421-445 | however many tenants write to one Project under this rule, the first admitted stays its only owner and the rest of the object is untouched |
| `ActionGrants.NormalizeActions` | api/integrations.go:598-626 | the loop computes the normalised declaration or the first error |
| `ActionGrants.NormalIsDeclaration` | api/integrations.go:598-626 | a normalised declaration has different keys, trimmed digests and no audit |
| `GrantReading.NormalByFields` | api/integrations.go:598-626 | a declaration is taken if and only if every action parses, every active one has a digest and no two have the same coordinates; it then is each action in order, parsed, digest trimmed and without audit |
| `ActionGrants.IsRestrictionOnly` | api/action_grants.go:150-185 | true exactly when nothing expands and something is removed or revoked |
| `ActionGrants.MergeActions` | api/action_grants.go:33-144 | the planning loop, verification and the loop over its answers compute the merge |
| `ActionGrants.RequiringAuthorization` | api/action_grants.go:192-214 | the loops compute the grants that need authorisation |
| `ActionGrants.RequiringMeaning` | api/action_grants.go:192-214 | a grant needs authorisation exactly when it is active and new, reactivated or changed |
| `GrantReading.RequiringByFields` | api/action_grants.go:192-214 | a merged grant needs authorisation if and only if it is active and the last complete stored grant with its key is missing, revoked or has another digest |
| `ActionGrants.MergedFollows` | api/action_grants.go:33-144 | one grant per declared action: the stored record exactly if unchanged or already revoked, the record revoked by the caller, or the answer of this call's verification |
| `GrantReading.MergedByFields` | api/action_grants.go:33-144 | the merge is taken if and only if the declaration and the stored grants are well formed, every revocation names a stored grant that is revoked already or by a known caller, and verification answers for exactly the active actions unless the patch only restricts; each merged grant is then stated field by field |
| `GrantReading.MergeRefused` | api/action_grants.go:33-144 | which error a refused merge has: that of the first bad declaration, else of the first bad stored grant, else of the first revocation of nothing or by nobody, else of verification |
| `ActionGrants.RestrictionNeedsNobody` | api/action_grants.go:105-112 | a restriction asks verification nothing, and nothing in its result needs authorisation |
| `ActionGrants.ExpansionWasVerified` | api/action_grants.go:33-144 | every grant that needs authorisation was verified in the same call, with the same name, version and digest |
| `ActionGrants.EveryActiveGrantVerified` | api/action_grants.go:113-144 | in any other patch every active merged grant was verified in this call |
| `ReadDeduplication.CollectCallNames` | api/assistant_eino_engine.go:1388-1409 | the loops compute call names and ambiguous IDs |
| `ReadDeduplication.DuplicateResults` | api/assistant_eino_engine.go:1411-1451 | exactly the results are marked that a later copy in their group supersedes, in groups whose calls are distinct, each with the call ID of the last |
| `ReceiptReading.TrustedByFields` | api/assistant_eino_engine.go:1453-1468 | a result is trusted if and only if every call with its ID is one of read_file, or, when there is no such call, it has that name itself |
| `ReceiptReading.DuplicatesByFields` | api/assistant_eino_engine.go:1388-1451 | a result is replaced if and only if it is a trusted complete read, a later one shows the same, and all that show it answer different calls; it then names the last |
| `ReadDeduplication.ReplacedNamesKept` | api/assistant_eino_engine.go:1411-1451 | each replaced result names a later result with an equal receipt that stays |
| `ReadDeduplication.SecondPassReplacesNothing` | api/assistant_eino_engine.go:1340-1344 | once the superseded results are notices, a second pass replaces nothing |
| `ReadDeduplication.SecondPassExactly` | api/assistant_eino_engine.go:1338-1354 | over the whole loop, in which every result is then rendered within a bound, a second pass replaces exactly the results that stay although a later one shows the same key, when all that show it answer different calls; then one of them became a complete read by being rendered, or the calls of its group had clashed |
| `ReadDeduplication.SecondPassNeedsCompletion` | api/assistant_eino_engine.go:1338-1354 | with distinct calls a second pass replaces something if and only if a result became a complete read by being rendered and shows the key of another that stays |
| `ReadDeduplication.PayloadIdempotentExactly` | api/assistant_eino_engine.go:1314-1358 | projecting the history a second time changes nothing if and only if nothing is replaced by the second pass |
| `ReadReceipts.ProjectRead` | api/assistant_eino_read_file_projection.go:77-137 | the branches compute the bounded rendering of a read result, or none |
| `ReadReceipts.ClipToFit` | api/assistant_eino_read_file_projection.go:113-137 | the binary search keeps the last clipped text that fits |
| `ReceiptReading.RenderedByFields` | api/assistant_eino_read_file_projection.go:77-137 | a trusted receipt is shown whole when that fits, else with a shorter proposal, else with some number of its characters that fits while one more would not; other texts stay or are cut |
| `ReceiptReading.DecodesExactly` | api/assistant_eino_read_file_projection.go:137-222 | a receipt is decoded exactly as the read its fields report, defaults included, if that read is a whole file, a page or a missing file |
| `ReceiptReading.KeyExactly` | api/assistant_eino_engine.go:1470-1529 | a text has a key exactly when it is a receipt or a literal source with the fields of a complete read, and the key has them |
| `ReadReceipts.ConversationPayload` | api/assistant_eino_engine.go:1314-1358 | the loop replaces the superseded results by notices and renders every tool result |
| `ReceiptReading.PayloadByFields` | api/assistant_eino_engine.go:1314-1358 | message by message: only the content of tool results changes, a replaced one becomes the notice of its path, and each is rendered as a read exactly when it is trusted |
| `ReadReceipts.RenderKeepsKey` | api/assistant_eino_read_file_projection.go:77-230 | rendering leaves the key of a complete read as it is or takes it away, and adds one only where there was none |
| `ReadReceipts.CompletesExactly` | api/assistant_eino_read_file_projection.go:160-167 | a trusted result gains a key by being rendered if and only if it is a receipt of a whole text that leaves offset or limit to the default and fits, or an overlong text that reads as whole source when cut |
| `ReadReceipts.RenderTwice` | api/assistant_eino_read_file_projection.go:77-137 | what has been rendered is not rendered differently again |
| `ReadReceipts.ProjectedTwiceExactly` | api/assistant_eino_engine.go:1314-1358 | with distinct calls, projecting the history again changes nothing unless exactly this occurs: a receipt was completed by its rendering and shows the same read as another result that stays |
| `ReadReceipts.DefaultsAreReplacedLater` | api/assistant_eino_engine.go:1470-1529 | two equal receipts without offset and limit, answering different calls: the first pass leaves both and the second replaces the first |
| `CommandSettlement.SettleExec` | api/assistant_audit.go:422-486 | the update computes the settled audit or refuses the receipt |
| `CommandSettlement.SettlementMeaning` | api/assistant_audit.go:422-486 | an accepted receipt changes only its own open row, adds at most one row, and only if its call has none and there is room |
| `SettlementReading.SettledByFields` | api/assistant_audit.go:422-486 | the settled audit on its fields: which row is met first, when it is written, left or refused, what each of its fields becomes, and when a row is added |
| `CommandSettlement.SettlementIsMonotone` | api/assistant_audit.go:422-498 | over any run of receipts rows keep place and call, move only from running to unobserved to final, are frozen once final, and stay within 128 |
| `CommandSettlement.ReplayExactly` | api/assistant_audit.go:439-451 | a replayed receipt gives the same audit, except exactly one written from an untrimmed status that is no unobserved result: that one is refused |
| `CommandSettlement.UntrimmedReplayIsRefused` | api/assistant_audit.go:439-455 | a concrete receipt that is written and then refused |
| `ContentParts.NormalizeResources` | api/assistant_context_resources.go:54-90 | the loop computes the sorted resources without duplicates, or an error |
| `ContentParts.CanonicalMeaning` | api/assistant_context_resources.go:54-90 | canonical resources are their own canonical form, strictly ascending, and exactly the first spelling listed for each key |
| `TurnReading.ResourcesByFields` | api/assistant_context_resources.go:54-90 | the resources are taken if and only if each has a valid reference, provider and key in its trimmed fields and at most eight keys are left; they are then the first spelling of each key, in the order of the keys |
| `ContentParts.IndexOfSelected` | api/assistant_content_parts.go:530-556 | each raw index leads to the resource that was listed first under its key |
| `ContentParts.ResourcePartsKeepTheirResource` | api/assistant_content_parts.go:985-1003 | a part that points to a raw resource becomes one that points to the resource with its key, in the spelling listed first |
| `ContentParts.NormalizeParts` | api/assistant_content_parts.go:904-1083 | the loop computes the canonical turn or the first error |
| `ContentParts.NormalizedMeaning` | api/assistant_content_parts.go:904-1083 | the parts are canonical and within the limits, the derived text is the concatenation of their renderings, and every selected skill and resource is represented |
| `TurnReading.TurnByFields` | api/assistant_content_parts.go:904-1083 | the turn exists if and only if the resources are taken, every raw part yields a piece that those in front admit, and the pieces cover every selected skill and resource; its parts are these pieces in order with neighbouring texts joined, and the prompt is their renderings in order |
| `TurnReading.TurnRefused` | api/assistant_content_parts.go:904-1083 | which error there is without a turn: too many parts, the resources, the first part refused with its reason, or what the pieces together do not say, in this order |
| `ContentParts.NormalizedIdempotent` | api/assistant_content_parts.go:904-1083 | a canonical turn sent in again is the same turn |
| `ContentParts.SplitInvisible` | api/assistant_content_parts.go:946-965 | cutting a text between runes into any number of parts gives the same turn or the same error |
| `ContentParts.ResourceOrderInvisible` | api/assistant_content_parts.go:530-556 | permuting, repeating or respelling the resources, with the parts pointing to the new places, gives the same turn or the same error if the same spelling comes first for each key, and, when there is a turn, only then |
| `ContentParts.SpellingsShareParts` | api/assistant_content_parts.go:530-556 | turns over the same keys have the same parts and resources with the same keys in the same places, whatever spelling comes first |
| `ContentParts.SpellingMatters` | api/assistant_context_resources.go:74-80 | of two spellings of one key the one listed first is kept |

## Left out

What the proofs show about the code:

- A read limit of 0 passes the tool's argument check although its schema asks for at least 1; such a call never advances.
- An offset inside a rune can fail, because skipping continuation bytes uses up the three-byte lookahead; the exact condition is `PageFromAnywhere`.
- Retention charges trimmed text and keeps the padded message, so the token bound holds for the charge; `PaddingExactly` says when it holds for what is kept.
- Images of placeholders read before an unreadable one are charged and then dropped, which can cost an older message its place; `LosesExactly` and `DroppedEarlyExactly` say, on the messages, when.
- A receipt of a complete read without `offset` or `limit` is no candidate for deduplication until it is rendered, so a second projection can replace a result that the first one left; `ProjectedTwiceExactly` says when.
- Two spellings of one resource, such as the API versions `v1` and `/v1`, share a key, and the one listed first enters the canonical turn; `ResourceOrderInvisible` says when the order shows.
- A compaction checkpoint is stored before its attempt completes, so stored checkpoints may link past one another; completed attempts always chain, and `StoredChainExactly` says when the stored ones do.
- A failed-start marker in front of its message waits for the next removal pass.
- A command receipt with an untrimmed status is accepted once and refused when replayed, because only the stored side is trimmed.
- The exclusion of historical image IDs from the current turn's messages never takes effect: the two ID sets are disjoint (`HistoricalIsOther`).

What is not modelled:

- JSON syntax, SHA-256, base64, UUID generation and clocks: parameters or opaque values. The byte check of an attachment is one predicate.
- The attachment SDK: its kinds, limits, receipt normalisation and wordings are fields of a value; normalising is assumed idempotent.
- Fixed texts are cut short where only their being fixed matters: the summary preamble, the unsettled tool result, the compaction prompt, the truncation marker. Annotation keys and the finalizer of a Project are short stand-ins.
- Text outside attachments and event streams is a sequence of characters, so byte limits on it count one byte a character; case folding is spelt out only against fixed ASCII words.
- The event stream handles LF and CRLF line ends and data fields, as the code does; the other fields and line ends of the WHATWG format have no effect.
- Unique item IDs in the log are assumed for the closed form; the store enforces uniqueness per item ID and run.
- Restoring Responses tool state from tool calls, model transport, and the three other providers.
- The requested tools and completion time of a model-call row, and usage totals across restarts: the ledger starts with one recorder.
- `UsageLedger.Recorder`: callbacks are taken one at a time, as under the recorder's lock.
- `AttachmentAdmission.EnsureAdmission`: a missing client or Project pointer is not a value here; other writers may do anything that gives the object a new version.
- `AttachmentLifecycle.RehydrateHistorical`: fills placeholders in a sequence, not through shared pointers; expansion has just created them, so nobody else holds them.
- `AttachmentLifecycle.EachCurrentImageOnce`: counts attachment messages; images that a message without attachment marks might carry are not attachments.
- `ReadReceipts.ConversationPayload`: the JSON and literal-source texts, the notice, the cutting of overlong texts and the shortening of a proposal are parameters; literal source of a whole read that fits is read back as written, and cut texts and notices are no receipts of complete reads. Redaction of browser results and removal of live context in the same loop are not modelled.
- `CompactionRetention.PaddingExactly`: with unreadable placeholders, tokens lost on them can hide padding, so the equivalence is stated for readable ones.
- `CommandSettlement.SettleExec`: works on audit documents; storing one and reading it back is taken as the identity, and the bound of 256 counts characters. A byte cut inside a rune, which JSON then rewrites, is not modelled.
- `ContentParts.NormalizeParts`: the presence bits of decoded JSON fields are one flag saying that a part carries a foreign field; annotation and reference grammars, the resource key and the renderings are parameters, of the key nothing is assumed.
- `ActionGrants.MergeActions`: the identifier and digest grammars, case folding and the catalogue are parameters; verification is assumed to answer for the grants it was given.
- Resume orchestration, steering, action-feed titles, live context refresh and everything that only routes HTTP or Kubernetes calls.
