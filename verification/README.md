# Stellaclaw state machines, verified

Stellaclaw runs chat conversations against model providers. Five of its components keep state that has to stay right
over whole runs. This project models them and proves what they promise. `dafny verify dfyconfig.toml` verifies all of it.

- **Incremental requests to the Codex service** (`ResponsesInput`, `Replay`, `ReplayExamples`, `Incremental`, `CodexProvider`,
  `ProviderErrors`, `Fnv1a`). The provider builds a full request and, when the remembered context matches, sends only
  the new end of `input` and the id of the response it continues. The service is a ghost table from response id to the
  input that response stands for. Over every run, with any mix of resets, lost connections, token refreshes and lost
  previous responses, the service takes each request for exactly the full one.
- **The stream of one response** (`StreamEvents`, `StreamMerge`, `StreamCompleteness`, `StreamRepeats`,
  `StreamAccumulator`): which tool
  calls still need an event with all their arguments, and how streamed items become the final response. The accumulator
  is compared with a definition that looks at the whole event history at once.
- **The memory store** (`MemoryEntries`, `MemoryConsistency`, `MemoryCompaction`, `MemoryStore`, `MemoryCounter`,
  `CompactionStatus`, `CompactionRuns`, `MemorySearch`, `SubjectCatalog`, `MemoryService`, `MemoryExamples`): ids, the
  action language of a write, the derived catalogue, the search renderer within its budget, and the machine that decides
  when user memory is compacted, over runs of changes and maintenance passes with any times and model answers.
- **The conversation kernel** (`Kernel`, `KernelRuns`, `KernelObject`): registry, router, manifest and session numbers,
  over lives made of creations, stops, exits, crashes, shutdowns and reopenings.
- **The JSON-RPC pair** (`JsonRpcServer`, `JsonRpcPair`, `JsonRpcRuns`, `JsonRpcLines`): callers with their response channels, the
  pending map from ids to channels, writer thread, reader thread and server loop, interleaved one step at a time over
  two pipes. A channel hangs up as soon as nobody holds a sender of it; that this never happens is a theorem.
- **Two printers** (`ConversationIds`, `ShellQuote`): names of conversations, and shell quoting against a POSIX word
  parser.

`Wrappers`, `Json` and `Text` hold optional values, JSON values, UTF-8 lengths, trimming and decimal printing.

Objects that the source updates in place are classes (`Provider`, `StreamAccumulator`, `MemoryFiles`, `UserMemory`,
`ConversationKernel`, `ConversationIdManager`). Each method is proved equal to a function of the old state, and the
theorems are about those functions, so they carry over to the methods. Threads are steps of one transition function.
Every lemma is marked `{:induction false}`: proofs are the written ones and use no induction hypothesis Dafny adds.

## What turned out not to hold

Where the code does less than one would expect, the model keeps the code and a lemma says exactly when it falls short.

- A parsed message does not always replay to what was recorded. It does if and only if encrypted reasoning comes first,
  no two assistant messages follow each other, and each item is plain (`Replay.RoundTrip`,
  `ReplayExamples.TwoMessagesDoNotReplay`). A next request goes out in full if and only if its settings differ or the
  remembered baseline is not a prefix of its input (`Incremental.NextTurnSendsFull`).
- A call whose ids are all blank is reported again each time it is met (`StreamEvents.ReportedAgain`,
  `StreamEvents.BlankCallReportedTwice`).
- A deleted memory number can be given out again: every save computes the counter from the list it saves
  (`MemoryCounter.DeletedNumberReturns`, `MemoryExamples.NumberIssuedTwice`).
- A successful local write loses the draft's text exactly when a candidate scoring 0.9 or more absorbs it and no stored
  entry had the text (`MemoryStore.LocalWriteExactly`, `MemoryStore.AbsorbedWrite`, `MemoryExamples.TextLost`).
- The verdict that hard compaction cannot shrink the store does not last until the size exceeds it: a soft compaction
  that shrinks the memory forgets it (`CompactionRuns.VerdictEnds`, `CompactionRuns.NoRetryAtSameSize`,
  `MemoryExamples.SoftSuccessForgetsVerdict`). Without a model it does last (`CompactionRuns.NoRetryWithoutModel`).
- A call from the kernel to itself never stops being dispatched (`Kernel.KernelToItself`), and a service that stops
  itself through the kernel cannot be answered, which ends the kernel (`Kernel.OneAnswer`).
- The server loop answers a faulty notification, with a null id; JSON-RPC 2.0 section 4.1 asks for silence
  (`JsonRpcServer.NotificationAnswered`).
- A write that fails inside a line takes the next line with it. In every run the pipe is torn exactly when the last write
  that left bytes failed inside its line (`JsonRpcLines.TornExactly`); the request the writer takes next becomes a line of
  its own exactly when it gets out whole and the pipe is not torn (`JsonRpcLines.TakenWholeExactly`); otherwise it is
  never answered (`JsonRpcLines.SwallowedForever`, `JsonRpcRuns.TornLineSwallowsNext`). `JsonRpcLines.AnsweredExactly` says
  exactly which calls are answered.
- The arguments of a call with a non-blank id can be emitted twice: a delta that follows the whole event repeats them,
  and nothing else does (`StreamRepeats.ArgumentsAgain`, `StreamRepeats.DeltaAfterWhole`).
- Two different channels have chats that share a conversation key exactly when one channel id is the other followed by a
  colon, or by two colons and anything (`ConversationIds.KeysClash`). An id handed out from memory after a failed save is
  handed out again after a restart (`ConversationIds.UnsavedIdIsReused`, `ConversationIds.RestartIsSafe`).

## Model

| member | source | states |
|---|---|---|
| ResponsesInput.BuildInputConcat | core/src/providers/codex_subscription.rs:2816-2872 | Building the input of two message lists put together gives the two inputs put together: no message affects another's items. |
| ResponsesInput.NormalizePreservesInput | core/src/providers/codex_subscription.rs:990-1031 | Normalising messages for this provider never changes the request built from them. |
| Replay.RoundTripSuffices | core/src/providers/codex_subscription.rs:3037-3113 | Plain items, reasoning first and no adjacent assistant messages are enough: replaying the parsed message rebuilds the canonical items field for field. |
| Replay.RoundTripNeeds | core/src/providers/codex_subscription.rs:2955-2993 | Any output whose replay equals its canonical items has that shape. |
| Replay.RoundTrip | core/src/providers/codex_subscription.rs:2874-2953 | For every output without images that parses: replaying the parsed message gives the recorded canonical items if and only if they have that shape. |
| ReplayExamples.TwoMessagesDoNotReplay | core/src/providers/codex_subscription.rs:3104-3113 | Two assistant messages in a row are an output that does not replay. |
| Replay.CallRoundTrip | core/src/providers/codex_subscription.rs:1388-1431 | A function call with string id and arguments survives parsing and replaying with every field. |
| Incremental.WireMeansFull | core/src/providers/codex_subscription.rs:359-392 | Whatever is sent, the service's stored input for the previous response followed by the sent input is the full input, and all other fields are those of the full request. |
| Incremental.SendOnceKeeps | core/src/providers/codex_subscription.rs:170-197 | One send, with any failures, reconnects, token refresh and retry, keeps the remembered baseline equal to what the service stores under the remembered id. |
| Incremental.IncrementalRefinesFull | core/src/providers/codex_subscription.rs:294-348 | Over every run from a new provider, the service takes each request it receives for exactly the full request of that send. |
| Incremental.SendOnceRecords | core/src/providers/codex_subscription.rs:394-415 | A send that returns a response leaves that response as the remembered context and its socket cached under the window id. |
| Incremental.SendOnceLog | core/src/providers/codex_subscription.rs:182-196 | One send reaches the service at most four times, each time for its own request; after "previous response not found" the retry is the full request. |
| Incremental.NextTurnSendsOnlyNewItems | core/src/providers/codex_subscription.rs:403-409 | After a response, a continuation with the same settings goes out as its new items alone if and only if the response's items replay. |
| Incremental.NextTurnSendsFull | core/src/providers/codex_subscription.rs:359-392 | Any next request goes out in full if and only if its settings differ or the remembered baseline is not a prefix of its input. |
| CodexProvider.Provider.IncrementalPayload | core/src/providers/codex_subscription.rs:359-392 | The payload to send: the new end when the remembered settings are equal and the remembered baseline is a prefix of the input, else everything. |
| CodexProvider.Provider.RecordContext | core/src/providers/codex_subscription.rs:394-415 | The remembered context after a response: nothing without an id or an input, else settings, baseline and id. |
| CodexProvider.Provider.SendWithReconnect | core/src/providers/codex_subscription.rs:294-348 | The loop with its two mutable variables does what the list of two attempts says, the same bytes both times. |
| CodexProvider.Provider.SendPayload | core/src/providers/codex_subscription.rs:267-292 | The cached socket is used only for its own window, and put back only after a response. |
| CodexProvider.Provider.Send | core/src/providers/codex_subscription.rs:170-197 | The whole send refines the specification and keeps provider and service in step. |
| CodexProvider.Provider.BeforeRetry | core/src/providers/codex_subscription.rs:651-655 | Only a websocket error drops the cached socket before a retry. |
| StreamEvents.CallsOnce | core/src/providers/codex_subscription.rs:1210-1291 | For every order of events: all arguments of a call are reported only if none of its non-blank ids was streamed or reported before, and after completion every non-blank id of every call is marked. |
| StreamEvents.ReportedAgain | core/src/providers/codex_subscription.rs:2776-2788 | A call is reported again at the next meeting if and only if all its ids are blank. |
| StreamEvents.BlankCallReportedTwice | core/src/providers/codex_subscription.rs:2710-2753 | A call with blank ids that is done twice is reported twice with the same event. |
| StreamRepeats.ArgumentsAgain | core/src/providers/codex_subscription.rs:2673-2689 | For every order of events: once an id of a call was emitted, it is emitted again up to and including completion if and only if a later arguments delta carries it. |
| StreamRepeats.DeltaAfterWhole | core/src/providers/codex_subscription.rs:1687-1712 | A run in which a call's arguments are emitted whole and then again as a delta. |
| StreamCompleteness.CallsReported | core/src/providers/codex_subscription.rs:2696-2753 | Every non-blank id of every call in the result leads, through calls sharing ids, to an event that was emitted; each whole-arguments event carries the name, ids and arguments of a call that was seen. |
| StreamMerge.PushAllIsReference | core/src/providers/codex_subscription.rs:2755-2769 | Pushing items one by one gives each id once, at its first position with its latest value. |
| StreamMerge.AccumulatedItems | core/src/providers/codex_subscription.rs:2624-2652 | For every event history the accumulator holds each reported item once, first position, latest value. |
| StreamMerge.MergedResponse | core/src/providers/codex_subscription.rs:2790-2814 | The final output is the response's own items, then the accumulated items whose ids it lacks, in order; no id twice if its own ids are distinct; all other fields are untouched. |
| StreamAccumulation.StreamAccumulator.Receive | core/src/providers/codex_subscription.rs:1210-1262 | One frame changes the accumulator's fields and emits events exactly as one step of the event machine. |
| StreamAccumulation.StreamAccumulator.ToolCallEvent | core/src/providers/codex_subscription.rs:2710-2753 | The event for a call that still needs one, and the ids it marks. |
| StreamAccumulation.StreamAccumulator.MissingToolCallEvents | core/src/providers/codex_subscription.rs:2696-2708 | At completion, the response's items and then the accumulated ones are gone through once. |
| StreamAccumulation.MergeStreamedOutput | core/src/providers/codex_subscription.rs:2790-2814 | The in-place merge computes the merged response. |
| StreamAccumulation.ReceiveResponse | core/src/providers/codex_subscription.rs:1263-1291 | A whole attempt: a whole-arguments event never shares an id with anything emitted before it, and no item is held twice. |
| Fnv1a.WriteInPlace | core/src/providers/codex_subscription.rs:1814-1819 | The loop over a mutable 64-bit state computes the hash of the byte string. |
| Fnv1a.WriteConcat | core/src/providers/codex_subscription.rs:1792-1809 | Writing two strings one after the other is writing their concatenation. |
| Fnv1a.StepBijective | core/src/providers/codex_subscription.rs:1814-1819 | Each byte step is a bijection of the 64-bit state, undone by the inverse of the prime modulo two to the 64. |
| Fnv1a.OneByteChangesHash | core/src/providers/codex_subscription.rs:1814-1819 | Two streams of equal length that differ in exactly one byte never have the same hash. |
| Fnv1a.OneByteChangesWindow | core/src/providers/codex_subscription.rs:1780-1809 | Two requests whose signed streams (model, prompt, tools) differ in exactly one byte have different window ids. |
| Fnv1a.ModelByteChangesWindow | core/src/providers/codex_subscription.rs:1780-1809 | Changing one byte of the model name changes the window id. |
| MemoryEntries.IdNumberOfMakeId | stellaclaw/src/memory.rs:1802-1804 | The number of an id made by the store is read back, as long as it fits 64 bits. |
| MemoryEntries.NextNumberFresh | stellaclaw/src/memory.rs:1777-1789 | Below the top of the 64-bit range the recomputed number makes an id no entry has. |
| MemoryConsistency.LocalDecisionValid | stellaclaw/src/memory.rs:2207-2266 | The local decision always passes validation, whatever the candidates. |
| MemoryConsistency.ApplyInPlace | stellaclaw/src/memory.rs:2355-2394 | Editing the vector in place, action by action, is the specified fold. |
| MemoryConsistency.AppliedEntries | stellaclaw/src/memory.rs:2355-2394 | Applying validated actions edits each stored entry by the actions that name it and appends at most the new entry. |
| MemoryConsistency.EditAllMeaning | stellaclaw/src/memory.rs:2363-2391 | Entries no action names are unchanged, and an entry is inactive afterwards exactly if it was or an action deletes it. |
| MemoryConsistency.AppliedCount | stellaclaw/src/memory.rs:2321-2353 | Active entries after = active before + inserts - distinct deletes. |
| MemoryConsistency.OneSurvivor | stellaclaw/src/memory.rs:2230-2249 | If the newest same-subject candidate differs in text, it alone of that subject survives, with the draft's text, subject and tags; everything else is unchanged. |
| MemoryStore.UnsuccessfulKeepsStore | stellaclaw/src/memory.rs:516-690 | An operation that is rejected or fails leaves the store as it was. |
| MemoryStore.InsertedFresh | stellaclaw/src/memory.rs:1777-1789 | The id of an inserted entry differs from every stored id. |
| MemoryStore.StepKeeps | stellaclaw/src/memory.rs:1225-1284 | Every operation keeps: distinct ids with the scope's prefix, trimmed texts of 1 to 1024 bytes, at most 512 entries and 2 MiB, and a counter above every stored number. |
| MemoryStore.StoreInvariant | stellaclaw/src/memory.rs:1182-1191 | That invariant holds in every run from an empty scope with fewer than two to the 64 allocations. |
| MemoryStore.LocalWriteTakesEffect | stellaclaw/src/memory.rs:516-600 | A local write that succeeds leaves an entry of that time with the draft's text, up to normalisation and hashing, unless a candidate scoring 0.9 or more absorbed it. |
| MemoryStore.LocalWriteExactly | stellaclaw/src/memory.rs:2251-2265 | After a successful local write the draft's text is stored if and only if the write was not absorbed or the text was stored before. |
| MemoryStore.AbsorbedWrite | stellaclaw/src/memory.rs:2251-2257 | An absorbed write renews the two times of the best candidate and changes nothing else. |
| MemoryExamples.TextLost | stellaclaw/src/memory.rs:2251-2257 | A successful write of a new text that leaves no trace of it. |
| MemoryStore.RewriteTakesEffect | stellaclaw/src/memory.rs:642-666 | An update that succeeds changes text and time of the one entry with that id and nothing else. |
| MemoryStore.RemoveTakesEffect | stellaclaw/src/memory.rs:667-690 | A delete that succeeds takes out exactly that entry; the others keep their order. |
| MemoryStore.AccessTakesEffect | stellaclaw/src/memory.rs:618-634 | A search changes only the access times of the entries it returned. |
| MemoryCounter.DeletedNumberReturns | stellaclaw/src/memory.rs:1225-1284 | After every operation that saves, a number n is at or above the new counter if and only if no saved entry is numbered n or above and, unless a compaction replaced the list, none was before. |
| MemoryExamples.NumberIssuedTwice | stellaclaw/src/memory.rs:1777-1789 | A run of write, write, delete, update, write in which two different memories get the same id. |
| MemoryCompaction.CompactLoop | stellaclaw/src/memory.rs:1555-1569 | The loop with its seen-set computes the local compaction. |
| MemoryCompaction.CompactIdempotent | stellaclaw/src/memory.rs:1555-1569 | Compacting twice is compacting once. |
| MemoryCompaction.KeepFirstsCovers | stellaclaw/src/memory.rs:1555-1569 | Local compaction keeps only active entries, and every active entry's content up to its hash, which is taken after normalisation. |
| MemoryCompaction.BuildEntries | stellaclaw/src/memory.rs:1571-1665 | The loop over the proposed items, stopping at the first bad one, computes the specified list or error. |
| MemoryCompaction.AcceptedListSafe | stellaclaw/src/memory.rs:1571-1665 | Whatever a model proposes, an accepted list has distinct ids and distinct contents; each id is an active input id with its creation time, or numbered above all input ids. |
| MemoryCompaction.WellFormedAccepted | stellaclaw/src/memory.rs:1589-1640 | A well-formed answer is accepted, and the hashes of the new list are exactly those proposed. |
| CompactionStatus.MaintainOnlyShrinks | stellaclaw/src/memory.rs:930-1024 | For every answer of a model, a maintenance pass leaves the entries alone or strictly shrinks their rendered size. |
| CompactionStatus.LocalCompactionSettles | stellaclaw/src/memory.rs:692-734 | Without a model and outside a retry wait, three passes reach a state no later pass changes apart from its timestamp. |
| CompactionRuns.VerdictEnds | stellaclaw/src/memory.rs:1490-1512 | After a no-shrink verdict at size s, over every run of changes and passes with any times and answers, hard compaction is tried again if and only if some operation sees a size of at least the hard threshold that exceeds s, or that comes after a size below the soft threshold or after a soft compaction that shrank the memory. |
| CompactionRuns.FirstTry | stellaclaw/src/memory.rs:825-905 | The same for the first try: which operation it is. |
| CompactionRuns.NoRetryAtSameSize | stellaclaw/src/memory.rs:1343-1390 | While all sizes stay between the soft threshold and the override, a second try needs a soft compaction that shrank the memory and a later size of at least the hard threshold, and these are enough. |
| CompactionRuns.NoRetryWithoutModel | stellaclaw/src/memory.rs:825-905 | Without a model there is no second try while the sizes stay inside. |
| MemoryExamples.SoftSuccessForgetsVerdict | stellaclaw/src/memory.rs:1515-1524 | A run from an empty memory: verdict at 609 bytes, a soft compaction that shrinks, growth to 568 bytes, and hard compaction is tried again. |
| MemorySearch.DedupeLoop | stellaclaw/src/memory.rs:2075-2093 | The loop with its two sets computes the deduplicated hits. |
| MemorySearch.DedupeIsFirstOfEachText | stellaclaw/src/memory.rs:2075-2093 | The second set never removes anything: what is left is the first hit of each normalised text. |
| MemorySearch.CutLoop | stellaclaw/src/memory.rs:2136-2152 | Walking the characters finds the longest prefix that leaves room for the suffix. |
| MemorySearch.CutFits | stellaclaw/src/memory.rs:2136-2152 | From 25 bytes on a cut text fits its limit for any UTF-8 content. |
| MemorySearch.RenderResults | stellaclaw/src/memory.rs:2095-2134 | A prefix of the hits, within limit and byte budget; `truncated` exactly if some hit was left out; the ids are those shown. |
| MemorySearch.ShowsSomething | stellaclaw/src/memory.rs:2095-2134 | With a hit, a positive limit and a budget of at least 512 bytes something is shown. |
| MemorySearch.Search | stellaclaw/src/memory.rs:602-640 | Deduplication and rendering together: rank order, no normalised text twice, within limit and budget. |
| SubjectCatalog.WriteSubjects | stellaclaw/src/memory.rs:1286-1326 | The loop over the entries builds a catalogue that agrees with them. |
| SubjectCatalog.CatalogAgrees | stellaclaw/src/memory.rs:1290-1320 | For each subject: exactly the ordered ids of its active entries, the latest time, the summary of the first entry reaching it, and aliases distinct after normalisation that cover all. |
| MemoryService.MemoryFiles.SaveEntries | stellaclaw/src/memory.rs:1225-1284 | Writing the entries and the counter happens entirely or, beyond a limit, not at all. |
| MemoryService.MemoryFiles.Write | stellaclaw/src/memory.rs:516-600 | The change a write makes to the stored entries refines its step and changes nothing unless it succeeds. |
| MemoryService.MemoryFiles.Update | stellaclaw/src/memory.rs:642-666 | The change a update makes to the stored entries refines its step and changes nothing unless it succeeds. |
| MemoryService.MemoryFiles.Delete | stellaclaw/src/memory.rs:667-690 | The change a delete makes to the stored entries refines its step and changes nothing unless it succeeds. |
| MemoryService.MemoryFiles.MarkReturned | stellaclaw/src/memory.rs:618-634 | Recording the access times of a search refines its step. |
| MemoryService.UserMemory.RefreshStatus | stellaclaw/src/memory.rs:1343-1390 | The status fields are updated as the status machine says. |
| MemoryService.UserMemory.RunModel | stellaclaw/src/memory.rs:930-1024 | A model's answer ends in an error, no gain, or new entries with a fresh status; only the last changes anything. |
| MemoryService.UserMemory.RunHardIfPending | stellaclaw/src/memory.rs:825-905 | Hard compaction, with the loop of the local filter, refines its pass. |
| MemoryService.UserMemory.Write | stellaclaw/src/memory.rs:516-600 | A write to user memory: the change, and when it succeeded the status refresh and pending hard compaction. |
| MemoryService.UserMemory.Update | stellaclaw/src/memory.rs:642-666 | An update of user memory with the refresh and hard compaction that follow. |
| MemoryService.UserMemory.Delete | stellaclaw/src/memory.rs:667-690 | A delete from user memory with the refresh and hard compaction that follow. |
| MemoryService.UserMemory.MaintainMemory | stellaclaw/src/memory.rs:692-734 | A maintenance pass refines the machine and replaces the entries only by fewer rendered bytes. |
| Kernel.DispatchTerminates | stellaclaw/src/conversation_new.rs:742-767 | Every call that does not go from the kernel to itself is dispatched with at most one answer of the kernel. |
| Kernel.KernelToItself | stellaclaw/src/conversation_new.rs:742-767 | A call from the kernel to itself is never done: each answer is again such a call. |
| Kernel.OneAnswer | stellaclaw/src/conversation_new.rs:1042-1145 | With open inboxes a kernel request of a mounted service is answered, unless it stops its own sender; then exactly one answer with its request id reaches it, and nobody else gets one. |
| Kernel.MissingTarget | stellaclaw/src/conversation_new.rs:742-767 | A call to a missing service gives exactly one service_not_found if a mounted sender gave a request id, and otherwise fails. |
| Kernel.ConfigReachesAll | stellaclaw/src/conversation_new.rs:1223-1268 | A configuration update reaches each session, workspace and terminal exactly once, before the answer, which lists exactly those. |
| Kernel.BindingRules | stellaclaw/src/conversation_new.rs:1306-1362 | Which binding a new session gets, in both directions: who may ask, what may be requested, what is inherited. |
| KernelRuns.OpenRestores | stellaclaw/src/conversation_new.rs:520-553 | Opening restores what the manifest lists, adds the missing standard services and nothing else, and takes the counters from the manifest. |
| KernelRuns.StepKeeps | stellaclaw/src/conversation_new.rs:788-830 | Every call, mount, exit, crash, shutdown and opening keeps manifest, services and number history in step. |
| KernelRuns.ManifestInStep | stellaclaw/src/conversation_new.rs:907-924 | Over every life, the manifest of a running kernel lists exactly the mounted services, and no number made up for a background session or subagent is used twice. |
| KernelRuns.ShutdownThenReopen | stellaclaw/src/conversation_new.rs:823-830 | Shutdown keeps the manifest, and the next opening has the same addresses and kinds plus missing standard ones. |
| KernelObject.ConversationKernel.MountService | stellaclaw/src/conversation_new.rs:632-694 | Mounting refuses the kernel's and taken addresses; otherwise registry, nickname and manifest change together. |
| KernelObject.ConversationKernel.CreateAgentSession | stellaclaw/src/conversation_new.rs:1270-1304 | Creating a session draws a number only when no id is given, and answers with address and binding or an error. |
| KernelObject.ConversationKernel.StopMounted | stellaclaw/src/conversation_new.rs:788-821 | Stopping removes the service and writes the manifest. |
| KernelObject.ConversationKernel.BroadcastConfig | stellaclaw/src/conversation_new.rs:1223-1268 | The loop tells every target once, in some order, and returns that order. |
| KernelObject.ConversationKernel.HandleKernelCall | stellaclaw/src/conversation_new.rs:1042-1145 | Each request of the kernel changes the object as specified. |
| KernelObject.ConversationKernel.DispatchCall | stellaclaw/src/conversation_new.rs:742-767 | Routing, handling and answering on the object refine the specification. |
| KernelObject.ConversationKernel.ServiceExited | stellaclaw/src/conversation_new.rs:1026-1036 | When a service reports its exit, exactly that service leaves the registry and the manifest follows. |
| KernelObject.ConversationKernel.StopEverything | stellaclaw/src/conversation_new.rs:823-830 | Stopping everything empties the registry and keeps the manifest. |
| JsonRpcServer.RunLoop | agent_server/src/main.rs:44-128 | The loop with its `runtime` option writes exactly the answers of the line-by-line machine. |
| JsonRpcServer.ServeSound | agent_server/src/main.rs:313-361 | Each line is answered at most once and under its own id; a call without an id gets no result. |
| JsonRpcServer.RunSound | agent_server/src/main.rs:44-128 | In every run at most one session starts and no session request is enqueued before it. |
| JsonRpcServer.NotificationAnswered | agent_server/src/main.rs:56-125 | Exactly which calls without an id are answered anyway. |
| JsonRpcRuns.NextKeeps | stellaclaw/src/session_client.rs:180-213 | Every step of every thread keeps the invariant over callers, channels, pending map, commands, lines, answers and travelling ids. |
| JsonRpcRuns.EveryInterleaving | stellaclaw/src/session_client.rs:127-168 | Under every interleaving with fewer than two to the 64 requests: what a caller got is the one answer the server wrote to its own line, or the failure of its own write; it has left the pending map when it returns and never finds its channel hung up; whoever waits still has a sender; the server answers each id at most once and starts at most one session. |
| JsonRpcRuns.NeverHangsUp | stellaclaw/src/session_client.rs:158-166 | Nobody who waits is ever without a sender, although the map, the queue, the writer and the reader each drop theirs. |
| JsonRpcRuns.IdsDistinct | stellaclaw/src/session_client.rs:127-133 | The ids drawn along a run are pairwise distinct. |
| JsonRpcRuns.OnlyOwnerChanges | stellaclaw/src/session_client.rs:226-269 | In every run a step changes at most one call, one that has not returned, and when the reader changes it, the one whose id the line carries. |
| JsonRpcRuns.LateLinesCompleteNobody | stellaclaw/src/session_client.rs:142-168 | Once a call has returned it stays as it is in every continuation, and no other call ever gets a message with its id. |
| JsonRpcLines.TornExactly | stellaclaw/src/session_client.rs:215-224 | In every run the pipe to the server ends in a piece of a line if and only if the last write that left bytes failed inside its line. |
| JsonRpcLines.TakenWholeExactly | stellaclaw/src/session_client.rs:180-213 | In every run the request the writer takes enters the pipe as its own line if and only if its line gets out whole and the pipe is not torn; otherwise the pipe gets nothing or garbage. |
| JsonRpcLines.AnsweredExactly | agent_server/src/main.rs:44-128 | In every run a call is answered if and only if its line was put into the pipe whole and on its own and later the server, not stopped, took it, could write, and was not refused by its session. |
| JsonRpcLines.SwallowedForever | stellaclaw/src/session_client.rs:194-206 | A request that does not enter the pipe as its own line is never answered, whatever happens later. |
| JsonRpcRuns.TornLineSwallowsNext | stellaclaw/src/session_client.rs:215-224 | A run in which a write that fails inside a line costs the next request its answer. |
| ConversationIds.ConversationIdManager.Lookup | stellaclaw/src/conversation_id_manager.rs:39-58 | The lookup on the object's two maps and its file refines the table step, also when saving fails. |
| ConversationIds.MakeIdInjective | stellaclaw/src/conversation_id_manager.rs:53-53 | An id determines its channel and its number: it splits at its last hyphen, and zero-padded printing is injective. |
| ConversationIds.IdsStableAndDistinct | stellaclaw/src/conversation_id_manager.rs:39-58 | Over every run below counter saturation whose restarts find the answers saved: two answers are the same id if and only if they were given under the same key. |
| ConversationIds.RestartIsSafe | stellaclaw/src/conversation_id_manager.rs:60-65 | A restart is harmless for every next lookup if and only if everything handed out was saved. |
| ConversationIds.UnsavedIdIsReused | stellaclaw/src/conversation_id_manager.rs:54-57 | A run in which a failed save makes two chats share an id. |
| ConversationIds.KeysClash | stellaclaw/src/conversation_id_manager.rs:44-44 | Exactly which pairs of channel ids can share a key. |
| ConversationIds.ChatsStableAndDistinct | stellaclaw/src/conversation_id_manager.rs:39-58 | With colon-free channel ids: same id if and only if same channel and same chat. |
| ShellQuote.QuoteRoundTrip | stellaclaw/src/tool_binary_manager.rs:813-819 | For every string the quoted form is read by a shell as exactly one word, that string. |
| ShellQuote.CommandLineRoundTrip | stellaclaw/src/tool_binary_manager.rs:813-819 | Quoted strings put side by side are read back as exactly those words, in order. |
| ShellQuote.QuoteInjective | stellaclaw/src/tool_binary_manager.rs:813-819 | Different strings are never quoted alike. |

## Left out

- Replay.RoundTrip: speaks of outputs without images; what an image becomes depends on the output persistor and the media normaliser, which are not part of this model.
- Replay.RoundTripNeeds: outputs without images, as Replay.RoundTrip.
- Replay.RoundTripSuffices: outputs without images, as Replay.RoundTrip.
- ResponsesInput.BuildInputConcat: files in messages are read from disk when the input is built and are left out; chat items are texts, contexts, reasoning, calls, results and compaction items.
- Incremental.IncrementalRefinesFull: assumes that the service stores its output in the canonical input form, that this output is the one the client recorded after merging streamed items into the response, and that no id is issued twice; losing a stored response is any error it answers with.
- Network, TLS, proxies, HTTP, OAuth refresh and tokens: outcomes of a step. Whether an error counts as transport, unauthorised or not-found is decided from its kind and text as in the source.
- JSON numbers are integers, and serialising non-string arguments is a parameter.
- Remote history compaction, the model list, payload size limits and diagnostics of the Codex provider.
- Incremental.NextTurnSendsOnlyNewItems: for responses without images, as above; NextTurnSendsFull has no such limit.
- Fnv1a.ModelByteChangesWindow: one byte only, as Fnv1a.OneByteChangesWindow.
- Fnv1a.OneByteChangesHash: says nothing about streams that differ in more than one byte, where a 64-bit hash must collide.
- MemoryStore.StoreInvariant: holds below two to the 64 allocations; the source's counter wraps or overflows there.
- MemoryStore.LocalWriteExactly: equality is up to the normaliser and the digest, which are parameters.
- Tokeniser, normaliser, digest, ranking scores, rendered-text hash and clock of the memory store: parameters, so theorems hold for all of them. Entries written to disk are read back unchanged; each write is one step; audit log, prompt blocks and provider usage records are left out.
- MemorySearch.DedupeIsFirstOfEachText: needs that normalised text has no line end, which holds because it is made of tokens joined by spaces.
- CompactionStatus.LocalCompactionSettles: speaks of the five known states; a status file with an unknown state string is not part of this model.
- CompactionRuns.VerdictEnds: what the operations see is their rendered size; a size at or above two to the 64 is not part of this model.
- MemoryService.MemoryFiles.Write: the entries alone; the refresh and hard compaction that follow are in MemoryService.UserMemory.Write, and likewise for Update and Delete.
- MemorySearch.Search: the ranking is an input, and the access times are written by MemoryService.MemoryFiles.MarkReturned.
- MemoryStore.AbsorbedWrite: for drafts whose hash is not stored; the others renew the entry that has it.
- Kernel.OneAnswer: needs every inbox to have a reader; a closed inbox ends the kernel with an error, as in the source.
- KernelRuns.OpenRestores: the merge of host defaults into the configuration at opening is left out.
- KernelRuns.ManifestInStep: numbers made up by the kernel are never repeated; ids chosen by callers can be. Manifest and services are maps, so the order of entries is not modelled; each persist is one step, and an opening reads exactly what was persisted.
- Kernel: service threads and joins, status and spawn logs, storage directories, and the texts of error messages beyond their code.
- JsonRpcRuns.EveryInterleaving: the client is a state machine over values, since its threads run concurrently; result contents, error texts, timeouts as durations, poisoned locks and the child process are left out. A failed write leaves no bytes, a proper piece of the line, or the whole line; a whole line without its line end at the end of the pipe is not part of this model, and a failed write of the server leaves nothing.
- ConversationIds.IdsStableAndDistinct: the run is shorter than the counter's saturation point.
- ShellQuote.QuoteRoundTrip: the word parser reads quoting and blanks; it gives up on unquoted operators, patterns and expansions instead of performing them.
- Host restart, event bridge, setup wizard, command line, pricing, web search and other providers: thin or remote code with little state.
