# Verified models of an SSH agent harness

A Dafny project that models the parts of the harness in which several operations, several
processes or several languages have to agree, and proves what they agree on. It verifies
with `dafny verify dfyconfig.toml` (Dafny 4.11).

**Conversations.** `Messages` cuts a stored history into complete units; `ContextWindow`
chooses what to summarise and builds the model's view; `ConversationStore` has the tables
and the transactions on them; `ConversationHistory` proves what every store reachable by
turns, answers, results, compactions, crashes between transactions and retries satisfies;
`Compaction` is the one compaction of a turn.

**The agent loop.** `CommandPolicy` and `PosixShell` decide which commands need no
approval, and what a shell makes of those; `Approvals` is the registry of decisions;
`ConversationLock` the reference-counted keyed lock; `ReactLoop` the graph, the service
that drives it and the other users of the registry as one transition system. Its invariant
is proved in parts (`ReactTables`, `ReactRequests`, `ReactBounds`) and put together in
`ReactSafety`; `ReactRounds` tells what becomes of each tool call and what every step stores.

**The event stream.** `TurnEvents` are the calls of a turn on its stream; `Snapshots` turns
full-text snapshots into edits and retries a request; `EventPublisher` numbers and bounds
the events; `StreamEvents` and `CompactJson` print them; `EventFrames` frames them and takes
frames out of arbitrary chunks again (the event stream format of section 9.2 of the WHATWG
HTML standard, of which the code uses a strict subset); `StreamReader` is the client's validator
of one frame and `StreamClient` its
acceptance automaton; `TurnStream` proves the whole way from call to accepted event, and
`ReactStream` from any execution of the agent loop.

**Remote files.** `RemoteTree` scans a directory tree into its manifest; `RemoteFs` is the
server's table of paths and the order of deletion; `RecursiveDelete` the isolated, verified,
crash-prone deletion and its inspection; `Uploads` the chunked upload with one verified
commit; `Listings` the bounded listing.

**The launcher.** `CommandLine` quotes an argument list for Windows and parses it by the
rules of "Parsing C command-line arguments" (Microsoft C/C++ documentation).

Code that changes state in place is modelled by classes whose methods are proved against
functions on the value of their fields; lemmas then speak about those functions. Where an
environment decides something - a provider's answer, a user's decision, the fate of a remote
request, the moment a process dies - it is a parameter, and the results hold for every value.

## Where the code does not keep a promise

- A model answer that calls one identifier twice is stored (an empty identifier is replaced
  before that). From then on no history containing it can be cut into units, so every later
  turn fails before it asks the model (`ConversationHistory.RepeatedCallHappens`,
  `ConversationHistory.BadCallsPoison`, `ReactRounds.SpoiltTurnsFail`; the exact condition is
  in `AssistantKeepsInvIff`).
- U+2028 and U+2029 pass the backend's JSON printer but not the client's line pattern, so a
  text containing one breaks the stream (`EventFrames.RoundTrip`,
  `TurnStream.SeparatorBreaksStream`).
- The two sides limit a failure message differently: the publisher admits 256 characters, the
  client 256 UTF-16 code units (`TurnStream.ClientAccepts`). The agent's own failure
  messages are fixed ASCII texts; the difference shows only with other ones.
- An executable path with a quote or a trailing backslash does not survive the command line
  (`CommandLine.RoundTrip`).
- When the last look at a tombstone times out after everything was deleted, the operation is
  recorded and inspected as failed - exactly then (`RecursiveDelete.ExecuteThenInspect`,
  `RecursiveDelete.LateTimeout`).
- A continued deletion that stops under its newer tombstone makes the old record answer
  "succeeded" although entries remain; one that completes makes it answer "failed" although
  nothing remains (`RecursiveDelete.ContinueDelete`, `RecursiveDelete.ContinuedDelete`).
- An inspection stores "succeeded" for an upload whose target already had the content, without
  looking for the temporary file, which then stays behind an operation that is over
  (`Uploads.OverlookedFile`).
- An inspection also stores ends for uploads that are still active, and later steps overwrite
  them (`Uploads.PreemptedUpload`).
- An upload whose rename was done behind an unhandled exception, such as a cancellation, stays
  active; a second finish or a stray chunk then records it as failed and a shutdown as
  cancelled, although its target has been replaced (`Uploads.DeniedReplacement`). So does the
  inspection of an unfinished record whose replaced target was replaced once more.

For the last three, `Uploads.MoveKeepsIff` gives the exact guards, and `Uploads.RuleHoldsIff`
says that nothing else breaks these rules in any run.


## Model

| member | source | states |
|---|---|---|
| Messages.MessageUnits | backend/src/harness_ssh_sidecar/agent/context.py:122-149 | The loop over the records computes exactly the cut of the specification, and gives up exactly where the code raises |
| Messages.UnitsIffPaired | backend/src/harness_ssh_sidecar/agent/context.py:122-149 | A history can be cut into complete units exactly when every call of every assistant message is answered once, directly after it, and no result stands anywhere else |
| Messages.ScanAppend | backend/src/harness_ssh_sidecar/agent/context.py:122-149 | Scanning a concatenation is scanning the parts one after the other |
| Messages.UnitsAppend | backend/src/harness_ssh_sidecar/agent/context.py:122-149 | The units of a closed history followed by another are the units of both, in order |
| Messages.UnitsSplit | backend/src/harness_ssh_sidecar/agent/context.py:122-149 | What follows a closed prefix of a closed history is closed, and the units split there |
| Messages.UnitEnd | backend/src/harness_ssh_sidecar/agent/context.py:122-149 | The first k complete units end at a non-system record, and the records up to it are a closed history of just those units |
| Messages.PairedShift | backend/src/harness_ssh_sidecar/agent/context.py:122-149 | Taking off one complete unit neither makes nor breaks the pairing of the rest |
| ContextWindow.RetainedBounds | backend/src/harness_ssh_sidecar/agent/context.py:111-120 | The number of retained units is the percentage rounded up: at least one of a non-empty history, never more than all |
| ContextWindow.UnitsKeepAll | backend/src/harness_ssh_sidecar/agent/context.py:111-149 | Cutting into units loses and reorders nothing but system records |
| ContextWindow.PrefixBoundary | backend/src/harness_ssh_sidecar/agent/context.py:111-120 | The prefix to summarise is empty or ends at the record that closes a unit, strictly before the last unit |
| ContextWindow.StripKeepsUnits | backend/src/harness_ssh_sidecar/agent/context.py:94-149 | Leaving out system records changes no unit |
| ContextWindow.ProjectionPaired | backend/src/harness_ssh_sidecar/agent/context.py:94-109 | No projection shows an open call, or a result away from the message that called it |
| ContextWindow.CoverageIsPartition | backend/src/harness_ssh_sidecar/agent/context.py:94-109 | Every record lies in exactly one summary interval or is shown exactly once, in order, after the summaries |
| ContextWindow.ViewQuotesSummaries | backend/src/harness_ssh_sidecar/agent/context.py:94-109 | The view opens with the system prompt, shows each summary's own text, whole and in order, between the two markers of a message of its own, and goes on with what they do not cover |
| ContextWindow.SameViewSameTexts | backend/src/harness_ssh_sidecar/agent/context.py:99-104 | Two chains of summaries that look alike to the model carry the same texts in the same order |
| ConversationStore.ConversationTables.AppendMessagesAtomic | backend/src/harness_ssh_sidecar/agent/conversations.py:145-170 | The batch is stored in one piece under the next consecutive numbers, which are returned |
| ConversationStore.ConversationTables.LoadNewTurn | backend/src/harness_ssh_sidecar/agent/context.py:70-91 | One interruption result per open call of the last message, then the user message, in one batch |
| ConversationStore.ConversationTables.RemoveLastTurn | backend/src/harness_ssh_sidecar/agent/conversations.py:105-129 | Only the last run, once it has ended and only with its original user message, loses all its messages and its summary; a refusal changes nothing |
| ConversationStore.ConversationTables.ValidateBoundary | backend/src/harness_ssh_sidecar/agent/context_summaries.py:28-45 | Accepts exactly the numbers of stored records that close a unit before the source run's single user message |
| ConversationStore.ConversationTables.LoadSummaries | backend/src/harness_ssh_sidecar/agent/context_summaries.py:47-70 | Returns the stored summaries exactly when every link of the chain is valid |
| ConversationStore.ConversationTables.CommitCandidate | backend/src/harness_ssh_sidecar/agent/context_summaries.py:72-92 | Appends one summary with the next revision, or changes nothing and says why |
| ConversationStore.ConversationTables.IncrementIteration | backend/src/harness_ssh_sidecar/agent/conversations.py:208-231 | Adds one to a running run below 128 iterations and refuses everything else |
| ConversationStore.ConversationTables.FinishRun | backend/src/harness_ssh_sidecar/agent/conversations.py:233-257 | A running run takes one terminal status, once |
| ConversationHistory.BeginKeepsInv | backend/src/harness_ssh_sidecar/agent/conversations.py:81-96 | A new run under a fresh identifier comes last in the start order and keeps every message order, tail and summary link valid |
| ConversationHistory.GrowthKeepsInv | backend/src/harness_ssh_sidecar/agent/conversations.py:145-170 | Every append of the current run that leaves the tail in order keeps the whole invariant of the store |
| ConversationHistory.TurnCloses | backend/src/harness_ssh_sidecar/agent/context.py:70-91 | Loading a turn repairs whatever a dead run left open |
| ConversationHistory.TurnKeepsInv | backend/src/harness_ssh_sidecar/agent/context.py:70-91 | A new turn keeps the invariant and leaves a closed history that ends with the user message |
| ConversationHistory.AssistantKeepsInvIff | backend/src/harness_ssh_sidecar/agent/graph.py:282-312 | Storing a model answer keeps the invariant if and only if its call identifiers are non-empty and distinct |
| ConversationHistory.BadCallsPoison | backend/src/harness_ssh_sidecar/agent/context.py:122-149 | Once an answer with unusable call identifiers is stored, no history containing it can be cut into units or compacted again |
| ConversationHistory.RepeatedCallHappens | backend/src/harness_ssh_sidecar/agent/model_gateway.py:763-780 | A first turn whose answer calls one identifier twice is stored, and leaves a history that cannot be cut |
| ConversationHistory.ResultsKeepInv | backend/src/harness_ssh_sidecar/agent/graph.py:462-471 | Recording one result per open call closes the history and keeps the invariant |
| ConversationHistory.RemovedIsSuffix | backend/src/harness_ssh_sidecar/agent/conversations.py:105-129 | The rows of the last run are exactly a suffix of the history |
| ConversationHistory.RemoveKeepsInv | backend/src/harness_ssh_sidecar/agent/conversations.py:105-129 | Replacing the last turn keeps the invariant, including every summary that stays |
| ConversationHistory.CompactionAccepted | backend/src/harness_ssh_sidecar/agent/context_compaction.py:90-144 | Right after a turn is loaded, for every percentage from 1 to 99, the chosen boundary exists, closes a unit, lies after all coverage and before the user message, and is accepted |
| ConversationHistory.CommitKeepsInv | backend/src/harness_ssh_sidecar/agent/context_summaries.py:72-92 | A committed summary keeps the chain and the whole invariant |
| ConversationHistory.StepKeepsInv | backend/src/harness_ssh_sidecar/agent/conversations.py:105-257 | Every transaction of the protocol keeps the invariant |
| ConversationHistory.ReachableHistories | backend/src/harness_ssh_sidecar/agent/context_summaries.py:28-70 | In every reachable store the numbers are 1..n, runs follow in start order, only the last message can be open, and the summaries load |
| ConversationHistory.ReachableViews | backend/src/harness_ssh_sidecar/agent/context.py:94-149 | In every reachable closed store the model's view is paired and shows or summarises each record once |
| ConversationHistory.TurnIsOwn | backend/src/harness_ssh_sidecar/agent/conversations.py:105-129 | Taking away a run's rows at any point of the run gives exactly the tables before it started |
| ConversationHistory.RetryUndoesTurn | backend/src/harness_ssh_sidecar/agent/conversations.py:105-129 | A retry restores the messages and summaries from before the turn, and is admitted exactly for an ended last run with the same user message |
| Compaction.AskProvider | backend/src/harness_ssh_sidecar/agent/context_compaction.py:100-130 | A summary text comes back exactly when one of at most three attempts is usable before a cancellation; otherwise the answer is a cancellation exactly if one came before |
| Compaction.BoundaryCommits | backend/src/harness_ssh_sidecar/agent/context_compaction.py:90-144 | The chosen boundary is one the store accepts together with any non-blank text |
| Compaction.Compact | backend/src/harness_ssh_sidecar/agent/context_compaction.py:82-144 | Appends exactly one summary or nothing, and answers kept, over budget, cancelled or failed, each under exactly the stated conditions; the store never refuses it, the invariant holds, and the model then sees the provider's text as the last summary |
| CommandLine.AppendQuoted | launcher/src/process.rs:213-234 | The loop writes the quoted form of the value behind what is already there |
| CommandLine.BuildCommandLine | launcher/src/process.rs:202-211 | The executable, each argument after one space, and a terminating zero |
| CommandLine.ArgumentOfEscaped | launcher/src/process.rs:213-234 | The C runtime reads an escaped value back up to its closing quote |
| CommandLine.ArgumentsOfTail | launcher/src/process.rs:202-234 | Every NUL-free argument list comes back unchanged |
| CommandLine.ParsePlainExecutable | launcher/src/process.rs:202-234 | For a path without quotes the arguments come back, and the path gains a copy of its trailing backslashes |
| CommandLine.RoundTrip | launcher/src/process.rs:202-234 | The child sees exactly the intended list if and only if nothing holds a NUL and the path has no quote and no trailing backslash |
| CommandPolicy.ReadToken | backend/src/harness_ssh_sidecar/agent/command_policy.py:43-65 | One round of the outer loop takes exactly the token of the specification |
| CommandPolicy.ScanLiterals | backend/src/harness_ssh_sidecar/agent/command_policy.py:35-66 | The index loop computes exactly the scan of the specification |
| CommandPolicy.ScanOfRender | backend/src/harness_ssh_sidecar/agent/command_policy.py:35-66 | Writing any valid token list in the accepted syntax and scanning it returns that list |
| CommandPolicy.ScanIff | backend/src/harness_ssh_sidecar/agent/command_policy.py:35-66 | A command is accepted with some tokens exactly when it is a written form of them |
| CommandPolicy.ShellReadsTokens | backend/src/harness_ssh_sidecar/agent/command_policy.py:28-66 | A POSIX shell reads every accepted command as the scanned tokens, with no operator and no expansion |
| CommandPolicy.AutoReadOnlyCommand | backend/src/harness_ssh_sidecar/agent/command_policy.py:18-99 | A command classified as read-only is, for the shell, one simple command with a read-only name and only allowed option words |
| CommandPolicy.FormIff | backend/src/harness_ssh_sidecar/agent/command_policy.py:69-99 | The accepted argument lists are exactly the listed ones: fixed options, ls with distinct flags and one operand, cat with one operand, head and tail with one operand and a line count from 1 to 1000 |
| CommandPolicy.ClassifyIff | backend/src/harness_ssh_sidecar/agent/command_policy.py:18-25 | Blocked exactly if directly dangerous; read-only exactly if not, scannable, and of a listed form |
| ConversationLock.LockTable.EnterContext | backend/src/harness_ssh_sidecar/agent/service.py:492-507 | Finds or creates the entry, counts the user, and takes the lock or queues up |
| ConversationLock.LockTable.ResumeWaiter | backend/src/harness_ssh_sidecar/agent/service.py:504-515 | A woken waiter takes the lock; a cancelled one passes the wake-up on and leaves |
| ConversationLock.LockTable.ReleaseContext | backend/src/harness_ssh_sidecar/agent/service.py:506-515 | Hands the lock on and leaves the context |
| ConversationLock.LockTable.CloseContext | backend/src/harness_ssh_sidecar/agent/service.py:509-515 | Counts the user out and deletes the entry when it was the last one |
| ConversationLock.StepKeepsInv | backend/src/harness_ssh_sidecar/agent/service.py:492-515 | Entering, cancelling, resuming and releasing keep queue, lock, counter and table in agreement |
| ConversationLock.MutualExclusion | backend/src/harness_ssh_sidecar/agent/service.py:492-515 | Under every interleaving at most one task holds a key, although entries come and go, and an entry exists exactly while it has users |
| ConversationLock.NoDeadlock | backend/src/harness_ssh_sidecar/agent/service.py:127-200 | With the message lock taken before the conversation lock, somebody inside can always go on |
| Approvals.ApprovalRegistry.RegisterRequest | backend/src/harness_ssh_sidecar/agent/approvals.py:38-45 | Refuses a known identifier and a second open request of a run; otherwise adds an active, undecided entry |
| Approvals.ApprovalRegistry.DecideRequest | backend/src/harness_ssh_sidecar/agent/approvals.py:54-72 | The first matching decision of an active entry is final; repeating it is harmless, contradicting it is refused |
| Approvals.ApprovalRegistry.ConsumeRequest | backend/src/harness_ssh_sidecar/agent/approvals.py:82-91 | Only the exact, active, approved and unconsumed request is consumed |
| Approvals.ApprovalRegistry.InvalidateRun | backend/src/harness_ssh_sidecar/agent/approvals.py:93-103 | Every entry of the run becomes inactive, open ones are resolved as invalidated, no other entry changes |
| Approvals.ApprovalRegistry.ReleaseRun | backend/src/harness_ssh_sidecar/agent/approvals.py:105-109 | Nothing of the run is left, nothing else changes |
| Approvals.ApplyKeepsInv | backend/src/harness_ssh_sidecar/agent/approvals.py:38-109 | Every operation keeps the table explained by the history of what happened |
| Approvals.RegisterMeans | backend/src/harness_ssh_sidecar/agent/approvals.py:38-45 | A request is accepted exactly if it is new and no other of its run is open, and starts undecided, unused and active |
| Approvals.DecideMeans | backend/src/harness_ssh_sidecar/agent/approvals.py:54-72 | A decision counts exactly for the named operation while active and once; what is stored and answered is what the user said; every refusal has its own condition |
| Approvals.ConsumeMeans | backend/src/harness_ssh_sidecar/agent/approvals.py:82-91 | Exactly the approved, active, unused request itself is consumed |
| Approvals.EndMeans | backend/src/harness_ssh_sidecar/agent/approvals.py:93-109 | Ending a run makes its requests unusable, answers the open ones, keeps what was decided, and leaves other runs alone |
| Approvals.ResolutionNeverChanges | backend/src/harness_ssh_sidecar/agent/approvals.py:54-72 | A resolution, once there, is never another one |
| Approvals.ConsumptionSafety | backend/src/harness_ssh_sidecar/agent/approvals.py:82-109 | Each identifier is consumed at most once, after its own registration and approval, and never after its run was ended in between |
| TurnEvents.PhaseOfText | backend/src/harness_ssh_sidecar/agent/streaming.py:95-115 | Text updates never change where an open turn stands |
| ReactTables.OpFits | backend/src/harness_ssh_sidecar/agent/graph.py:240-535 | Each transaction of a node takes the stored history from the stage of that node to the stage of the next |
| ReactTables.GraphAdvances | backend/src/harness_ssh_sidecar/agent/graph.py:240-535 | The graph commits only transactions its stage allows |
| ReactTables.StepKeepsStore | backend/src/harness_ssh_sidecar/agent/graph.py:240-535 | Every step of the run keeps the stored history at the stage of its node and the two iteration counters equal |
| ReactRequests.StepKeepsRequest | backend/src/harness_ssh_sidecar/agent/graph.py:392-460 | The pending request is always the exact operation of the single open call |
| ReactRequests.StepKeepsRegistry | backend/src/harness_ssh_sidecar/agent/service.py:371-427 | Whatever others do to the registry, the run's open request is the only undecided one of the run and stays unconsumed until its dispatch |
| ReactRequests.StepKeepsGrants | backend/src/harness_ssh_sidecar/agent/graph.py:444-460 | Each consumption pays for one dispatch, in order |
| ReactBounds.StepKeepsCounts | backend/src/harness_ssh_sidecar/agent/graph.py:344-357 | Each round of the loop takes at most seven nodes, one model request, one command and one resumption |
| ReactBounds.StepKeepsSink | backend/src/harness_ssh_sidecar/agent/service.py:371-427 | Every event call is one the protocol of the stream allows at that point |
| ReactSafety.StepKeepsInv | backend/src/harness_ssh_sidecar/agent/graph.py:229-553 | Every step of the machine keeps the invariant of tables, requests, registry, dispatches, counters and stream |
| ReactSafety.StoreNeverRefuses | backend/src/harness_ssh_sidecar/agent/graph.py:240-535 | The conversation store never refuses a transaction of the graph |
| ReactSafety.RegistryRefusesOnlyEnded | backend/src/harness_ssh_sidecar/agent/service.py:404-412 | Registering never conflicts, and an approved request can be consumed unless its run was ended |
| ReactSafety.NeverStuck | backend/src/harness_ssh_sidecar/agent/graph.py:229-553 | A run that waits for no decision and lost no approval can always take its next step |
| ReactSafety.DispatchesJustified | backend/src/harness_ssh_sidecar/agent/graph.py:392-460 | Every command ever handed to the executor is plainly read-only or the exact operation of a request that was registered, approved, still active, and consumed for it alone |
| ReactSafety.RunIsBounded | backend/src/harness_ssh_sidecar/agent/graph.py:344-357 | Stored and graph iteration agree and stay at most 128; at most 129 model requests, 128 commands, 902 node executions and 128 resumptions |
| ReactSafety.RunTerminates | backend/src/harness_ssh_sidecar/agent/service.py:371-427 | Every execution ends after at most 1545 own steps, below the configured limit of 2048 graph steps |
| ReactSafety.LimitLeavesPaired | backend/src/harness_ssh_sidecar/agent/graph.py:487-535 | A run that reaches the limit has asked the model 129 times, is stored as such, and leaves every call of the conversation paired exactly if all stored answers have usable call identifiers |
| ReactSafety.ModelSeesPairs | backend/src/harness_ssh_sidecar/agent/graph.py:270-280 | As long as the stored answers have usable call identifiers, each model request is made on a view that pairs every call with its results |
| ReactSafety.CallsFollowProtocol | backend/src/harness_ssh_sidecar/agent/service.py:246-340 | The event calls of a run never leave the stream protocol, and a run not torn down from outside closes the stream |
| ReactRounds.RoundTells | backend/src/harness_ssh_sidecar/agent/graph.py:392-471 | At every node of a round the stream, the dispatched commands and the pending request say exactly how far the call has come |
| ReactRounds.RoundRecorded | backend/src/harness_ssh_sidecar/agent/graph.py:392-471 | What is stored for an answer with calls: one row each - why it was turned down at once, COMMAND_REJECTED_BY_USER exactly after the stream has said so, or the output of the one command that was run for it, read-only or approved |
| ReactRounds.ApprovedIsUsed | backend/src/harness_ssh_sidecar/agent/graph.py:432-459 | After the stream has said that a request is approved, the run, unless it fails or is torn down, goes on to consume that request and start its command |
| ReactRounds.ToldIsDecided | backend/src/harness_ssh_sidecar/agent/service.py:389-409 | What the stream tells about an approval is what a user decided |
| ReactRounds.RejectedNeverConsumed | backend/src/harness_ssh_sidecar/agent/service.py:389-409 | A request the stream has shown as rejected is never consumed |
| ReactRounds.OverLeavesNothing | backend/src/harness_ssh_sidecar/agent/service.py:411-425 | A run that is over has no request left in the registry |
| ReactRounds.StepStores | backend/src/harness_ssh_sidecar/agent/graph.py:234-540 | What each step adds to the stored conversation: repairs and the user message, the model's text and calls, one result for each call, and nothing else |
| ReactRounds.StepEnds | backend/src/harness_ssh_sidecar/agent/service.py:246-340 | The status on record after each step, and that an ended run stays as it ended |
| ReactRounds.EndAgrees | backend/src/harness_ssh_sidecar/agent/service.py:332-350 | The last event of a run that ends by itself tells the stored status and iteration |
| ReactRounds.SpoiltTurnsFail | backend/src/harness_ssh_sidecar/agent/context_compaction.py:90-94 | With an answer of unusable call identifiers in the conversation, no later turn ever asks the model |
| EventFrames.ReadStream | frontend/src/api/http-client.ts:220-274 | The buffer loop yields exactly the frames of the specification, in order, and ends the same way |
| EventFrames.DrainBuffer | frontend/src/api/http-client.ts:257-268 | The inner loop takes every complete frame and stops at the first one too large or malformed |
| EventFrames.TakeWhole | frontend/src/api/http-client.ts:419-437 | The delimiter is found right behind a frame's text, whatever follows |
| EventFrames.TakePartial | frontend/src/api/http-client.ts:419-437 | No frame is taken from a proper beginning of one |
| EventFrames.CrlfFrame | frontend/src/api/http-client.ts:419-466 | A frame with CRLF line ends is taken and parsed exactly like the one with LF |
| EventFrames.ParseRaw | frontend/src/api/http-client.ts:439-466 | A printed frame is parsed back exactly when its data has no U+2028 and no U+2029, and rejected otherwise |
| EventFrames.RoundTrip | frontend/src/api/http-client.ts:220-274 | For every list of events and every cut of the encoded text into chunks the client yields the frames before the first one with a line separator, and completes if and only if there is none |
| EventFrames.SizeIsBytes | backend/src/harness_ssh_sidecar/web/agent_stream.py:356-376 | Sizes are the numbers of UTF-8 bytes |
| CompactJson.PrintRoundTrip | backend/src/harness_ssh_sidecar/web/sse.py:13-17 | A printed object reads back as itself, so no two print alike |
| CompactJson.PrintFits | backend/src/harness_ssh_sidecar/web/sse.py:13-17 | A printed object stays on one line, holds a line separator exactly if one of its strings does, and takes at most six bytes per character |
| StreamEvents.FrameDeterminesEvent | backend/src/harness_ssh_sidecar/web/sse.py:13-20 | The client can recover exactly the event that was sent |
| StreamEvents.EventFrame | backend/src/harness_ssh_sidecar/web/sse.py:13-20 | Every valid event prints as one well-formed frame of bounded size that passes the client's line pattern exactly if its texts hold no line separator |
| StreamEvents.FrameFits | backend/src/harness_ssh_sidecar/web/agent_stream.py:356-376 | Pieces of at most 4096 characters and all events without model text always fit a frame |
| EventPublisher.Publisher.Start | backend/src/harness_ssh_sidecar/web/agent_stream.py:76-100 | Freezes the identity and publishes number zero, once |
| EventPublisher.Publisher.Report | backend/src/harness_ssh_sidecar/web/agent_stream.py:102-170 | An event between start and end is numbered, checked, admitted within the reserve, counted, and applied to the text; a refused one changes nothing |
| EventPublisher.Publisher.Seal | backend/src/harness_ssh_sidecar/web/agent_stream.py:172-208 | A terminal event of the frozen run is published once and closes the stream |
| EventPublisher.Publisher.ValidatedSize | backend/src/harness_ssh_sidecar/web/agent_stream.py:356-376 | Admits a frame exactly when it is within the frame limit and, unless terminal, leaves the reserve |
| TurnStream.PublishOkIff | backend/src/harness_ssh_sidecar/web/agent_stream.py:76-376 | A call returns exactly if the stream is open for it and of its run, the event is valid, within a frame and leaves the reserve, and the consumer takes it; its event is then the next in the queue |
| TurnStream.BodySays | backend/src/harness_ssh_sidecar/web/agent_stream.py:76-208 | Every event says what the call said |
| StreamClient.AcceptEvents | frontend/src/api/agent.ts:102-173 | The client's loop accepts exactly the event lists of its automaton and returns the terminal event |
| StreamClient.AcceptsIff | frontend/src/api/agent.ts:102-173 | The automaton accepts exactly the streams in which every event fits those before it: valid, numbered without gaps, of one run, started once and ended at most once, requests new and one at a time, each resolution that of the open request, no tool and no completion while one is open |
| StreamReader.ReadsBack | frontend/src/api/agent.ts:330-459 | The client's validator - exact members, types and fixed texts of every event type - reads every event the backend prints as exactly that event |
| TurnStream.ClientFollows | frontend/src/api/agent.ts:102-173 | Events numbered from zero under one identity in protocol order are accepted exactly if no failure message exceeds 256 UTF-16 units, and the client then stands where the calls stand |
| TurnStream.AttemptKeepsLinked | backend/src/harness_ssh_sidecar/web/agent_stream.py:76-376 | Every call, also one that raises or loses its race for the queue, keeps numbers, identity, text, budget and protocol together |
| TurnStream.ClientAccepts | backend/src/harness_ssh_sidecar/web/agent_stream.py:76-208 | Whatever the service calls within the protocol, the emitted events keep both size limits and the client accepts them, the over-long failure message excepted |
| TurnStream.StreamedText | backend/src/harness_ssh_sidecar/web/agent_stream.py:70-74 | The reported text is the fold of the text calls that succeeded |
| TurnStream.TerminalAlwaysFits | backend/src/harness_ssh_sidecar/web/agent_stream.py:356-376 | While the stream is open the terminal event of its run is always admitted |
| TurnStream.EndToEnd | frontend/src/api/http-client.ts:220-274 | From the service's calls to the client: every chunking gives back exactly the emitted frames if and only if no text holds U+2028 or U+2029 |
| TurnStream.CallsToEvents | frontend/src/api/agent.ts:102-173 | From the service's calls to the events the client's validator reads and its automaton accepts: whatever the chunks, the client takes some list of events if and only if all texts are free of line separators and all failure messages short, and it is exactly the emitted one |
| TurnStream.SeparatorBreaksStream | frontend/src/api/http-client.ts:439-466 | It happens: the publisher takes a text of U+2028 alone, and the client takes no events from what is sent |
| ReactStream.MadeObeys | backend/src/harness_ssh_sidecar/agent/service.py:246-340 | The calls any execution of the loop makes on its stream, returned or raised, are attempts the protocol allows |
| ReactStream.RunIsMade | backend/src/harness_ssh_sidecar/agent/service.py:246-340 | The calls of an execution that have all returned are such attempts |
| ReactStream.LoopToClient | frontend/src/api/agent.ts:102-173 | From any execution of the loop to the client, whatever the chunks: the client takes exactly the emitted events, if and only if all texts are clean and all failure messages short |
| Snapshots.PublishSnapshot | backend/src/harness_ssh_sidecar/agent/model_gateway.py:568-588 | Afterwards the stream shows exactly the snapshot; an extension is only appended to, pieces stay within 4096 characters, an equal snapshot sends nothing, a raising stream is remembered |
| Snapshots.SendPieces | backend/src/harness_ssh_sidecar/agent/model_gateway.py:580-584 | The rest of a snapshot arrives completely, in non-empty pieces of at most 4096 characters |
| Snapshots.RunAttempt | backend/src/harness_ssh_sidecar/agent/model_gateway.py:134-145 | An attempt has published something exactly if one of its snapshots was not empty, and otherwise has left the stream untouched |
| Snapshots.InvokeAttempts | backend/src/harness_ssh_sidecar/agent/model_gateway.py:127-217 | At most six attempts with the fixed, cancellable delays; only attempts without visible updates are repeated; the deciding attempt fixes each outcome and, unless the stream has stopped taking updates, leaves exactly its own text, or an untouched stream if it showed nothing |
| RemoteTree.VisitEntry | backend/src/harness_ssh_sidecar/manual_sftp/mutations.py:877-940 | The recursive visitor appends the whole subtree in visiting order, and raises exactly for more than 50000 entries or an invalid name |
| RemoteTree.SuffixInjective | backend/src/harness_ssh_sidecar/manual_sftp/paths.py:18-39 | Different places of a tree have different paths |
| RemoteTree.ScanDistinct | backend/src/harness_ssh_sidecar/manual_sftp/mutations.py:877-940 | A scan lists no path twice |
| RemoteTree.ManifestIsTree | backend/src/harness_ssh_sidecar/manual_sftp/mutations.py:869-967 | The manifest contains exactly the entries of the tree at their projected places |
| RemoteTree.OrderIsUnique | backend/src/harness_ssh_sidecar/manual_sftp/mutations.py:941-945 | An ordered entry list is determined by its members |
| RemoteTree.LessIff | backend/src/harness_ssh_sidecar/manual_sftp/mutations.py:941-945 | Paths are ordered like in a dictionary: a proper beginning first, else by the first difference |
| RemoteTree.ManifestCanonical | backend/src/harness_ssh_sidecar/manual_sftp/mutations.py:869-967 | Two manifests projected to one root are equal if and only if the trees agree in every place, type, size, mode, time and link target, whatever the actual roots and the orders of enumeration |
| RemoteFs.MovedTree | backend/src/harness_ssh_sidecar/manual_sftp/mutations.py:531-545 | After the rename the tree stands under the tombstone and nothing under the old root |
| RemoteFs.NextIsRemovable | backend/src/harness_ssh_sidecar/manual_sftp/mutations.py:592-611 | In the deletion order every directory is empty and every file is there when its turn comes |
| RemoteFs.DeepestFirstInOrder | backend/src/harness_ssh_sidecar/manual_sftp/mutations.py:592-600 | The deletion order is by descending number of slashes, then descending path |
| RemoteFs.RootIsLast | backend/src/harness_ssh_sidecar/manual_sftp/mutations.py:592-600 | The tombstone itself is deleted last |
| RecursiveDelete.DeleteEntries | backend/src/harness_ssh_sidecar/manual_sftp/mutations.py:592-636 | The loop deletes an exact beginning of the order, stops at the first request that is not confirmed, and empties the tombstone exactly if all requests but the last are served and the last one acts |
| RecursiveDelete.Execute | backend/src/harness_ssh_sidecar/manual_sftp/mutations.py:480-691 | For every stop of the process and every fate of the replies: which request is the last, what is recorded and whether the plan is consumed, when the tree moves and when all of it goes; nothing outside changes, what is left stands in one place, nothing goes unless the tree is the confirmed one, and a plan is executed once |
| RecursiveDelete.Inspect | backend/src/harness_ssh_sidecar/manual_sftp/recovery.py:87-115 | The inspection answers from the record and the presence of root and tombstone, and stores what it proved |
| RecursiveDelete.InspectTells | backend/src/harness_ssh_sidecar/manual_sftp/recovery.py:87-115 | For every recorded state: `succeeded` exactly if everything is gone and the record does not deny it, `failed` exactly if the tree is untouched or the record says so, a recovery exactly in between |
| RecursiveDelete.ExecuteThenInspect | backend/src/harness_ssh_sidecar/manual_sftp/recovery.py:87-115 | For every stop and every fate of the replies, the inspection afterwards is truthful exactly unless the last look at the emptied place timed out; then it answers `failed` |
| RecursiveDelete.LateTimeout | backend/src/harness_ssh_sidecar/manual_sftp/mutations.py:637-690 | The deletion of an empty directory whose last look is lost ends and is inspected as `failed` with nothing left |
| RecursiveDelete.RestoreUndoes | backend/src/harness_ssh_sidecar/manual_sftp/recovery.py:165-175 | Renaming the untouched tombstone back restores every entry exactly |
| RecursiveDelete.OldRecordTells | backend/src/harness_ssh_sidecar/manual_sftp/recovery.py:87-115 | After any continued deletion the unfinished old record is inspected as a recovery if the tombstone was not moved, and otherwise by the old root alone; it hides remaining entries exactly if they were moved and not all deleted |
| RecursiveDelete.ContinueDelete | backend/src/harness_ssh_sidecar/manual_sftp/recovery.py:155-164 | For every course of a continued deletion: when the old record answers `succeeded` although entries remain, and when it answers `failed` although everything is gone |
| RecursiveDelete.ContinuedDelete | backend/src/harness_ssh_sidecar/manual_sftp/recovery.py:155-164 | Both happen: the old record of an isolated directory answers `succeeded` after a refused continuation and `failed` after a completed one |
| RecursiveDelete.OnlyConfirmedTreeGoes | backend/src/harness_ssh_sidecar/manual_sftp/mutations.py:575-590 | The manifest comparison before the deletion holds exactly for the confirmed tree |
| Uploads.UploadManager.Begin | backend/src/harness_ssh_sidecar/manual_sftp/transfers.py:117-228 | A used identifier is refused; a start succeeds exactly for a target still as confirmed and a file exclusively created, and is empty then; any other is recorded as failed |
| Uploads.UploadManager.WriteChunk | backend/src/harness_ssh_sidecar/manual_sftp/transfers.py:230-287 | A chunk is accepted exactly at the expected number and offset, within both bounds, when it is written; a cancelled write leaves the upload active with an unknown file, anything else ends it |
| Uploads.UploadManager.CloseUpload | backend/src/harness_ssh_sidecar/manual_sftp/transfers.py:483-532 | A definite end is recorded only when handle, file and channel are gone |
| Uploads.UploadManager.Verify | backend/src/harness_ssh_sidecar/manual_sftp/transfers.py:289-345 | The upload is ready, closed or stuck behind an unhandled exception, exactly as the checks say, and its record and file are given for each; ready means that the stored bytes have the source's size and digest and the target is unchanged |
| Uploads.CheckMeans | backend/src/harness_ssh_sidecar/manual_sftp/transfers.py:289-345 | Each answer of the checks under exactly its condition; ready exactly if everything was received, the handle is closed, the stored file is as announced, and the target is as at the start |
| Uploads.UploadManager.CommitUpload | backend/src/harness_ssh_sidecar/manual_sftp/transfers.py:347-412 | One rename and the whole state after each of its four endings: confirmed, refused, unknown, or an exception that leaves the upload active |
| Uploads.UploadManager.Finish | backend/src/harness_ssh_sidecar/manual_sftp/transfers.py:289-412 | The whole state after every course of a finish; the target changes exactly if the checks pass and the rename is done, and then holds bytes of the source's size and digest; a complete upload that meets no failure and no change succeeds with its bytes at the target |
| Uploads.UploadManager.Abort | backend/src/harness_ssh_sidecar/manual_sftp/transfers.py:414-422 | A cancelled upload has left no temporary file |
| Uploads.UploadManager.Inspect | backend/src/harness_ssh_sidecar/manual_sftp/recovery.py:49-86 | Any upload that is not over, active or not, is stored as succeeded exactly by the target's digest, as failed exactly when neither file is there, and else left as it is |
| Uploads.MoveIsSound | backend/src/harness_ssh_sidecar/manual_sftp/transfers.py:117-532 | Every move of starts, chunks, stages, closings, commits, inspections, restarts and other users keeps each active upload equal to its accepted chunks, and its file there exactly unless it was renamed |
| Uploads.MoveKeepsIff | backend/src/harness_ssh_sidecar/manual_sftp/recovery.py:58-86 | For each of the three things an end on record should mean, the guard under which a single move breaks it: the file overlooked by an inspection, the end stored for an active upload, and `failed` or `cancelled` stored over a replaced target - by closing an upload whose file was renamed away, or inspecting one whose target was replaced again |
| Uploads.TargetsChangeOnlyVerified | backend/src/harness_ssh_sidecar/manual_sftp/transfers.py:347-400 | Only a commit of stored bytes with the source's size and digest, the accepted ones unless a write went wrong, changes a target |
| Uploads.RunIsSound | backend/src/harness_ssh_sidecar/manual_sftp/transfers.py:117-532 | In every run of these moves an active upload has counted exactly its accepted chunks, and its file, unless renamed, holds them unless a write went wrong |
| Uploads.RunGoesOn | backend/src/harness_ssh_sidecar/manual_sftp/transfers.py:117-532 | Whatever a method does prolongs a run by the moves it lists, so the results on runs are about any sequence of calls |
| Uploads.RuleHoldsIff | backend/src/harness_ssh_sidecar/manual_sftp/transfers.py:483-532 | Throughout a run an end on record means that no file is left, that the upload does not go on, and - `failed` or `cancelled` - that the target is not replaced, each if and only if no move met the guard that breaks it |
| Uploads.SuccessesAreTrue | backend/src/harness_ssh_sidecar/manual_sftp/transfers.py:386-400 | In every run, whenever a record comes to say `succeeded`, by a commit or an inspection, the target then holds bytes with the source's digest |
| Uploads.EndsStay | backend/src/harness_ssh_sidecar/manual_sftp/transfers.py:117-532 | Identifiers stay used, and without an inspection that stores an end for an active upload, what has ended stays as it ended |
| Uploads.OverlookedFile | backend/src/harness_ssh_sidecar/manual_sftp/recovery.py:58-76 | It happens: the target already has the content, a misplaced chunk ends the upload, its file cannot be removed, and the inspection stores `succeeded` |
| Uploads.PreemptedUpload | backend/src/harness_ssh_sidecar/manual_sftp/recovery.py:58-76 | It happens: an active upload onto its own content is inspected as succeeded and cancelled afterwards |
| Uploads.DeniedReplacement | backend/src/harness_ssh_sidecar/manual_sftp/transfers.py:364-422 | It happens: after a rename done behind an exception, a second finish and a stray chunk each record `failed`, and the shutdown `cancelled`, over the replaced target |
| Listings.ReadBatch | backend/src/harness_ssh_sidecar/manual_sftp/listings.py:150-210 | One batch is the next 200 entries, or all that are left, or the limit error after looking past the 50000th |
| Listings.ListingManager.Begin | backend/src/harness_ssh_sidecar/manual_sftp/listings.py:53-95 | The first batch starts the sequence and keeps a cursor only while more may come |
| Listings.ListingManager.Next | backend/src/harness_ssh_sidecar/manual_sftp/listings.py:97-123 | Only the expected number gets the next batch; any other closes the cursor |
| Listings.ListDirectory | backend/src/harness_ssh_sidecar/manual_sftp/listings.py:53-210 | Batches put together are the entries in order, n / 200 + 1 of them for n up to 50000; the limit error comes exactly for more, after 250 full batches |

## Left out

- One conversation's tables are modelled; identifiers are numbers, run start times are the order of the runs, and attachments are compared as lists without their binding to drafts.
- Token estimates, budgets and the tokenizer are booleans of the environment; provider requests yield arbitrary snapshots, calls and failures.
- ConversationHistory.StepKeepsInv: takes distinct call identifiers from the model, non-empty as the gateway makes them; `AssistantKeepsInvIff` says what happens otherwise.
- CommandPolicy.ScanIff: the letters and digits beyond ASCII that may stand in quotes are a parameter, and so is the fixed pattern of dangerous commands.
- CommandPolicy.ShellReadsTokens: the shell model reads operators character by character; assignments, reserved words and aliases are not part of it.
- ReactSafety.StepKeepsInv: a node that raises is the action `Fail` between two transactions; queues, timeouts and the checkpointer of the graph library are not modelled.
- ReactSafety.CallsFollowProtocol: speaks about calls that returned, while `ReactStream.MadeObeys` also covers calls that raise; a failing `started` call ends the run without a stream.
- StreamClient.AcceptEvents: HTTP headers, aborts and interrupted reads are left out; decoding UTF-8 across chunk boundaries is, too, and frames are cut into chunks of characters.
- StreamReader.ReadsBack: the client's identifiers are numbered by a parameter that undoes their printing; the response's request identifier is the one the events name.
- CompactJson.PrintRoundTrip: the reader knows strings, natural numbers, null and objects without blanks, and no surrogate escapes.
- Snapshots.InvokeAttempts: the parsers that assemble snapshots from provider chunks are arbitrary lists of snapshots here; a cancellation between two pieces of one snapshot appears as a stream that takes no more updates.
- RemoteTree.ManifestCanonical: the digest is taken to be collision-free, so manifests are compared themselves; roots are written without a trailing slash, and aliases such as doubled slashes are left out.
- RecursiveDelete.Execute: one client acts on the tree; progress events, time limits and the cross-device error are not distinguished from other refusals; a record that was inspected before its plan is executed is not modelled.
- RecursiveDelete.ContinueDelete: the preflight and the execution see the same tree, and the new tombstone's name is not the old root's.
- Uploads.UploadManager.Begin: temporary files have their own name space, one per operation, and a start whose reply was lost may leave one behind although the operation is recorded as failed.
- Uploads.UploadManager.Finish: modification times of targets are not modelled, what is read back is what is stored, and calls on one upload do not overlap.
- Uploads.UploadManager.WriteChunk: what a file holds after a failed or abandoned write, and after later writes to it, is arbitrary.
- Uploads.UploadManager.Inspect: a look that raises changes nothing and is left out, as is deleting a temporary file on request.
- Listings.ListDirectory: entries that cannot be decoded end a listing with an error and are not modelled.
- Downloads, `mkdir`, `rename` and `remove` as operations of their own, recovery actions other than restoring and continuing a deletion, and the loop that closes all uploads at shutdown would only add simpler members.
- The HTTP routes, the dispatcher, credentials, host keys, image handling, the user interface and the launcher's process handling are not part of this model.
