# A model of the agent core, with proofs

This project models the stateful parts of the agent in Dafny and proves what their code promises:
the language-server wire layer, the conversation turn loop with its event stream, the execution of
tool calls and the verification gate, the team task scheduler, and the stores of the chat
application (notepad, answer clean-up, plan cell). `dafny verify dfyconfig.toml` verifies all of it.

Objects that the code updates in place are classes with the same fields, and each of their methods
is proved against a function of the old state. What that function promises is proved as lemmas over
all inputs, all runs and all environments. Where a promise does not hold for every input, the
module gives an input that breaks it and the exact condition under which it holds.

| file | component |
|---|---|
| `Options.dfy`, `Text.dfy` | optional values; `indexOf`, `trim`, white-space collapsing, `join`, and lemmas about them |
| `LspFrames.dfy` | "Base Protocol" frames of the Language Server Protocol Specification 3.17: incremental parser and printer |
| `LspHeaders.dfy` | headers that the other side has written |
| `LspRequests.dfy` | the table of pending requests, as in sections 4 and 5 of JSON-RPC 2.0, with its timers |
| `LspPipeline.dfy` | the message pipeline object over both |
| `LspDocuments.dfy` | open documents and their versions ("Text Document Synchronization") |
| `Fingerprint.dfy` | the fingerprint that detects a repeated batch of tool calls |
| `TurnLoop.dfy` | the bounded loop of one conversation turn, against any environment |
| `TurnStops.dfy` | why a turn stops, told by the environment and the history |
| `AsyncQueue.dfy`, `EventStream.dfy`, `StreamReader.dfy` | the queue behind the stream, the grammar of the stream, and what can be read from it |
| `ToolScheduling.dfy` | tool calls: preparing, invoking and finalising, one by one |
| `ToolResults.dfy` | what the result of a call says of it |
| `ToolInterleaving.dfy` | a batch of parallel-safe calls under way, and when all its interleavings agree |
| `ToolOrchestrator.dfy`, `ToolPreparation.dfy` | the loops over the calls, and preparing all of them first |
| `FileReads.dfy` | the file tools, whose reads write a shared record, as an instance |
| `VerificationGate.dfy`, `GateEvidence.dfy` | the scan of the tool history against a constant-size automaton, the gate, and what counts as evidence |
| `TeamScheduler.dfy` | rounds of tasks over any dependency graph |
| `Notepad.dfy`, `NotepadFrame.dfy`, `NotepadLog.dfy` | the notepad as a record of sections, what a write does to the other sections, and the bounded log inside it |
| `ResponseCleanup.dfy` | the greedy filter of repeated blocks |
| `WorkflowState.dfy` | the plan that one turn records and the next one may use |

## How the outside world enters

- Provider, tools, verification runtime, hooks, clocks and the file system are parameters: an
  environment of the turn loop, a `Tools` record, an outcome oracle, a clock reading. The theorems
  are about all of them. Assumptions about them are named predicates (`Ends`, `BatchesCommute` for the
  state at hand or `BatchPairsCommute` call by call, `PreparesCommute`, `RecordsOnce`, `LogsGrow`, `Honest`,
  `TotalPreorder`, `IgnoresEndSpace`) and appear in the statements.
- Timers, late responses and transport failures are explicit steps, so that every interleaving is covered.
- Tool tables and regular expressions of the gate are arbitrary classifiers.
- Texts are sequences of Unicode scalar values where the code counts UTF-16 units; frames are sequences of bytes.

## Where the code falls short of what one would expect

- `AsyncQueue.CarriesExactlyDefined`: a buffered `undefined` is dropped by `next()`; the queue carries exactly the other values.
- `Fingerprint.KeyOrderIgnoredExactly`: object keys that `localeCompare` treats as equal keep their
  written order, so the fingerprint ignores key order exactly for orders without ties;
  `Fingerprint.UnreadableBatchesCollide`: arguments that are not JSON, and names with a `:`, let one call read as two;
  `Fingerprint.TrimmedRawTextCollides`: raw text that `JSON.parse` rejects can be trimmed to the print of a value.
- `LspFrames.StuckForever`: a bad header is never removed from the buffer, and every later chunk fails too.
- `TeamScheduler.EndsExactlyForPositiveLimit`: with a parallel limit below one the loop need not end.
- `TurnLoop.MissingToolCallsComplete`: finish reason `tool_calls` without tool calls completes the turn past
  the verification blocker and the runtime's completion blocker.
- `FileReads.MixedReadsDecideWrite`: a file read in full and by lines in one batch can then be written or not,
  whichever read ends last; `FileReads.ReadsAgreeExactly` tells exactly when a batch of reads is not a race.
- `FileReads.PreparingFirstDecidesWrite`: whether a write needs to be asked for is decided before a read of the same
  file in front of it has run.
- `VerificationGate.UnverifiedWriteLetGoExactly`: a batch that asks for no evaluation clears the blocker of an unverified write.
- `LspDocuments.RunKeepsProtocolExactly`, `LspDocuments.SecondTransportBreaksProtocol`: two overlapping starts can send
  a change for a document the second server never opened;
  `LspDocuments.EditHidesItsText`: a text written by `workspace/applyEdit` is not sent by the next sync;
  `LspDocuments.DeadTransportIsNoticedOnce`: on a dead transport only the first sync of a text fails.
- `WorkflowState.StoppedPlanIsApproved`: a planning turn that was stopped, after too many turns, say, or by the user,
  approves its goal like one that completed; `WorkflowState.FinishesExactly` tells which endings do not.
- `Notepad.GetAfterPut`, `Notepad.PutPut`, `NotepadLog.WriteKeepsLog`: text with lines that look like headers breaks
  the record and the log; the conditions on the text are exact. `NotepadFrame.KeepsSectionExactly` and
  `NotepadFrame.FrameExactly` tell exactly which documents and which texts leave another section alone.

## Model

| member | source | states |
|---|---|---|
| LspFrames.ChunkingDoesNotMatter | src/core/agent/lsp-rpc-pipeline.ts:55-80 | for every stream and every split into chunks: delivered payloads, leftover and thrown error are those of the whole stream fed at once |
| LspFrames.StreamIsFramesThenLeftover | src/core/agent/lsp-rpc-pipeline.ts:55-80 | no byte is lost or moved: the stream is the delivered frames, each with a header that ends at the first delimiter and states the payload's length, then a leftover that holds no complete frame |
| LspFrames.NextFrameExtends | src/core/agent/lsp-rpc-pipeline.ts:58-77 | bytes that arrive later change neither a frame already complete nor a header already bad |
| LspFrames.NextFrame | src/core/agent/lsp-rpc-pipeline.ts:58-77 | a frame removes at least four bytes, so the consuming loop ends |
| LspFrames.StuckForever | src/core/agent/lsp-rpc-pipeline.ts:64-68 | after a bad header nothing is ever delivered again, whatever arrives |
| LspFrames.FrameRoundTrip | src/core/agent/lsp-rpc-pipeline.ts:90-98 | a printed frame is parsed back whatever its payload holds (delimiters and header text included) and whatever follows |
| LspFrames.FramesRoundTrip | src/core/agent/lsp-rpc-pipeline.ts:55-98 | any payloads, printed and received in any chunks, come out as they went in, with an empty buffer |
| LspFrames.PrefixDelivered | src/core/agent/lsp-rpc-pipeline.ts:55-98 | before the whole printed stream has arrived, what is delivered is a prefix of what was sent, and no error is thrown |
| LspFrames.HeaderRoundTrip | src/core/agent/lsp-utils-config.ts:5-11 | the printed header of every length is parsed back to that length |
| LspFrames.DecimalRoundTrip | src/core/agent/lsp-utils-config.ts:10-10 | decimal printing gives digits only, and parsing them gives the number back |
| LspHeaders.LengthExactly | src/core/agent/lsp-utils-config.ts:5-11 | for every header: its length is what the first field that states one states, told by how a field is put together (name in either case, white space in UTF-8, leading zeros, digits); without such a field there is none |
| LspHeaders.FieldTellsLength | src/core/agent/lsp-utils-config.ts:5-11 | whatever stands before the field without holding its name, and whatever after it that begins with no digit: the length is the number in the field |
| LspHeaders.NoFieldNoLength | src/core/agent/lsp-utils-config.ts:5-11 | a header that does not hold the name of the field has no length |
| LspHeaders.OtherHeadersAreDelivered | src/core/agent/lsp-rpc-pipeline.ts:55-80 | a frame with other header lines before and after the field is delivered, whatever its payload holds |
| LspHeaders.DecimalDigits | src/core/agent/lsp-utils-config.ts:10-10 | a printed decimal ends with its last digit, and what stands before that is the decimal of the tens |
| LspRequests.RunConsistent | src/core/agent/lsp-rpc-pipeline.ts:100-140 | under every interleaving of sends, failed sends, responses, timeouts and reject-all: pending requests are the armed timers, and every issued id is either pending or settled exactly once |
| LspRequests.OnlyWaitingRequestsAreAnswered | src/core/agent/lsp-rpc-pipeline.ts:173-192 | an event leaves the table as it is exactly if it sends nothing and answers no pending request: late, duplicate and unknown responses change nothing |
| LspRequests.EveryRequestMeetsItsFate | src/core/agent/lsp-rpc-pipeline.ts:100-192 | the outcome of every request is the first event after its sending that answers it, told without a table; it is pending exactly as long as there is none |
| LspRequests.SettledForGood | src/core/agent/lsp-rpc-pipeline.ts:134-192 | no later event changes the outcome of a settled request |
| LspRequests.RepliesSettle | src/core/agent/lsp-rpc-pipeline.ts:173-192 | after every run: a result resolves the pending request with its value, and an error refuses it with its code and message |
| LspRequests.OutcomesHaveTheirCause | src/core/agent/lsp-rpc-pipeline.ts:100-192 | conversely a request is resolved only by a result for it, refused only by an error, timed out only by its own timer and named by its own method |
| LspRequests.RejectFromSettles | src/core/agent/lsp-rpc-pipeline.ts:134-140 | rejecting settles exactly the requests that were pending and keeps every earlier outcome |
| LspPipeline.LspRpcMessagePipeline.HandleIncomingChunk | src/core/agent/lsp-rpc-pipeline.ts:55-80 | the loop over the buffer computes the drained stream, and queues the messages that parse in order |
| LspPipeline.LspRpcMessagePipeline.TakeFrame | src/core/agent/lsp-rpc-pipeline.ts:59-77 | takes the next frame off the buffer, or leaves the buffer as it is |
| LspPipeline.LspRpcMessagePipeline.HandleIncomingPayload | src/core/agent/lsp-rpc-pipeline.ts:146-162 | a payload that does not parse is dropped, another one is queued |
| LspPipeline.LspRpcMessagePipeline.SendRaw | src/core/agent/lsp-rpc-pipeline.ts:90-98 | writes one frame, exactly if a transport is attached and writable |
| LspPipeline.LspRpcMessagePipeline.SendRequest | src/core/agent/lsp-rpc-pipeline.ts:100-132 | takes a new id, arms a timer and sends; a failed send settles the request at once |
| LspPipeline.LspRpcMessagePipeline.TimerFires | src/core/agent/lsp-rpc-pipeline.ts:105-108 | a timer that is still armed settles its request, another one changes nothing |
| LspPipeline.LspRpcMessagePipeline.RejectAllPending | src/core/agent/lsp-rpc-pipeline.ts:134-140 | settles every pending request and leaves none |
| LspPipeline.LspRpcMessagePipeline.RouteIncomingMessage | src/core/agent/lsp-rpc-pipeline.ts:164-171 | a message with an id and no method settles a request, any other goes to the client |
| LspPipeline.LspRpcMessagePipeline.ResolvePendingResponse | src/core/agent/lsp-rpc-pipeline.ts:173-192 | a response is one step of the request table |
| LspPipeline.LspRpcMessagePipeline.DrainMessages | src/core/agent/lsp-rpc-pipeline.ts:142-162 | routes the whole queue in order: responses run the request table, the other messages are handed on |
| LspPipeline.RoutedExactly | src/core/agent/lsp-rpc-pipeline.ts:164-171 | each message goes one way, in order: one with an id and no method to the request table, any other to the client |
| LspPipeline.LspRpcMessagePipeline.ClearTransport | src/core/agent/lsp-rpc-pipeline.ts:50-53 | forgets the output and the buffer |
| LspDocuments.EveryConnectionFollowsProtocol | src/core/agent/lsp-client.ts:437-484 | over every run in which no transport is started while documents are tracked: a document is opened once, before any change, and its versions increase |
| LspDocuments.StepKeepsProtocolExactly | src/core/agent/lsp-client.ts:164-206 | a step leaves a client whose notifications will follow the protocol whatever happens on the connection such a client, exactly if it does not start a transport while documents are tracked |
| LspDocuments.RunKeepsProtocolExactly | src/core/agent/lsp-client.ts:107-206 | over every run: every connection is bound to follow the protocol exactly if no transport is started while documents are tracked |
| LspDocuments.SafeExactly | src/core/agent/lsp-client.ts:437-484 | for every client: all continuations on its connection follow the protocol exactly if client and server have the same documents open, none newer on the server |
| LspDocuments.SecondTransportBreaksProtocol | src/core/agent/lsp-client.ts:107-112 | two overlapping starts: for every document and every two texts the second server is told of a change in a document it never opened |
| LspDocuments.RunKeepsMirror | src/core/agent/lsp-client.ts:437-484 | over every run without edits by the server: while it can be told, the server's replayed documents are the tracked ones, version and text |
| LspDocuments.SyncedTextReachesServer | src/core/agent/lsp-client.ts:437-484 | so after each sync on a working transport the server's text is the text just read |
| LspDocuments.SyncedTextReachesServerExactly | src/core/agent/lsp-client.ts:463-484 | for every run, edits and overlapping starts included: the server has the text just read exactly unless the client had already seen that text in the file and what it last told the server on this connection is another |
| LspDocuments.ServerHasWhatItWasTold | src/core/agent/lsp-client.ts:437-484 | for every run: the server's text of a file is that of the last sync that sent something on this connection, told from the events without versions and without a log |
| LspDocuments.EditHidesItsText | src/core/agent/lsp-client.ts:597-609 | after an edit the next sync reaches the server exactly if it reads another text than the edit left |
| LspDocuments.DeadTransportIsNoticedOnce | src/core/agent/lsp-client.ts:443-461 | on a dead transport a second sync of the same text neither fails nor sends anything |
| LspDocuments.SyncFailsExactly | src/core/agent/lsp-client.ts:437-484 | a sync fails exactly if it has tracked something new and told the server nothing |
| LspDocuments.VersionsCount | src/core/agent/lsp-client.ts:443-480 | a file is tracked from version 1 on, and each text read anew and each edit makes one more of it |
| LspDocuments.StdioLanguageServerClient.SyncDocument | src/core/agent/lsp-client.ts:437-484 | tracks the text read, sends the notification that is due, fails exactly if it cannot, and stays in step |
| LspDocuments.StdioLanguageServerClient.ApplyWorkspaceEdit | src/core/agent/lsp-client.ts:595-609 | the loop over the edited files moves the tracked documents, one after the other, without a word to the server |
| LspDocuments.StdioLanguageServerClient.SendNotification | src/core/agent/lsp-client.ts:620-622 | sends, or fails on a transport that cannot be written |
| LspDocuments.StdioLanguageServerClient.StartTransport | src/core/agent/lsp-client.ts:194-206 | a new connection, in step exactly if nothing is tracked |
| LspDocuments.StdioLanguageServerClient.Close | src/core/agent/lsp-client.ts:164-192 | forgets documents and transport, and does nothing without a transport |
| Fingerprint.StringifyDecidesMeaning | src/application/chat/conversation-engine.ts:1036-1049 | for total key orders without ties: two values print alike exactly if they are equal up to the order of object keys |
| Fingerprint.FingerprintDecodes | src/application/chat/conversation-engine.ts:903-907 | whatever the key order, a fingerprint stands for one batch only: same names in the same order, same arguments |
| Fingerprint.FingerprintDecidesBatch | src/application/chat/conversation-engine.ts:903-907 | two batches get the same fingerprint exactly if they are the same calls |
| Fingerprint.SingleCallDecides | src/application/chat/conversation-engine.ts:903-907 | for batches of one call, arguments that are not JSON included: the same fingerprint exactly if they have the same name and the same trimmed raw text or the same value, or the trimmed raw text of one is the print of the other's value |
| Fingerprint.TrimmedRawTextCollides | src/application/chat/conversation-engine.ts:1024-1034 | a no-break space before `{}` is no JSON, and is trimmed away: the call has the fingerprint of one without arguments |
| Fingerprint.KeyOrderIgnoredExactly | src/application/chat/conversation-engine.ts:1042-1045 | the fingerprint ignores key order for all batches exactly if no two keys compare as equal |
| Fingerprint.TiesShow | src/application/chat/conversation-engine.ts:1042-1045 | any two different keys that compare as equal give two prints of one object |
| Fingerprint.UnreadableBatchesCollide | src/application/chat/conversation-engine.ts:1024-1034 | arguments that are not JSON, or a name with a colon, collide with another batch |
| Fingerprint.SortEntries | src/application/chat/conversation-engine.ts:1043-1044 | sorting keeps the entries |
| Fingerprint.SortSorted | src/application/chat/conversation-engine.ts:1043-1044 | the sorted entries are in key order, and no key is lost or doubled |
| Fingerprint.SortKeepsMeaning | src/application/chat/conversation-engine.ts:1042-1045 | sorting does not change the object that the entries stand for |
| Fingerprint.ValueDecodes | src/application/chat/conversation-engine.ts:1036-1049 | the printed form is uniquely decodable in front of any delimiter: equal texts give equal values and equal rests |
| Fingerprint.EscapeCharDecodes | src/application/chat/conversation-engine.ts:1044-1048 | the escapes of JSON strings are uniquely decodable |
| Fingerprint.EscapeIsRead | src/application/chat/conversation-engine.ts:1044-1048 | what is printed for a character is read as that character by section 7 of RFC 8259, and only control characters, quotes and backslashes are escaped |
| Fingerprint.NumbersArePrintable | src/application/chat/conversation-engine.ts:1048-1048 | every number of section 6 of RFC 8259 is among the numbers that the theorems cover |
| TurnLoop.EveryRunKeepsItsBudgets | src/application/chat/conversation-engine.ts:183-422 | over every run: at most the allowed requests and tool calls, the counter is the number of calls in accepted batches, neighbouring accepted batches and neighbouring held answers have different fingerprints |
| TurnLoop.EveryRequestIsInTime | src/application/chat/conversation-engine.ts:190-236 | over every run: the provider is asked only in turns that are not cancelled, within the wall time and not forced to stop, one request a turn from the first on |
| TurnLoop.NoBatchIsRepeated | src/application/chat/conversation-engine.ts:245-255 | over every run: the tools are never handed the same calls twice in a row, recovery calls included, however the arguments are written |
| TurnLoop.CompletedRun | src/application/chat/conversation-engine.ts:398-412 | a completing run ends in an answer that no blocker held back |
| TurnLoop.CompletedOnlyUnblocked | src/application/chat/conversation-engine.ts:236-412 | a run completes only if the latest tool follow-up reported no blocker and the runtime has none |
| TurnLoop.AnswerCompletes | src/application/chat/conversation-engine.ts:236-412 | an answer completes the run exactly if it hands over no tool calls and nothing holds it back |
| TurnLoop.BlockerStaysInForce | src/application/chat/conversation-engine.ts:236-320 | over every run: a blocker that is in force after any number of iterations stays in force through every stretch of turns without tool calls, and such a stretch does not complete the run |
| TurnLoop.BlockedRunDoesNotComplete | src/application/chat/conversation-engine.ts:236-412 | if no tool is called any more once a blocker is in force, the run ends without completing |
| TurnLoop.HeldOnce | src/application/chat/conversation-engine.ts:296-320 | one text turn under a blocker is held or ends the run, and the blocker stays |
| TurnLoop.MissingToolCallsComplete | src/application/chat/conversation-engine.ts:236-241 | an answer with finish reason `tool_calls` completes past the verification blocker and the runtime's completion blocker exactly if it carries no tool calls and no blocker for answers without tools is set |
| TurnStops.IterationStopsExactly | src/application/chat/conversation-engine.ts:190-412 | an iteration stops the run with exactly the reason that holds, for each of the eleven reasons, told by what the environment answers and what has happened before; a wanted batch, a recovery call included, that differs from the last one and fits is accepted |
| TurnStops.EveryRunStopsExactly | src/application/chat/conversation-engine.ts:189-422 | every run goes on as long as no reason holds and turns are left, and ends with the reason that holds first |
| TurnStops.HarmEndsTheRun | src/application/chat/conversation-engine.ts:268-292 | over every run: it ends with a denied permission exactly if a batch it accepted had a denied follow-up, with a tool error exactly if the tools of one threw, with a provider error exactly if the provider failed; nothing is requested, accepted or held after that |
| TurnStops.SameContinuation | src/application/chat/conversation-engine.ts:836-878 | for one blocker two answers are the same exactly up to white space, and for one answer two blockers are |
| TurnLoop.BatchKeeps | src/application/chat/conversation-engine.ts:245-292 | handing over a batch keeps the budgets and the link between the loop's variables and its history |
| TurnLoop.HoldKeeps | src/application/chat/conversation-engine.ts:836-878 | so does holding back an answer |
| TurnLoop.RunKeeps | src/application/chat/conversation-engine.ts:189-422 | so does a whole run |
| TurnLoop.Run | src/application/chat/conversation-engine.ts:189-422 | every run stops |
| TurnLoop.HandToTools | src/application/chat/conversation-engine.ts:245-293 | duplicate detection, budget, counting and the follow-up, step by step, are the specified transition |
| TurnLoop.HandleAnswer | src/application/chat/conversation-engine.ts:236-412 | so is what happens once the provider has answered |
| TurnLoop.RunIteration | src/application/chat/conversation-engine.ts:190-412 | so is one iteration |
| TurnLoop.ExecuteConversationTurn | src/application/chat/conversation-engine.ts:169-422 | the loop computes the run that the theorems are about |
| AsyncQueue.QueueRefinesSpec | src/application/chat/conversation-engine.ts:117-161 | from a fresh queue, for every order of pushes, calls and close: the i-th call gets the i-th value pushed before close, or done, or waits; values and waiters are never both there, and close strands nobody |
| AsyncQueue.RunRefines | src/core/agent/agent-provider.ts:38-83 | the refinement holds from every reachable state on |
| AsyncQueue.CarriesExactlyDefined | src/application/chat/conversation-engine.ts:146-149 | the queue carries a value in every use exactly if it is not `undefined` |
| AsyncQueue.UndefinedIsLost | src/application/chat/conversation-engine.ts:146-149 | a buffered `undefined` is dropped |
| AsyncQueue.AsyncEventQueue.PushValue | src/application/chat/conversation-engine.ts:122-134 | gives the value, `undefined` included, to the first waiter or buffers it, and is ignored once closed |
| AsyncQueue.AsyncEventQueue.CloseQueue | src/application/chat/conversation-engine.ts:136-141 | the loop over the waiters answers all of them with done |
| AsyncQueue.AsyncEventQueue.NextValue | src/application/chat/conversation-engine.ts:143-160 | answers with a buffered value, or done, or waits |
| EventStream.EveryStreamMatches | src/application/chat/conversation-engine.ts:474-787 | the stream of every turn matches the grammar: session, user message, thinking, a body with at most one assistant start that precedes every delta, then completion and done, or error and error status |
| EventStream.OneTerminalStatus | src/application/chat/conversation-engine.ts:755-783 | a stream that matches has exactly one terminal status, at its end |
| EventStream.NothingLost | src/application/chat/conversation-engine.ts:565-715 | the body is what the callbacks reported, in order, apart from the assistant start and the deltas that repetition detection suppresses |
| StreamReader.StreamIsRead | src/application/chat/conversation-engine.ts:503-787 | from every stream can be read: whether the session was resumed, the user's message, every callback that shows with all its arguments and in order, and the response or the error, with the stop reason |
| StreamReader.LoopsBackExactly | src/application/chat/conversation-engine.ts:578-592 | a text loops back exactly if it has more than 2000 characters and its last 300 stand together somewhere in its first 1200 |
| EventStream.ConversationTurnStream.EmitRecord | src/application/chat/conversation-engine.ts:474-484 | an event is recorded in the session and pushed to the queue |
| EventStream.ConversationTurnStream.EnsureAssistantStarted | src/application/chat/conversation-engine.ts:485-501 | emits the assistant start once |
| EventStream.ConversationTurnStream.HandleCallback | src/application/chat/conversation-engine.ts:566-715 | emits the events of one callback |
| EventStream.ConversationTurnStream.EmitTurn | src/application/chat/conversation-engine.ts:503-784 | a turn emits exactly its stream |
| EventStream.ConversationTurnStream.RunTurn | src/application/chat/conversation-engine.ts:503-787 | a turn pushes exactly its stream and then closes the queue; what comes later is recorded and not pushed |
| EventStream.ConversationTurnStream.HandleLateCallbacks | src/application/chat/conversation-engine.ts:471-474 | callbacks after the close are recorded but reach no reader |
| ToolOrchestrator.RunToolOrchestrator | src/application/chat/tool-orchestrator.ts:136-209 | preparing all calls in order, invoking maximal parallel-safe runs in any interleaving and finalising in order gives the results, the session and the workspace of one-by-one execution of the prepared calls, if in each batch the actions that can come next commute; preparing, invoking and finalising may all write to the workspace |
| ToolOrchestrator.ExecuteAgentToolCalls | src/core/agent/agent-tool-execution.ts:96-131 | the same for the agent's own loop |
| ToolOrchestrator.RunPrepared | src/application/chat/tool-orchestrator.ts:168-199 | the loop over the prepared calls, for any way of collecting results |
| ToolOrchestrator.RunBatch | src/application/chat/tool-orchestrator.ts:170-195 | a parallel batch and its finalisation, each call from its own snapshot, is the one-by-one execution of its calls |
| ToolOrchestrator.InvokeBatch | src/application/chat/tool-orchestrator.ts:177-179 | whatever order the steps of the invocations take, they end, the session is untouched, and finalising from where they end gives what one-by-one completion gives |
| ToolOrchestrator.PairsMakeBatches | src/core/agent/agent-tool-execution.ts:253-261 | from every state: batches run as one by one if the steps of any two calls of a batch commute, and a step commutes with finalising an earlier call |
| ToolOrchestrator.ReadOnlyBatches | src/core/agent/agent-tool-execution.ts:253-261 | so it is, in particular, for calls that only read, and do not read what finalising another call of their batch writes |
| ToolOrchestrator.Prepare | src/application/chat/tool-orchestrator.ts:156-166 | the calls are prepared in order, each in the workspace and session that the one before it left |
| ToolOrchestrator.EndOfRun | src/application/chat/tool-orchestrator.ts:171-175 | the run is maximal: all its calls are parallel-safe and the next one is not |
| ToolOrchestrator.InvokePrepared | src/core/agent/agent-tool-execution.ts:294-328 | one invocation, step by step, gives its result |
| ToolOrchestrator.InvokeAndFinalize | src/application/chat/tool-orchestrator.ts:259-273 | one call on its own: snapshot, invocation unless blocked, finalisation, which may change the workspace |
| ToolInterleaving.SchedulesAgreeExactly | src/application/chat/tool-orchestrator.ts:170-195 | for every batch in every state: all schedules of steps and finalisations end with the same results, session and workspace, after the same number of actions, exactly if swapping two neighbouring actions never changes what one-by-one completion gives |
| ToolInterleaving.AnyActionFirst | src/application/chat/tool-orchestrator.ts:177-179 | then any action that can come first may: completing afterwards gives the same, with one action less to go |
| ToolInterleaving.CommutingIsOneByOne | src/application/chat/tool-orchestrator.ts:170-195 | if actions commute in every state that a batch can reach, all its schedules agree, and with one-by-one execution |
| ToolInterleaving.PairsDecide | src/core/agent/agent-tool-execution.ts:253-261 | pairs of calls that commute make batches whose actions commute |
| ToolInterleaving.OneStepCallsAgreeExactly | src/application/chat/tool-orchestrator.ts:177-179 | calls of one step each: the invocations of all batches, in all workspaces and all orders, agree exactly if any two of the calls give the same results and leave the same workspace in either order |
| ToolPreparation.PreparingFirstIsCallByCall | src/application/chat/tool-orchestrator.ts:156-199 | preparing all calls first gives what preparing each in its turn gives, if running a call never disturbs how a later one is prepared |
| FileReads.ReadsAgreeExactly | src/core/agent/tools/file-tools.ts:346-431 | however a batch of file reads is interleaved, results, session and shared read record are the same, exactly if no file is recorded both in full and in part; told from the calls and the files before the batch runs |
| FileReads.FileTurnsCommute | src/core/agent/tools/tool.ts:168-176 | every turn of file reads and writes meets what the loops ask for, if in one batch each file is asked for by line range by all calls that name it or by none |
| FileReads.MixedReadsDecideWrite | src/core/agent/tools/tool.ts:185-208 | a read in full, a read by lines, a write: one by one the write is refused, but it goes through if the read by lines ends first |
| FileReads.PreparingFirstDecidesWrite | src/core/agent/agent-tool-execution.ts:181-193 | a read, then a write of the same file: prepared first, the write is granted as for an unread file; prepared in its turn, as for a read one |
| FileReads.WriteExactly | src/core/agent/tools/file-tools.ts:507-524 | a write goes through exactly if it is granted and its file is new, or was read in full and still has its size and its time to a millisecond |
| FileReads.ReadExactly | src/core/agent/tools/file-tools.ts:346-431 | a read on its own: it fails for a missing file, a directory, a text of more than 65536 bytes asked for in full, lines that end before they begin, or a reading that throws, in this order, and records nothing then; otherwise it gives what was read and records it as full unless lines of a text were asked for |
| FileReads.NewFilesPrepareFirst | src/core/agent/agent-tool-execution.ts:400-415 | preparing all calls first makes no difference if no call writes a file that an earlier one names |
| ToolScheduling.BlockedCallsAreNeverInvoked | src/application/chat/tool-orchestrator.ts:263-265 | environments that differ only in what blocked calls would do give the same outcome |
| ToolScheduling.EachResultHasItsOwnEntry | src/application/chat/tool-orchestrator.ts:275-287 | result i belongs to call i and carries the history entry that its own call recorded, while it was invoked or finalised, with its success; the history grows by these entries in order |
| ToolResults.EveryResultTellsItsCall | src/application/chat/tool-orchestrator.ts:275-383 | for every call of every run, told from the session at its snapshot and once it is finalised: ok exactly if its own entry succeeded, denied exactly if its final result was, command and file deltas are what was appended, its messages are its own tool messages in order, its output the last of them or what stands in for it, and its checkpoint the last rollback point |
| ToolResults.EveryCallIsAnswered | src/application/chat/tool-orchestrator.ts:280-287 | after a run every call has a tool message of its own in the session, unless there is nothing to say, if calls only add to the logs |
| VerificationGate.ScanIsAutomaton | src/application/chat/verification-gate.ts:69-111 | for every history: scanning and slicing it gives the flags of a constant-size automaton stepped once per entry |
| VerificationGate.ScanAppend | src/application/chat/verification-gate.ts:83-110 | one more entry moves the scanned flags as the automaton moves |
| VerificationGate.FindLastIndex | src/application/chat/verification-gate.ts:378-386 | the loop finds the last position where the predicate holds, or -1 if there is none |
| VerificationGate.LastIndex | src/application/chat/verification-gate.ts:378-386 | that position |
| VerificationGate.BlockedExactly | src/application/chat/verification-gate.ts:92-181 | an evaluated gate blocks exactly if the runtime blocks, or the last write is unverified and the runtime did not pass, or a debug fix wrote without an earlier reproduction; an unevaluated one never does |
| VerificationGate.BlockerExactlyWhenBlocked | src/application/chat/verification-gate.ts:174-180 | a blocked gate hands over a non-empty blocker and a signal that says so, an unblocked one no blocker |
| GateEvidence.GateExactly | src/application/chat/verification-gate.ts:63-291 | for every history with its last write: the gate evaluates exactly if somebody wants verification and the batch, or a pending write, asks for it; it blocks exactly with these demands, in this order: the runtime's report, an unverified write, a debug fix without reproduction; told from names, outcomes and texts |
| GateEvidence.GateSays | src/application/chat/verification-gate.ts:184-272 | what the gate adds after what the runtime has said: every demand, each once and nothing else, or that the write is verified, if the batch has shown so without the runtime |
| GateEvidence.SignalExactly | src/application/chat/verification-gate.ts:327-351 | the recorded signal holds what was added, on single lines with bars between them; the demands only where nothing else was said |
| GateEvidence.PassExactly | src/application/chat/verification-gate.ts:392-409 | an entry verifies exactly unless it failed, is neither a command nor diagnostics, shows a failure, is no verification command, or is diagnostics without a pass |
| GateEvidence.ReproductionExactly | src/application/chat/verification-gate.ts:411-425 | an entry shows the failure exactly unless it is neither a command nor diagnostics, a successful command without a sign of failure, or failed diagnostics that say nothing |
| GateEvidence.SignalTextIs | src/application/chat/verification-gate.ts:373-376 | the text that is searched is command, output and error, those that are there, in this order |
| VerificationGate.UnverifiedWriteLetGoExactly | src/application/chat/verification-gate.ts:88-99 | with an unverified last write a batch clears the blocker exactly if it asks for no evaluation, or the runtime passes |
| VerificationGate.DemandsAreSaid | src/application/chat/verification-gate.ts:184-227 | every demand of an evaluated gate is said by a message it appends, whatever has been said already |
| VerificationGate.GateSession.AppendNewMessages | src/application/chat/verification-gate.ts:201-211 | the loop appends the messages not yet said, each once |
| VerificationGate.GateSession.ApplyRecovery | src/application/chat/verification-gate.ts:184-227 | appends the recovery messages, and the runtime's blocker if nothing else says it |
| VerificationGate.GateSession.RunVerificationGate | src/application/chat/verification-gate.ts:229-291 | the gate on a session: result, appended messages and recorded signal agree |
| TeamScheduler.EndsWithinTaskCount | src/application/teams/manager.ts:54-68 | for every graph and every outcome the loop ends within as many rounds as tasks, and nothing is in progress at its head |
| TeamScheduler.EndsExactlyForPositiveLimit | src/application/teams/manager.ts:66-66 | the loop ends for all tasks exactly if the parallel limit is at least one |
| TeamScheduler.FinalStatusOfEveryTask | src/application/teams/manager.ts:54-101 | for every graph, cyclic or not: a task is run exactly if, along its dependencies, everything completes, and ends with its outcome |
| TeamScheduler.PendingExactlyBehindFailure | src/application/teams/manager.ts:54-101 | on an acyclic graph a task stays pending exactly if it depends, directly or not, on one that failed or is missing |
| TeamScheduler.EachTaskRunsOnce | src/application/teams/manager.ts:54-68 | no task runs twice, and only pending tasks run |
| TeamScheduler.TasksRunAfterDependencies | src/application/teams/manager.ts:55-67 | every task runs after all its dependencies have completed, and no batch exceeds the limit |
| TeamScheduler.RoundShrinks | src/application/teams/manager.ts:54-68 | every round ends at least one pending task |
| TeamScheduler.Filtered | src/application/teams/task-list.ts:50-62 | the available tasks are exactly the pending, unblocked ones |
| TeamScheduler.Slice | src/application/teams/manager.ts:66-66 | the tasks of a round are the first of them, at most as many as the limit |
| TeamScheduler.SharedTaskList.AddTask | src/application/teams/task-list.ts:18-27 | adds a task at the end, or replaces one in its place |
| TeamScheduler.SharedTaskList.UpdateStatus | src/application/teams/task-list.ts:33-44 | changes the status of a known task only |
| TeamScheduler.TeamManager.ExecuteTasks | src/application/teams/manager.ts:67-101 | tasks that start together and end in any order leave the list as if each had been settled |
| TeamScheduler.TeamManager.RunRound | src/application/teams/manager.ts:55-67 | one pass of the loop body is one round |
| TeamScheduler.TeamManager.RunLoop | src/application/teams/manager.ts:54-68 | the loop computes the rounds that the theorems are about, within the bound |
| Notepad.GetAfterPut | src/application/system/notepad.ts:441-468 | for every document: reading a section that was written gives the trimmed text exactly if the text neither begins with `## ` nor has a line that does |
| Notepad.PutPut | src/application/system/notepad.ts:454-468 | for every document: writing twice equals the second write alone exactly under the same condition on the first text |
| NotepadFrame.FrameExactly | src/application/system/notepad.ts:441-468 | a write leaves another section alone in all documents framed for the two sections, exactly if its text does not hold the other header |
| NotepadFrame.KeepsSectionExactly | src/application/system/notepad.ts:441-468 | for every document: all writes without the other header leave the other section alone exactly if the document is framed: the other section is missing, or no bare header at the end ends it when the written one is appended, or it comes first and a header ends it before the written one, or what is kept after the written one reads the same |
| NotepadFrame.FramedExactly | src/application/system/notepad.ts:441-468 | the same for any two headers of which neither holds the other |
| NotepadFrame.StandAloneKeepsSections | src/application/system/notepad.ts:441-468 | a simple condition that suffices: every `## ` of the document begins a line and has something after it |
| NotepadFrame.SwallowedBreaksFrame | src/application/system/notepad.ts:441-468 | where no header ends the other section before the written one, a long text shows in it |
| NotepadFrame.FrameAppended | src/application/system/notepad.ts:458-460 | where the written section is appended, every write keeps the other section exactly if no bare header at the end of the document ends it |
| NotepadFrame.Frame | src/application/system/notepad.ts:441-468 | the frame law for one framed document, empty ones included |
| NotepadFrame.FrameIn | src/application/system/notepad.ts:454-468 | the frame law for a framed document, whether the written section is there or is appended |
| NotepadFrame.FrameFails | src/application/system/notepad.ts:454-468 | a document for every text that holds the other header |
| Notepad.UncleanIsCut | src/application/system/notepad.ts:441-468 | an unclean text is read back with less in it, and one that begins like a header as nothing |
| NotepadFrame.EmptyNotepad | src/application/system/notepad.ts:408-417 | the document that a first write starts from is in order, and its sections are empty |
| NotepadLog.WriteKeepsLog | src/application/system/notepad.ts:206-255 | a changing write leaves exactly the last 50 of the old entries and the new one, exactly if the section and no kept entry begins like a header |
| NotepadLog.RunKeepsLog | src/application/system/notepad.ts:206-255 | over every sequence of writes to a log in order, the document's log is the log of the notes |
| NotepadLog.RunLeavesLastFifty | src/application/system/notepad.ts:240-244 | which is the last 50 of the old entries and the accepted ones, or untouched if none is accepted |
| NotepadLog.RepeatIsIgnored | src/application/system/notepad.ts:227-237 | writing the same prompt and response again changes nothing, if the first write kept the log (`WriteKeepsLog`) |
| NotepadLog.WriteKeepsOthers | src/application/system/notepad.ts:239-244 | the other sections of a framed document are left alone if no kept entry holds their header |
| NotepadLog.SummaryIsInline | src/application/system/notepad.ts:426-435 | a summary is one line, at most two characters longer than its limit |
| NotepadLog.SummaryTells | src/application/system/notepad.ts:426-435 | a summary is the text on one line, or what stands before its limit, without white space at the end, and three dots |
| NotepadLog.EntryTells | src/application/system/notepad.ts:212-239 | an entry tells the time, a summary of the prompt to 120 characters and one of the response to 220 |
| NotepadLog.StripsToBody | src/application/system/notepad.ts:437-439 | stripping the time of a new entry gives back its body, for every clock reading |
| NotepadLog.StripsMark | src/application/system/notepad.ts:437-439 | a mark in brackets in front of an entry is taken off |
| NotepadLog.StripsOnlyMarks | src/application/system/notepad.ts:437-439 | and nothing else is: any other entry is only trimmed |
| NotepadLog.EntriesJoin | src/application/system/notepad.ts:419-424 | the entries of joined entries are the entries |
| NotepadLog.EntriesTrim | src/application/system/notepad.ts:419-424 | trimming a section does not change its entries |
| NotepadLog.AppendedEntries | src/application/system/notepad.ts:470-476 | an appended entry comes after the old ones, unless the section begins like a header: then nothing is left |
| NotepadLog.PutEntries | src/application/system/notepad.ts:243-244 | entries that are put are the entries that are got, exactly if none begins like a header |
| NotepadLog.NotepadFile.WriteAutoWorking | src/application/system/notepad.ts:206-255 | one automatic write of the stored document, with whether it changed |
| NotepadLog.NotepadFile.WritePriority | src/application/system/notepad.ts:159-180 | refuses blank text; otherwise the text, cut to 500 characters, is what is read back exactly if it is clean |
| NotepadLog.NotepadFile.WriteManual | src/application/system/notepad.ts:257-278 | refuses blank text; otherwise adds the entries of a clean text after the old ones |
| ResponseCleanup.RemoveRepeatedBlocks | src/application/chat/response-cleanup.ts:11-27 | the loop with its list of kept keys computes the filter |
| ResponseCleanup.SelectionIsFiltered | src/application/chat/response-cleanup.ts:15-27 | the filter is the only selection in which exactly the blocks are dropped that are long, free of code fences and repeat an earlier kept block of that kind |
| ResponseCleanup.FilteredIsSelection | src/application/chat/response-cleanup.ts:15-27 | and it is such a selection: an order-preserving subsequence that keeps short and fenced blocks |
| ResponseCleanup.FirstStays | src/application/chat/response-cleanup.ts:15-27 | the first block stays in its place |
| ResponseCleanup.FilteredIsDissimilar | src/application/chat/response-cleanup.ts:15-27 | no two kept long blocks without code are equal or similar |
| ResponseCleanup.FilterTwice | src/application/chat/response-cleanup.ts:11-27 | filtering again drops nothing |
| ResponseCleanup.RemoveTwice | src/application/chat/response-cleanup.ts:6-29 | removing the repeated blocks of a text twice is removing them once, splitting, joining and trimming included |
| ResponseCleanup.BlocksOfJoin | src/application/chat/response-cleanup.ts:11-29 | splitting joined blocks gives the blocks back |
| ResponseCleanup.RemoveSections | src/application/chat/response-cleanup.ts:6-29 | the filter on a text, short ones left as they are |
| ResponseCleanup.SectionsExactly | src/application/chat/response-cleanup.ts:6-29 | a text of less than 160 characters stays as it is; of a longer one the selected blocks stay, with empty lines between them |
| ResponseCleanup.ExemptExactly | src/application/chat/response-cleanup.ts:17-19 | a block is exempt exactly if less than 80 characters of it count or a code fence stands in it |
| ResponseCleanup.SimilarExactly | src/application/chat/response-cleanup.ts:49-72 | similar are texts of at least 80 characters, whose lengths differ by at most 28 percent, and that share at least 82 percent of their shingles |
| ResponseCleanup.ShinglesExactly | src/application/chat/response-cleanup.ts:74-84 | the shingles are exactly the pieces of five characters, of eight in a long text |
| ResponseCleanup.SimilarIsSymmetric | src/application/chat/response-cleanup.ts:49-72 | similarity is symmetric |
| ResponseCleanup.LongIsSimilarToItself | src/application/chat/response-cleanup.ts:49-72 | a text that is long enough is similar to itself |
| ResponseCleanup.AreNearDuplicateBlocks | src/application/chat/response-cleanup.ts:45-72 | decides similarity by counting shared shingles |
| ResponseCleanup.CreateCharacterShingles | src/application/chat/response-cleanup.ts:74-84 | the loop collects exactly the pieces of the text |
| ResponseCleanup.FindRepeated | src/application/chat/response-cleanup.ts:20-20 | finds out whether a kept key repeats the block |
| WorkflowState.ImplementKeptExactly | src/application/chat/turn-intake.ts:329-337 | over every sequence of turns: an implementation keeps its route exactly if the latest earlier turn that is not a direct command recorded a plan with the same normal form |
| WorkflowState.CellIsLatest | src/application/chat/turn-intake.ts:339-345 | the cell holds what that turn recorded, and nothing else |
| WorkflowState.RecordsExactly | src/application/chat/run-chat.ts:342-362 | recording told by the commands and endings alone: a plan turn, or an implementation that had no plan, whose ending counts as finished |
| WorkflowState.FinishesExactly | src/application/chat/run-chat.ts:816-849 | of all the ways in which the loop of a turn stops, exactly a denied permission, a provider error and what tools throw keep the turn from being recorded |
| WorkflowState.StreamTellsReason | src/application/chat/run-chat.ts:816-843 | the stop reason remembered from the stream of a turn is the one that the turn ended with |
| WorkflowState.StoppedPlanIsApproved | src/application/chat/run-chat.ts:845-849 | for each other stop reason: a plan turn that is stopped approves its goal, and the implementation that comes next keeps its route |
| WorkflowState.PlanApprovesExactly | src/application/chat/run-chat.ts:816-849 | a plan turn approves its goal for the next implementation exactly if it did not throw and its stream did not bring a denied permission or a provider error last |
| WorkflowState.PlanIsUsedOnce | src/application/chat/turn-intake.ts:339-345 | between two implementations that keep their routes a plan is recorded |
| WorkflowState.ReroutedThenKept | src/application/chat/turn-intake.ts:350-395 | an implementation that was turned into a plan goes through the next time, if that turn finished |
| WorkflowState.RepeatedImplementAlternates | src/application/chat/turn-intake.ts:320-348 | asking for one goal again and again, every second request keeps its route |
| WorkflowState.SameGoalExactly | src/application/chat/turn-intake.ts:271-273 | two goals have the same normal form exactly if they are the same words |
| WorkflowState.ChatSession.ResolveEffectiveTurnInput | src/application/chat/turn-intake.ts:320-348 | reroutes an implementation without a plan, and clears the cell unless the command is direct |
| WorkflowState.ChatSession.RecordCompletedWorkflowState | src/application/chat/run-chat.ts:342-362 | fills the cell for a plan turn, and leaves it for any other |
| WorkflowState.ChatSession.ConsumeStream | src/application/chat/run-chat.ts:816-849 | the loop over the stream remembers the last stop reason; a plan turn fills the cell unless that is a denied permission or a provider error |
| WorkflowState.ChatSession.RunTurn | src/application/chat/turn-intake.ts:320-348 | one turn on the session, whatever its ending: an implementation goes ahead exactly on a plan for the same words that the turn before it recorded |

## Left out

- LspFrames.DecimalRoundTrip: does not model `parseInt` beyond 2^53 either.
- LspFrames.HeaderRoundTrip: does not model `parseInt` beyond 2^53, where a double no longer holds the length exactly.
- LspHeaders.LengthExactly: has the same limit.
- LspPipeline.LspRpcMessagePipeline.HandleIncomingPayload: does not model JSON or UTF-8 decoding; parsing a payload is an arbitrary function.
- LspPipeline.LspRpcMessagePipeline.SendRaw: does not model JSON.stringify; the payload is given.
- LspDocuments.StdioLanguageServerClient.ApplyWorkspaceEdit: does not model how an edit is parsed and applied to files; it begins with the files read again.
- LspDocuments.StdioLanguageServerClient.Close: does not model the shutdown request and the exit notification, which touch no document.
- Fingerprint.FingerprintDecidesBatch: does not cover arguments that JSON.parse rejects and names with a colon, for which it can be false (see `UnreadableBatchesCollide`); single calls with such arguments are covered by `SingleCallDecides`.
- Fingerprint.FingerprintDecodes: has the same limits.
- TurnLoop.CompletedOnlyUnblocked: does not say that the latest write is verified, because a batch that asks for no evaluation clears the blocker.
- TurnLoop.ExecuteConversationTurn: does not model the messages that the loop adds to the session, compaction, logging, and how a recovery call is read out of a blocker's text; the recovery call is given by the environment.
- EventStream.NothingLost: does not say that the deltas make up the final text, because a delta can be suppressed.
- ToolOrchestrator.RunToolOrchestrator: does not cover batches whose actions do not commute, for which it can be false (see `FileReads.MixedReadsDecideWrite`); does not model stage records, renderer, transcript and event-store projections, timestamps, or an invocation that throws; the session is uncapped.
- ToolScheduling.EachResultHasItsOwnEntry: does not cover a call that records several executions or none (`RecordsOnce`).
- ToolOrchestrator.Prepare: does not model how hooks and permission rules decide; what preparing returns, and what it changes, is arbitrary.
- FileReads.ReadsAgreeExactly: leaves out the time and the call id in a read record, by which nothing goes; a read is two steps, and decoding a file is an arbitrary function.
- FileReads.PreparingFirstDecidesWrite: does not model rollback points, the baseline check around a write, sandbox escalation, and the other tools that write.
- The language-server tools as calls of a batch: they synchronise documents (`LspDocuments`) while they run.
- GateEvidence.GateExactly: takes the entry that stands for each call of a batch as given, its own history entry or what stands in for it.
- VerificationGate.BlockedExactly: does not model the regular expressions and tool tables; they are arbitrary predicates.
- TeamScheduler.TeamManager.RunLoop: does not cover a parallel limit below one, for which the loop need not end (see `EndsExactlyForPositiveLimit`), nor titles, members and prompts of tasks.
- NotepadLog.WriteKeepsLog: does not model the clock; a reading is any text without white space and `]`.
- ResponseCleanup.RemoveTwice: is about the filter alone, without the restart heuristics.
- ResponseCleanup.RemoveSections: does not model the restart heuristics applied after the filter, nor case folding; normalising a block is an arbitrary function that ignores white space at the end of a block.
- WorkflowState.ChatSession.RunTurn: does not model how prompts are routed to commands, nor sessions that are saved and loaded between turns.
- Lone surrogates in strings, which JSON.stringify escapes, are not part of this model.
- Commands of the notepad that only read or print, working notes written by hand (they are appended without a bound), and pruning by age.
- Process spawning, sockets, HTTP, providers, permission rules, hook decisions, terminal and editor front ends.
- Prompt text, routing tables, pricing, message trimming and display strings.
