# A verified model of the bounded MCP sandbox

The repository is a native server that speaks the Model Context Protocol over standard input and
output, and an offline agent that drives such a server. This project models its state machines and
algorithms in Dafny and proves what they promise, for every input, every run and every interleaving.

- **The tool scheduler.** Workers, an admission map and a ready queue of suspended calls. Each
  mutex-held block is one atomic step (`SchedulerModel.dfy`); notifications of the two condition
  variables are separate steps, so that a wake-up could be lost. `SchedulerInvariant.dfy` has the
  inductive invariant, `SchedulerWakeups.dfy` that no wake-up is lost, `SchedulerSafety.dfy` what holds
  over whole runs, `SchedulerExecution.dfy` which calls are executed and which are timed out, `SchedulerProgress.dfy` the measure, the absence of deadlock and the return of
  shutdown, `ToolScheduler.dfy` the object: each method is one step of the whole system, which the
  object carries as a ghost, so what is proved of all runs holds of the object. `RequestKey.dfy` is the key under which calls are
  filed.
- **Log search and tail.** `Kmp.dfy` has the failure table and the matching step, `LogModel.dfy` the
  reference ("split into lines, take the leftmost occurrence"), `LogSearch.dfy` and `LogTail.dfy` the
  streaming loops, proved equal to the reference for every way in which reads are cut, interrupted
  and retried. `Escapes.dfy` says what the escaped previews show.
- **The protocol server.** `ServerModel.dfy` has bounded serialization, the handlers and accept_line,
  `ServerProtocol.dfy` framing, the promises of single lines (sections 4.1 and 5 of JSON-RPC 2.0) and
  the lifecycle of MCP 2025-11-25, `ServerMethods.dfy` what every line is answered, method by method and
  told by the members of the message, `ServerSystem.dfy` the composition of the serving thread with the
  scheduler, with the accounting of requests and answers, `ServerSession.dfy` that in every interleaving
  the lifecycle state and the answers are those of the lines served so far, and `ServerProgress.dfy` that
  every run of the two comes to its end.
- **The agent.** `Transcript.dfy` is the bounded transcript writer with the exact length of its JSON
  form, `JsonText.dfy` and `TranscriptText.dfy` a JSON reader and that the text is read back by it,
  `TranscriptValues.dfy` which values are hidden, `TranscriptParser.dfy` the parser that checks
  provenance, and `OrchestratorModel.dfy` the ledger
  of a run. `OrchestratorPlan.dfy` has the reference: what each part of a run wants to note and how it
  then ends, as a plan that is a function of the limits and the world around the orchestrator, what
  becomes of a plan when an entry is refused, and the story of a whole run put together from these.
  `Orchestrator.dfy` is the run itself, against an arbitrary provider, child, clock and cancellation,
  proved equal to its story. `OrchestratorAccount.dfy` tells the story by what happened: which turns
  went through, what decided the end, why the outcome is what it is, and that nothing about a run is
  left open by its limits and its world. `OrchestratorReport.dfy` is what the transcript then says.
- **Smaller cores.** `JsonSafety.dfy` (the preflight event machine), `ElfReader.dfy`, `ElfNotes.dfy`,
  `Elf.dfy`, `ElfInspect.dfy` and `ElfLayout.dfy` (bounded ELF inspection, and its structures written
  out), `Redaction.dfy`, `RedactionSecrets.dfy` and
  `Utf8.dfy` (secret spans, merging, truncation, which secrets are kept out), `RateLimiter.dfy` (the sliding window), `Statm.dfy` (the page counts of
  a process).

The surroundings are parameters. A file is a byte sequence with a recorded size and read bound; each
turn of a read loop may be stopped, interrupted, fail or give any nonempty piece (`LogModel.Turn`).
The provider, the child process, the deadline and the cancellation flag of an agent run are arbitrary
functions (`OrchestratorModel.World`). JSON documents are trees with an arbitrary size function, and
SHA-256 identities are arbitrary hexadecimal strings. Clocks are integers.

Five promises do not hold on all inputs. The code is modelled as it is, with an input that shows the
failure and the exact condition under which the promise is kept:

- The rate limiter reads its clock before it takes its lock. `RateLimiter.DriftExact`: readings that go
  back by at most `drift` keep every interval of length `len` to sixteen grants if and only if
  `len + drift` is at most a second, so whole seconds are safe only without drift.
  `RateLimiter.StaleReading` gives a reading that goes back by one tick and breaks the bound.
- Section 5 of JSON-RPC 2.0 asks for the id of the request in its response. `ServerSystem.AnsweredUnderId`:
  over every run an answer carries another id if and only if neither the response nor the short error
  under the request's id fits the response limit. `ServerProtocol.IdTooLong` gives such requests for
  every configuration: pings whose id is longer than the response limit.
- `parse_statm` accepts seven numbers exactly when a space or line end follows the last one
  (`Statm.Parse`); `Statm.Unterminated` gives seven numbers that it refuses.
- `redact_text` is to let no configured secret through. `RedactionSecrets.KeptOutExactly`: a secret is
  kept out of the results for all texts, other secrets and bounds if and only if it neither agrees with
  the marker where it can be laid over it nor is, with a question mark and without lone surrogates,
  something that the cut can make. `RedactionSecrets.MarkerSaysRed` gives the secret "red".
- Cutting a redacted text to its byte bound gives a prefix of it exactly when the part kept has no
  lone surrogate (`Utf8.BoundedIsPrefix`); `Utf8.SurrogateCut` gives a text that comes out changed.

## Model

| member | source | states |
|---|---|---|
| `Kmp.BuildFailureTable` | src/log_analysis.cpp:77-91 | the table holds at each index the longest proper border of the prefix ending there, found with at most as many fallbacks as the pattern has bytes |
| `Kmp.Step` | src/log_analysis.cpp:250-255 | one byte moves from the longest pattern prefix that ends the text so far to the longest one that ends the longer text, and the fallbacks are paid for by the matched length |
| `Kmp.FallBack` | src/log_analysis.cpp:250-252 | no pattern prefix longer than the failure link's can end the text extended by a byte that mismatches |
| `Kmp.Advance` | src/log_analysis.cpp:253-255 | a byte that matches extends the longest match by one and nothing longer exists |
| `Kmp.LeftmostExtends` | src/log_analysis.cpp:256-263 | the first complete match is the leftmost occurrence in the longer text, and stays so |
| `Bytes.LinesRejoin` | src/log_analysis.cpp:226-232 | joining the lines with newlines gives back the bytes, so the split loses and adds nothing |
| `Bytes.LinesHaveNoNewline` | src/log_analysis.cpp:228-232 | no line contains a newline |
| `LogModel.FindIs` | src/log_analysis.cpp:249-260 | the reference position in a line is the leftmost one at which every byte is equal to that of the query or, in case-insensitive mode, the same ASCII letter; it is missing exactly when there is none |
| `LogModel.ComparableIs` | src/log_analysis.cpp:41-54 | two bytes are compared as equal exactly if they are equal or, where case does not matter, the same ASCII letter |
| `LogModel.MatchesSound` | src/log_analysis.cpp:179-201 | every reported match belongs to the line it numbers, at its leftmost occurrence, and numbers increase |
| `LogModel.MatchesComplete` | src/log_analysis.cpp:179-201 | every line that contains the query is reported |
| `LogModel.MatchesMean` | src/log_analysis.cpp:179-201 | a reported match stands in the line it numbers, and the offset is where the query is first found there |
| `LogModel.PreviewWindow` | src/log_analysis.cpp:153-191 | the preview is one window of the line within the budget, holds the whole match exactly when the query fits the budget, begins half the budget before the match unless the line or the query leave less, ends with the budget or the line, and both truncation flags are exact |
| `LogModel.ShortLinePreview` | src/log_analysis.cpp:179-191 | a line of at most half the preview budget is shown whole and without flags |
| `LogModel.TailSpecExact` | src/log_analysis.cpp:308-329 | the reference tail shows the last min(max_lines, count) lines in order, each with its true number and start, the escaped last bytes less one carriage return, and an exact flag |
| `Escapes.EscapeByteIs` | src/log_analysis.cpp:56-75 | a tab is shown as \t, a printable byte as itself and any other as \x and two digits of its value |
| `Escapes.EscapePrintable` | src/log_analysis.cpp:56-75 | a preview is printable, and a printable text is its own preview |
| `Escapes.ReadBack` | src/log_analysis.cpp:56-75 | the bytes can be read back from their preview if and only if no backslash among them reads like the form of another byte |
| `Escapes.SamePreview` | src/log_analysis.cpp:61-67 | a tab and a backslash before a t have the same preview |
| `Escapes.DropsOneReturn` | src/log_analysis.cpp:182-185 | one carriage return is dropped from the end of a line, and nothing else |
| `LogSearch.TakeByte` | src/log_analysis.cpp:234-265 | one byte within a line keeps the cursor describing the line so far: match length, sliding window, capture and flags |
| `LogSearch.ScanByte` | src/log_analysis.cpp:226-266 | one byte of a chunk keeps the results equal to the reference for the bytes read so far, and stops exactly at the match limit |
| `LogSearch.Scan` | src/log_analysis.cpp:203-267 | the read loop, for every sequence of pieces, interruptions and failures |
| `LogSearch.Search` | src/log_analysis.cpp:115-276 | the result equals the reference whatever the chunking; errors are exactly the argument and size errors or caused by a stop or a failed read; without those it succeeds; fallbacks never exceed the bytes scanned |
| `LogTail.Tail` | src/log_analysis.cpp:278-380 | the same for tail: equal to the reference for every chunking, with the exact error cases |
| `LogTail.ScanByte` | src/log_analysis.cpp:354-368 | one byte keeps the retained lines equal to the last ones of the reference |
| `RequestKey.KeyIdentifies` | src/orchestration.cpp:22-50 | two request ids have the same key exactly when they are the same id, a nonnegative integer being the same in both integer forms |
| `RequestKey.DecimalInjective` | src/orchestration.cpp:31-45 | different numbers have different decimal forms |
| `RequestKey.DecimalIs` | src/orchestration.cpp:31-45 | a number is written in decimal digits of its value without a leading zero |
| `SchedulerInvariant.InitInv` | src/orchestration.cpp:101-132 | a scheduler whose workers have all started satisfies the invariant |
| `SchedulerInvariant.StepKeeps` | src/orchestration.cpp:136-346 | every atomic step of submit, launch, queue, worker, finish, callback, cancel, stop and shutdown keeps the invariant |
| `SchedulerInvariant.RunKeeps` | src/orchestration.cpp:136-346 | so does every interleaving of them |
| `SchedulerInvariant.FinishErases` | src/orchestration.cpp:204-222 | the identity check in finish never fails: the entry found is the call that finishes, and it alone is erased |
| `SchedulerWakeups.StepNoticed` | src/orchestration.cpp:136-346 | every step keeps that, while any worker sleeps, each queued call has a wake-up of its own: a pending notice or a worker about to look at the queue |
| `SchedulerWakeups.NoLostWakeup` | src/orchestration.cpp:136-158 | so it is in every reachable state: beside a queued call a sleeping worker can be woken, or someone is about to look |
| `SchedulerSafety.Conservation` | src/orchestration.cpp:200-273 | in every reachable state accepted = completed + cancelled + in flight + failed launches, and each counter counts exactly the calls of that fate |
| `SchedulerSafety.CallbackAtMostOnce` | src/orchestration.cpp:219-234 | in every reachable state each accepted call's callback was started at most once, and only if the call completed and was not cancelled |
| `SchedulerSafety.CancelSilences` | src/orchestration.cpp:275-288 | once cancel returned true for a call its callback never runs, in any continuation, even if the id is reused |
| `SchedulerSafety.StopSilences` | src/orchestration.cpp:290-305 | request_stop silences every call that was in flight |
| `SchedulerSafety.StoppingIsFinal` | src/orchestration.cpp:144-158 | once stopping is set, or a worker has exited, nothing is in flight or queued, then and ever after |
| `SchedulerSafety.ShutdownReturned` | src/orchestration.cpp:329-346 | after a shutdown from outside the workers, each call was cancelled, failed to launch, or had its callback run to the end exactly once |
| `SchedulerExecution.ExecutedAsDue` | src/orchestration.cpp:160-223 | over every run a call is executed at most once, and by the time it is finished exactly if its worker found it uncancelled before its deadline; a completed call was executed if and only if it was resumed before its deadline; a worker gives a call up as late only from the deadline on, and timed_out counts exactly the completed calls whose last look was that late |
| `SchedulerExecution.RefusalsCounted` | src/orchestration.cpp:243-259 | the two counters of rejections count exactly the submissions that found their key taken, and those that found it free and the limit reached |
| `SchedulerExecution.AnytimeOpen` | src/orchestration.cpp:237-346 | submit, cancel, request_stop and shutdown can be called in every state, as runs are taken here |
| `SchedulerSafety.ReadyFits` | src/orchestration.cpp:136-142 | the ready queue is never longer than the map of calls in flight, which never exceeds the admission limit, and every queued call is in flight |
| `SchedulerSafety.LaunchFits` | src/orchestration.cpp:107 | the noexcept push finds room in the reserved capacity |
| `SchedulerProgress.WorkDecreases` | src/orchestration.cpp:144-234 | every step of the scheduler's own threads strictly decreases the measure |
| `SchedulerProgress.QuietKeepsMeasure` | src/orchestration.cpp:317-327 | with admission closed, outside steps add no work, not even shutdown called on every worker |
| `SchedulerProgress.DrainEnds` | src/orchestration.cpp:307-346 | after admission has closed, every run, shutdowns and spurious wake-ups included, takes at most as many steps of work as the measure and what those outside steps add |
| `SchedulerProgress.StepAccounts` | src/orchestration.cpp:307-346 | with admission closed a spurious wake-up adds one step of work, the start of a shutdown one for each worker and four, and nothing else any |
| `SchedulerProgress.ShutdownReturns` | src/orchestration.cpp:317-346 | a run that has begun a shutdown from outside the workers and has no step of work left has returned from it, with every worker gone and nothing in flight |
| `SchedulerProgress.NoDeadlock` | src/orchestration.cpp:144-158 | while the measure is positive some step of work is enabled, in every state that satisfies the invariant |
| `SchedulerProgress.ShutdownCanWork` | src/orchestration.cpp:329-346 | a shutdown that has begun and not returned always has a step of work to wait for |
| `SchedulerProgress.DrainedWhenIdle` | src/orchestration.cpp:329-346 | when no work is left, nothing is in flight and no shutdown waits |
| `ToolSchedulerObject.ToolScheduler.Elsewhere` | src/orchestration.cpp:160-198 | a step of a thread outside the mutex changes no field of the object and keeps it valid; what such steps come to for each call is `SchedulerExecution.ExecutedAsDue` |
| `ToolSchedulerObject.ToolScheduler.Admit` | src/orchestration.cpp:243-259 | one step of the system; each status exactly for its reason, the call being admitted when admission is open, its key free and the limit not reached, and then in flight under a new identity with its key and deadline; the limit holds and every accepted call is counted |
| `ToolSchedulerObject.ToolScheduler.EraseFailed` | src/orchestration.cpp:263-270 | one step of the system; the erase by key, without an identity check, removes the failed call's own entry and no other |
| `ToolSchedulerObject.ToolScheduler.Enqueue` | src/orchestration.cpp:136-142 | one step of the system; the call was not queued before, and the queue stays within the calls in flight and so within its reserved capacity |
| `ToolSchedulerObject.ToolScheduler.Take` | src/orchestration.cpp:147-155 | one step of the system; a call taken is in flight and held by no other worker, and a worker exits only when nothing is in flight, nothing queued and admission closed |
| `ToolSchedulerObject.ToolScheduler.Finish` | src/orchestration.cpp:202-223 | one step of the system; the entry found is always the call's own, it alone is removed, the call is counted once, and the callback is due exactly when it was not cancelled |
| `ToolSchedulerObject.ToolScheduler.Cancel` | src/orchestration.cpp:275-288 | one step of the system; found exactly when a call is in flight under the key, and then that call alone is flagged, before its callback has begun |
| `ToolSchedulerObject.ToolScheduler.RequestStop` | src/orchestration.cpp:290-301 | one step of the system; exactly the calls in flight are flagged, and admission is closed |
| `ToolSchedulerObject.ToolScheduler.CloseAdmission` | src/orchestration.cpp:317-327 | one step of the system; shutdown on a worker closes admission, waits for nothing and moves no thread |
| `ToolSchedulerObject.ToolScheduler.BeginShutdown` | src/orchestration.cpp:329-335 | one step of the system; admission is closed and the drain begins, unless an earlier shutdown has returned |
| `ToolSchedulerObject.ToolScheduler.Drain` | src/orchestration.cpp:336-337 | one step of the system; stopping is set exactly when nothing is in flight, and then nothing is queued and nothing can be admitted |
| `ToolSchedulerObject.ToolScheduler.FinishShutdown` | src/orchestration.cpp:340-345 | one step of the system; when shutdown returns, each call was cancelled, failed to launch, or had its callback run to the end exactly once |
| `ServerModel.SerializeBoundedIs` | src/server.cpp:254-298 | with a limit that admits the bare error there is always a response within the limit; it is the response itself exactly if that fits, its id is lost if and only if neither it nor the short error under the id fits, and then it is the error under null; the state moves only with the response it belongs to |
| `ServerModel.Server.Serialize` | src/server.cpp:254-298 | the method computes that response and state |
| `ServerModel.Server.AcceptLine` | src/server.cpp:364-412 | the method computes the action and the next state of a line |
| `ServerModel.Server.AcceptObject` | src/server.cpp:401-493 | the same for a message that is an object with a valid id or none |
| `ServerProtocol.ReadFrames` | src/server.cpp:638-683 | the loop with its bounded buffer and oversize flag yields exactly the newline-split lines, over-limit ones flagged |
| `ServerProtocol.RequestTaken` | src/server.cpp:364-493 | a request line is answered by the bounded form of a response under its id, or becomes a call under its id |
| `ServerProtocol.AcceptIsBounded` | src/server.cpp:364-493 | what a line does is what it would do without a response limit, its response bounded |
| `ServerProtocol.CorrelatedIs` | src/server.cpp:254-298 | a response that fits is given as it is; the answer to a request carries another id if and only if neither the response nor the short error under its id fits |
| `ServerProtocol.IdTooLong` | src/server.cpp:254-298 | for every configuration that admits the bare error and every serialization that gives an id at least its length, a ping under an id longer than the response limit is answered under null |
| `ServerProtocol.NotificationUnanswered` | src/server.cpp:399-493 | a notification is never answered |
| `ServerProtocol.MalformedAnswered` | src/server.cpp:364-412 | any other line gets one error under null |
| `ServerProtocol.Transition` | src/server.cpp:69-106 | the lifecycle moves only forward, only by initialize or the initialized notification, and an initialize whose answer did not fit moves nothing |
| `ServerProtocol.CallNeedsReady` | src/server.cpp:136-183 | only a ready server with that tool makes a tool call of a line |
| `ServerProtocol.CallsFollowHandshake` | src/server.cpp:136-252 | in every session a tool call comes after an initialize request and a later initialized notification |
| `ServerProtocol.DispatchShape` | src/server.cpp:185-252 | dispatch answers requests under their id and never notifications, and names the only two ways to a next state |
| `ServerMethods.Initialize` | src/server.cpp:69-106 | an initialize request moves a fresh server on if and only if its params have a string protocolVersion, object capabilities and an object clientInfo with nonempty name and version, and the answer fits; it is answered by the introduction of the server, any other by the error for its fault |
| `ServerMethods.Notice` | src/server.cpp:205-248 | notifications/initialized without params or with an object for them always makes a waiting server ready, no other notification moves anything, and a cancellation names its request exactly if it is well-formed |
| `ServerMethods.NoticeAsRequest` | src/server.cpp:217-222 | the two notifications are errors as requests |
| `ServerMethods.Ping` | src/server.cpp:192-210 | a ping is answered in every state, with an error if its params are no object |
| `ServerMethods.ListTools` | src/server.cpp:108-134 | a ready server lists its tools unless params or cursor are malformed |
| `ServerMethods.CallTool` | src/server.cpp:136-183 | a ready server makes the call of every tools/call with a tool it offers, no task, and an object or nothing for its arguments, under that id, for that tool and with those arguments; any other is an error that says what is wrong |
| `ServerMethods.Unknown` | src/server.cpp:243-252 | any other method is not found |
| `ServerMethods.Improper` | src/server.cpp:364-399 | what lines are answered that are too long, malformed, unsafe or no object |
| `ServerMethods.Broken` | src/server.cpp:401-429 | what objects are answered whose id is neither string nor integer, or that do not say "2.0" and name a method |
| `ServerMethods.EnvelopeIs` | src/server.cpp:254-298 | errors and results have exactly the members that section 5 of JSON-RPC 2.0 asks for |
| `ServerSystem.StepKeeps` | src/server.cpp:579-692 | every step of the serving thread and of the workers keeps the accounting of lines, calls and responses |
| `ServerSystem.RunKeeps` | src/server.cpp:579-692 | so does every interleaving |
| `ServerSystem.NeverAnsweredTwice` | src/server.cpp:579-620 | at no point has a line been answered twice, or a notification at all, and every response is the bounded form of one under the id of its line, or under null for a line that is no request |
| `ServerSystem.AnsweredUnderId` | src/server.cpp:254-298 | over every run the answer to a request carries another id if and only if neither the response it stands for nor the short error under the id fits the limit; a response that fits is written unchanged |
| `ServerSystem.EveryRequestAnswered` | src/server.cpp:579-692 | after the end of input and shutdown every request was answered exactly once, unless its call finished as cancelled; then it has no answer |
| `ServerSystem.StreamAnswered` | src/server.cpp:622-692 | the same from the bytes of the stream on, line by line of its newline split |
| `ServerSystem.UnansweredWasCancelled` | src/server.cpp:583-588 | a request left without an answer was followed by the client's own cancellation notice for its id |
| `ServerSystem.SameRequest` | src/orchestration.cpp:22-50 | keys of valid ids are equal exactly when the ids are |
| `ServerSession.SessionFollowed` | src/server.cpp:579-683 | in every interleaving the lifecycle state is the one after the lines served so far, and every output is the bounded form of what its line asks for in the state after the lines before it |
| `ServerSession.AdmittedAfterHandshake` | src/server.cpp:136-252 | every call the scheduler admits in any run came from a line after an answered initialize request and a later confirmation |
| `ServerSession.CallServed` | src/server.cpp:596-619 | a call line is admitted exactly if admission is open, its key free and the limit not reached; otherwise it is answered at once with the error for the reason |
| `ServerProgress.NeverStuck` | src/server.cpp:579-692 | until its shutdown has returned the server always has a step of work, at a line, in a launch, at the end of input or in the drain |
| `ServerProgress.StepAccounts` | src/server.cpp:579-692 | every step of work uses up the measure of lines, calls and workers, and only spurious wake-ups add to it |
| `ServerProgress.ServerEnds` | src/server.cpp:638-692 | every run takes boundedly many steps of work, and one with none left has reached the end of input, returned from shutdown and answered every request once, those cancelled aside |
| `Transcript.HexIsPlain` | agent/native_mcp_agent/transcript.py:476-484 | hexadecimal identities and numbers are never redacted, so provenance survives redaction |
| `Transcript.ReserveCovers` | agent/native_mcp_agent/transcript.py:484-500 | the room reserved for the terminal event covers the transcript without it |
| `TranscriptText.TextIsJson` | agent/native_mcp_agent/transcript.py:506-512 | the text of a transcript is JSON: the events, the flag and the schema version, and nothing after them |
| `TranscriptText.ReadBack` | agent/native_mcp_agent/transcript.py:506-512 | events and flag are read back from the text, for all events that fit their schema |
| `TranscriptText.JsonOkIs` | agent/native_mcp_agent/contracts.py:303-346 | the limits on a transcript that is parsed are those of _json_value on what its text says, with depth counted from the outermost object, and the limit on its bytes |
| `TranscriptValues.RedactIs` | agent/native_mcp_agent/transcript.py:476-483 | a value is hidden exactly if it has one of the ten parts in any letter case, starts with a slash or holds a backslash; every other value is kept as it is |
| `TranscriptValues.NothingSensitiveKept` | agent/native_mcp_agent/transcript.py:476-483 | no kept value has any of the ten parts in any letter case, starts with a slash or holds a backslash |
| `TranscriptValues.ValidValueIs` | agent/native_mcp_agent/transcript.py:461-475 | a value is taken if it is an ASCII text of one to 64 characters |
| `TranscriptValues.ShortValuesIs` | agent/native_mcp_agent/transcript.py:560-565 | the parser bounds every value by 64 characters |
| `TranscriptValues.SchemaByKey` | agent/native_mcp_agent/transcript.py:89-121 | which events carry each kind of value |
| `TranscriptValues.SchemaOkIs` | agent/native_mcp_agent/transcript.py:453-460 | an event is taken with exactly the values of its schema, a failed one also without its action, an unknown one never |
| `Transcript.BoundedTranscript.Add` | agent/native_mcp_agent/transcript.py:450-500 | the method performs the writer's step, with its three refusals |
| `Transcript.AddKeeps` | agent/native_mcp_agent/transcript.py:446-500 | every step keeps the terminal marker last, single and present exactly when limited; takes back nothing; and fails for want of room only while empty |
| `Transcript.WriterFits` | agent/native_mcp_agent/transcript.py:446-512 | every transcript the writer built fits the byte and the event limit |
| `TranscriptParser.Parse` | agent/native_mcp_agent/transcript.py:515-631 | the parser's growing sets decide exactly the declarative provenance: fresh authorizations, requests after theirs, responses and evidence once and after their request, terminal marker last |
| `TranscriptParser.CheckTerminal` | agent/native_mcp_agent/transcript.py:615-630 | the list of terminal positions is [last] in a limited transcript and empty in any other |
| `OrchestratorModel.WrittenIsAccepted` | agent/native_mcp_agent/mcp_orchestrator.py:1079-1097 | a transcript the writer built from a traced stream, cut anywhere by the limits, is accepted by the parser |
| `OrchestratorPlan.CutKeeps` | agent/native_mcp_agent/transcript.py:450-500 | one step of the writer keeps the transcript the cut of what was noted: the whole stream while the terminal marker still fits after it, then the longest prefix that left room and the marker; it refuses exactly the entries that do not fit their schema before that |
| `OrchestratorPlan.CutUnique` | agent/native_mcp_agent/transcript.py:450-500 | a stream has one cut |
| `OrchestratorPlan.PlayThen` | agent/native_mcp_agent/mcp_orchestrator.py:1104-1236 | playing one plan after another is playing the joined plan, refused entries and their handlers included |
| `OrchestratorModel.RequestKeeps` | agent/native_mcp_agent/mcp_orchestrator.py:1209-1217 | a request entry under a fresh action and the next id is traced |
| `OrchestratorModel.FollowKeeps` | agent/native_mcp_agent/mcp_orchestrator.py:1218-1227 | so are its response and its evidence |
| `OrchestratorModel.SentAppend` | agent/native_mcp_agent/mcp_orchestrator.py:1197-1217 | one more request keeps actions and call ids distinct, ids increasing, and turns accepted as a whole |
| `OrchestratorObject.Orchestrator.Note` | agent/native_mcp_agent/transcript.py:450-500 | an entry is refused exactly when it does not fit its schema and the transcript is not limited yet; the transcript stays the cut of the stream |
| `OrchestratorObject.Orchestrator.Validate` | agent/native_mcp_agent/mcp_orchestrator.py:1162-1196 | the first pass goes on exactly when every proposal is known, valid and repeats nothing sent before or in the turn; what it notes and how it ends are what comes of the plan for the first bad proposal |
| `OrchestratorObject.Orchestrator.Reject` | agent/native_mcp_agent/mcp_orchestrator.py:1163-1195 | an unknown, invalid or repeated proposal leaves the entries planned for it, an invalid one skipping all later ones, and the outcome for it; or the run fails at the first of them that is refused |
| `OrchestratorObject.Orchestrator.Check` | agent/native_mcp_agent/mcp_orchestrator.py:1198-1208 | a call goes on exactly when it is not cancelled, the call budget is not used up and the deadline has not passed at its own question; otherwise the entries and the outcome are those planned for that |
| `OrchestratorObject.Orchestrator.Authorize` | agent/native_mcp_agent/mcp_orchestrator.py:1209-1212 | call id and action are taken for good before anything is sent |
| `OrchestratorObject.Orchestrator.Issue` | agent/native_mcp_agent/mcp_orchestrator.py:685-712 | a request takes the next id and keeps the ledger of what was sent |
| `OrchestratorObject.Orchestrator.NoteRequest` | agent/native_mcp_agent/mcp_orchestrator.py:1213-1217 | the request entry is traced, nothing follows it yet, and it is counted |
| `OrchestratorObject.Orchestrator.Exchange` | agent/native_mcp_agent/mcp_orchestrator.py:1217-1219 | evidence and order grow together, by what the answer was; a call that fails was sent exactly if its execution came that far, and adds no evidence |
| `OrchestratorObject.Orchestrator.Request` | agent/native_mcp_agent/mcp_orchestrator.py:1213-1236 | request, response and evidence are noted as planned, a failure of the execution or of an entry goes to the inner handler, and every request noted was sent and answered, but for one that ends the run as its execution says |
| `OrchestratorObject.Orchestrator.Fail` | agent/native_mcp_agent/mcp_orchestrator.py:1228-1236 | a failed call is noted, all later ones are skipped up to one whose entry is refused, and the outcome follows the failure class |
| `OrchestratorObject.Orchestrator.Call` | agent/native_mcp_agent/mcp_orchestrator.py:1197-1236 | one call keeps the ledger; what it notes under the next id and how it ends are what comes of its plan |
| `OrchestratorObject.Orchestrator.CallAll` | agent/native_mcp_agent/mcp_orchestrator.py:1197-1236 | the second pass notes what comes of the plans of the calls in proposal order, up to one that ends the run |
| `OrchestratorObject.Orchestrator.Ask` | agent/native_mcp_agent/mcp_orchestrator.py:1124-1161 | the part of a turn before its proposals ends and notes what comes of its plan; it goes on only uncancelled, in time, with a request and a reply that fit and not too many proposals |
| `OrchestratorObject.Orchestrator.Hear` | agent/native_mcp_agent/mcp_orchestrator.py:1137-1161 | a reply that raises, comes late, does not fit, is final or proposes too much ends the run with the entries and the ending planned for it |
| `OrchestratorObject.Orchestrator.Turn` | agent/native_mcp_agent/mcp_orchestrator.py:1123-1236 | a turn notes and ends with what comes of its plan, and one that goes on was accepted as a whole and had every proposal answered in order |
| `OrchestratorObject.Orchestrator.Open` | agent/native_mcp_agent/mcp_orchestrator.py:1106-1122 | the opening leaves its six entries, or stops where the child fails or at the entry that is refused |
| `OrchestratorObject.Orchestrator.Drive` | agent/native_mcp_agent/mcp_orchestrator.py:1104-1237 | stream and ending are the story of the limits and the world |
| `OrchestratorObject.Orchestrator.Handle` | agent/native_mcp_agent/mcp_orchestrator.py:1238-1250 | the failure class decides entry and outcome |
| `OrchestratorObject.Orchestrator.Finish` | agent/native_mcp_agent/mcp_orchestrator.py:1079-1097 | the closing entries match how the child ended, and the parser accepts the result given room for transcripts |
| `OrchestratorObject.Orchestrator.Run` | agent/native_mcp_agent/mcp_orchestrator.py:1099-1252 | over every provider and child: each action and call id is sent at most once, in proposal order, only from turns accepted as a whole, at most mcp_total_calls in all; evidence matches execution order with increasing ids; outcome and events are those of the story of limits and world, cut by the writer; every request noted was sent and answered but for a last one whose execution failed; every returned transcript is accepted; it raises if not even the terminal marker fits, and with room never otherwise |
| `OrchestratorObject.Orchestrator.Conclude` | agent/native_mcp_agent/mcp_orchestrator.py:1079-1097 | the outcome is that of the ending, through the handler if it was a failure; a transcript the parser refuses is refused again after the handler, so such a run raises |
| `OrchestratorAccount.DecisionUnique` | agent/native_mcp_agent/mcp_orchestrator.py:1123-1252 | within a turn one thing decides, and a turn in which something decides does not go through |
| `OrchestratorAccount.PlanDecides` | agent/native_mcp_agent/mcp_orchestrator.py:1123-1236 | a turn goes through exactly if it passes all checks and all its calls are answered, and its plan is then those entries; otherwise one thing decides, and the plan is what comes up to that, with its verdict |
| `OrchestratorAccount.StoryIs` | agent/native_mcp_agent/mcp_orchestrator.py:1104-1237 | every run ends in its opening, in the turn after those that went through, or with its turns used up, and has noted all that went before and the plan of that place up to its end or to the first entry that is refused |
| `OrchestratorAccount.OutcomeBecause` | agent/native_mcp_agent/mcp_orchestrator.py:1104-1252 | why a run ends as it does: an entry of the plan at that place is refused and the run fails; or the child does not start; or the turns are used up; or one thing decided in the turn after those that went through, and each outcome stands for exactly certain replies, failures, limits and questions |
| `OrchestratorAccount.TidyRuns` | agent/native_mcp_agent/mcp_orchestrator.py:1104-1252 | with call ids of at most 64 characters and numbers of at most 64 digits nothing is refused, and the run ends where its plan ends |
| `OrchestratorAccount.ResultUnique` | agent/native_mcp_agent/mcp_orchestrator.py:1099-1252 | limits and world determine the outcome, the events and the limited flag of a run that returns |
| `OrchestratorAccount.RecordUnique` | agent/native_mcp_agent/mcp_orchestrator.py:1197-1252 | and with them the requests sent, their ids and order, and the evidence |
| `OrchestratorReport.OutcomeTold` | agent/native_mcp_agent/mcp_orchestrator.py:1079-1252 | the last event of a transcript that was not limited names the outcome, and each of the seven names stands for exactly one kind of end: "final" for a final reply, "duplicate" for a repeated proposal, "budget" for the turns used up, and so on |
| `OrchestratorReport.OpeningTold` | agent/native_mcp_agent/mcp_orchestrator.py:1106-1122 | the entries of the opening carry the ids of the two answers and the identity of the surface |
| `OrchestratorReport.TurnTold` | agent/native_mcp_agent/mcp_orchestrator.py:1134-1153 | the entries of a turn carry its number and the sizes of request and reply |
| `OrchestratorReport.CallTold` | agent/native_mcp_agent/mcp_orchestrator.py:1212-1227 | the entries of an answered call carry its action, its proposal and the request id, which counts on over all calls |
| `OrchestratorReport.FailureTold` | agent/native_mcp_agent/mcp_orchestrator.py:1228-1250 | which entry a failure leaves inside a call and in the outer handler |
| `OrchestratorReport.LocalFailureTold` | agent/native_mcp_agent/transcript.py:453-475 | a refused entry is a local validation failure and is noted as that |
| `OrchestratorReport.TooLargeTold` | agent/native_mcp_agent/errors.py:21 | a provider request that is too large is a failure of that name |
| `OrchestratorReport.AuthorizationHidden` | agent/native_mcp_agent/errors.py:43 | the class of a refused authorization is noted as "redacted" |
| `JsonSafety.FeedTree` | src/json_safety.cpp:30-106 | from any running state, a document's events add its tokens and leave depth and keys as they were, or blame a limit it breaks |
| `JsonSafety.PreflightExact` | src/json_safety.cpp:30-106 | a document ends Ok exactly when depth and tokens are within limits and no object repeats a key; otherwise the status is true of it, and the ill-formed branches are never taken |
| `JsonSafety.SafetySax.Receive` | src/json_safety.cpp:20-106 | each callback performs the machine's step |
| `JsonSafety.Preflight` | src/json_safety.cpp:117-136 | Ok exactly for a document within positive limits; zero limits and malformed texts are never Ok |
| `ElfReader.CheckedAdd` | src/elf_analysis.cpp:44-52 | the sum exactly when it has 64 bits |
| `ElfReader.CheckedMultiplyIs` | src/elf_analysis.cpp:54-62 | the product exactly when it has 64 bits |
| `ElfReader.ReadWord` | src/elf_analysis.cpp:138-176 | the positional value of the bytes in either byte order |
| `ElfReader.Reader.Fill` | src/elf_analysis.cpp:91-113 | all the bytes of the range and exactly them, for every sequence of short and interrupted reads; no pread asks outside the range, and no byte is fetched twice |
| `ElfReader.Reader.Read` | src/elf_analysis.cpp:73-117 | every pread, that of a failing read included, asks for a range in the approved part, and the bytes fetched keep to the budget; undisturbed it fails exactly outside the range, over the budget or past the end |
| `ElfNotes.NotesUnique` | src/elf_analysis.cpp:393-430 | a segment is a sequence of notes in one way only |
| `ElfNotes.WalkNotes` | src/elf_analysis.cpp:393-430 | the walk ends with the notes that tile the segment and the first build id among them; it fails exactly if nothing tiles it or the build id is too long |
| `Elf.FindName` | src/elf_analysis.cpp:765-776 | the NUL-terminated string at the offset, or proof that none of bounded length stands there |
| `Elf.NameUnique` | src/elf_analysis.cpp:765-776 | there is one such string |
| `Elf.NameLibraries` | src/elf_analysis.cpp:752-780 | the libraries are exactly the escaped names at the needed offsets, in order, up to the cap, with an exact flag; it fails only where no name stands |
| `Elf.VirtualToFile` | src/elf_analysis.cpp:341-358 | the place in the first load segment that holds the whole range, or none does |
| `Elf.BackedInFile` | src/elf_analysis.cpp:341-358 | a nonempty range held by a checked segment lies in that segment's part of the file and in the approved range |
| `Elf.ReadDynamic` | src/elf_analysis.cpp:690-730 | the entries before the terminating one, the last table address and size among them, all needed offsets in order; it fails exactly without a terminating entry |
| `ElfInspect.ReadHeader` | src/elf_analysis.cpp:483-539 | the header is that of the file, and its table lies in the approved range; undisturbed and with room it succeeds exactly if there is such a header |
| `ElfInspect.ReadProgramHeaders` | src/elf_analysis.cpp:541-577 | each header is the one at its index, computed without wrapping, its segment in the approved range; undisturbed and with room it fails only if some index has none |
| `ElfInspect.ScanSegments` | src/elf_analysis.cpp:597-659 | at most one interpreter and one dynamic segment, and all note segments in order; undisturbed and with room it fails only if there is more than one or the interpreter has no name |
| `ElfInspect.ParseNotes` | src/elf_analysis.cpp:370-433 | the first build id of all note segments in file order; undisturbed and with room it fails only if a segment is no sequence of notes or a limit is exceeded |
| `ElfInspect.ReadLibraries` | src/elf_analysis.cpp:671-780 | the libraries are the names in a string table that lies in one load segment and in the approved range; undisturbed and with room it fails only if there are none such |
| `ElfInspect.Inspect` | src/elf_analysis.cpp:439-791 | for arbitrary bytes and disturbances, success or failure, every pread is in the approved part and all bytes fetched are in the budget; a success describes the file; undisturbed it succeeds exactly on the files that have a description within the limits and the budget |
| `ElfInspect.DescriptionUnique` | src/elf_analysis.cpp:439-791 | a file has at most one description, so the report is determined by its bytes |
| `ElfInspect.LibrariesUnique` | src/elf_analysis.cpp:671-780 | the libraries, the flag and the bytes read for them are determined by the file |
| `ElfLayout.WordReadBack` | src/elf_analysis.cpp:138-176 | a number that fits is read back from its bytes, in either byte order |
| `ElfLayout.HeaderReadBack` | src/elf_analysis.cpp:489-509 | a file header written field by field is parsed as it was written, for both word sizes and byte orders |
| `ElfLayout.Identified` | src/elf_analysis.cpp:453-481 | the identification bytes of each format are taken for that format |
| `ElfLayout.SegmentReadBack` | src/elf_analysis.cpp:549-564 | so is a program header |
| `ElfLayout.EntryReadBack` | src/elf_analysis.cpp:690-703 | so is every entry of a dynamic table |
| `ElfLayout.NoteReadBack` | src/elf_analysis.cpp:393-430 | a note is found as it was written, wherever it stands |
| `ElfLayout.Registered` | src/elf_analysis.cpp:345-430 | segments, dynamic entries and build ids are told by the numbers of the gABI |
| `Escapes.NameReadBack` | src/elf_analysis.cpp:199-220 | the bytes of a name can always be read back from its escaped form |
| `Escapes.EscapeOneIs` | src/elf_analysis.cpp:199-220 | a backslash is doubled, other printable bytes are shown as they are, and any other byte by two digits |
| `Escapes.BuildIdDigits` | src/elf_analysis.cpp:184-197 | a build id is shown by two digits for each byte, the higher one first |
| `Redaction.SecretSpans` | agent/native_mcp_agent/redaction.py:59-71 | the spans are exactly the occurrences of the nonempty secrets, overlapping ones included |
| `Redaction.Merge` | agent/native_mcp_agent/redaction.py:77-83 | the merged spans lie apart and cover the same characters |
| `Redaction.ReplaceSpans` | agent/native_mcp_agent/redaction.py:74-91 | the output keeps the uncovered characters in order, with one marker per maximal covered run |
| `Redaction.RedactText` | agent/native_mcp_agent/redaction.py:106-115 | everything inside an occurrence of a secret is hidden before the text is cut; without a positive bound only the marker is shown |
| `RedactionSecrets.MaskShows` | agent/native_mcp_agent/redaction.py:74-91 | what occurs in a masked text without touching a marker occurs in the text outside of what was hidden |
| `RedactionSecrets.SecretGone` | agent/native_mcp_agent/redaction.py:106-115 | a secret that fits neither the marker nor the cut occurs nowhere in the result, cut or not |
| `RedactionSecrets.MarkerShows` | agent/native_mcp_agent/redaction.py:106-115 | for every secret that agrees with the marker at some offset there are a text and another secret for which the result shows it |
| `RedactionSecrets.CutMakes` | agent/native_mcp_agent/redaction.py:52-56 | for every secret with a question mark and no lone surrogate there is a text without it whose cut result shows it |
| `RedactionSecrets.KeptOutExactly` | agent/native_mcp_agent/redaction.py:106-115 | a secret is kept out of all results if and only if it fits neither the marker nor the cut |
| `RedactionSecrets.ForeignKeptOut` | agent/native_mcp_agent/redaction.py:106-115 | in particular if it shares no character with the marker and has no question mark |
| `RedactionSecrets.MarkerSaysRed` | agent/native_mcp_agent/redaction.py:15 | the secret "red" comes out in the marker that replaces it |
| `RedactionSecrets.MarkerSpelled` | agent/native_mcp_agent/redaction.py:15 | the marker is the text <redacted> |
| `Utf8.CutDecodes` | agent/native_mcp_agent/redaction.py:52-56 | cutting the encoded bytes anywhere and decoding leaves the code points that fit whole |
| `Utf8.FitIsLongest` | agent/native_mcp_agent/redaction.py:52-56 | they are the longest prefix within the bound |
| `Utf8.BoundedIs` | agent/native_mcp_agent/redaction.py:52-56 | a text that fits is unchanged, any other becomes its longest prefix that fits, with lone surrogates replaced |
| `Utf8.BoundedIsPrefix` | agent/native_mcp_agent/redaction.py:52-56 | that is a prefix of the text exactly when no lone surrogate is kept |
| `Utf8.SurrogateCut` | agent/native_mcp_agent/redaction.py:52-56 | a lone surrogate cut to one byte comes out as a question mark |
| `Utf8.Ranges` | agent/native_mcp_agent/redaction.py:52-56 | which code points are surrogates, and which bytes continue a code point |
| `RateLimiter.Limiter.Acquire` | src/tool_service.cpp:780-794 | the method evicts, decides and records as the model does |
| `RateLimiter.DequeIsPastSecond` | src/tool_service.cpp:785-793 | with readings that do not go back, the deque is the grants of the past second |
| `RateLimiter.RefusedWhenFull` | src/tool_service.cpp:789-793 | a call is refused exactly when sixteen grants lie within the past second |
| `RateLimiter.WindowBound` | src/tool_service.cpp:780-794 | with readings that do not go back, no half-open second, wherever it starts, holds more than sixteen grants |
| `RateLimiter.DriftBound` | src/tool_service.cpp:780-794 | with readings that go back by at most a drift, no half-open interval that with the drift is at most a second holds more than sixteen grants |
| `RateLimiter.DriftBreaks` | src/tool_service.cpp:780-794 | for every longer interval there are readings with that drift that put more than sixteen grants into it |
| `RateLimiter.DriftExact` | src/tool_service.cpp:780-794 | the bound holds of all readings with a drift if and only if interval and drift together are at most a second |
| `RateLimiter.StaleReading` | src/tool_service.cpp:783-784 | a reading that goes back lets a seventeenth grant into a second |
| `Statm.ReadPages` | src/process_memory.cpp:406-432 | the loop takes the fields in order, up to seven numbers, and stops in front of a field that no space ends |
| `Statm.Parse` | src/process_memory.cpp:404-450 | accepted exactly when there are seven numbers, a space after the last, and the five products have 64 bits; then with those products |
| `Statm.ParseUnsignedIs` | src/process_memory.cpp:65-80 | a field is a number exactly if it has digits alone and their value has 64 bits |
| `Statm.SpacesAre` | src/process_memory.cpp:410-413 | the four characters between fields |
| `Statm.Unterminated` | src/process_memory.cpp:428-440 | seven numbers without a space at the end are refused |

## Left out

- Thread creation and the constructor's failure path (src/orchestration.cpp:109-131): the model starts with all workers running.
- Delivery of stop requests to a running executor, and the two derived statistics `outstanding` and `queued`: the executor may return at any time anyway.
- Memory ordering: the cancellation flag is read and written as one step.
- Fairness: progress is stated as a bound on the work and an enabled step, and an executor or callback that never returns is a step never taken.
- run_stdio after a failed write or a failed transport (src/server.cpp:644-651 and 665-682): the accounting is for working output and a normal end of input.
- JSON text: the server's parser and `dump` are represented by trees and an arbitrary size function; Python's `json` by the exact text of a transcript and a reader of texts without whitespace, signs and fractions. Documents of another shape than a transcript are not put before the transcript parser.
- The texts of the server's diagnostics, which go to its error stream.
- SHA-256, tool schemas and tool results: a proposal carries whether its tool is known, whether its arguments are valid, and an arbitrary action identity.
- The orchestrator's branch for a proposal that is no proposal object (agent/native_mcp_agent/mcp_orchestrator.py:1164-1166): such a response does not pass the encoding check before it.
- A second run of the same orchestrator object: each object runs once.
- Reading and framing the child's output, tool list pagination and surface revalidation (agent/native_mcp_agent/mcp_orchestrator.py:640-845): a call is answered, unanswered, unwritten or refused.
- Names, flags, hexadecimal forms, summaries and hardening flags in the ELF report, and the file snapshot comparison: read off one branch each.
- Structural redaction by regular expressions, and redaction of headers and JSON values: the same span replacement with other spans, and recursion over values.
- Python's way of skipping an ill-formed byte sequence as a whole: the decoder drops one byte at a time, which comes to the same when errors are ignored.
- from_chars: a number is a nonempty run of digits whose value has 64 bits.
- The parsers of stat, status and smaps_rollup: the same kinds of loops over keys and fields.
- HTTP transports, endpoint policy, credentials, file opening policy, configuration checks, demos and scripts.
