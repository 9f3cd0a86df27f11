# PytteChat turn model

A Dafny model of how PytteChat carries one chat turn from the provider's stream to the database and to a
browser that may lose its connection and come back, with machine-checked proofs of what that path promises.
`dafny verify dfyconfig.toml` checks everything.

## What is modelled

The files follow the program's structure.

- **Turn delivery** (`TurnLog`, `Delivery`, `LiveReaders`, `Readers`). `TurnJob` is the job of `internal/web/server.go` with its fields and
  mutex sections; every method equals a function on the log value. `Delivery` puts the log together with
  any number of reconnecting clients (the `Last-Event-ID` header, section 9.2.4 of the WHATWG HTML Living
  Standard) and proves what they receive under every interleaving. A client that goes away and the server's loop
  that learns of it later are separate steps. `LiveReaders` says what a reader that keeps up is promised over one
  connection. `Readers` has the delivery loop as methods on the job itself.
- **Turn ownership and transcript** (`Chat`, `Storage`). `Session`, `TurnStream` and the turn counters are
  classes with the fields of `internal/chat/service.go`; the messages table is a class over a finite map,
  with transactions that can fail at any statement.
- **The composition** (`Turns`, `TurnInvariants`, `TurnTheorems`). A state machine interleaves the goroutines of all jobs of
  one browser session with each other, with aborts and with readers. One action is one mutex section.
  Upstream results, open failures, failing writes and the clock are choices of the environment. The theorems
  hold for every sequence of actions from every conversation history. `Refinement` proves that the methods of
  `Session` and `TurnStream` are sections of this machine. `JobRun` is `turnJob.run` with its loop and its deferred
  calls; its contract says that the whole of it is a sequence of the machine's moves (which by `MachineRuns` is a
  run of the world, so that every theorem about runs speaks of this code), what its log shows of the events heard, and which
  terminal event is announced when. `Endings` tells the same by prompt, index, cause, failing write and looks for an abort.
- **The stream text pipeline** (`Llm`, `Accumulator`, `Json`, `JsonCodec`, `Provider`, `Sse`, `Mapper`, `Framing`, `EndToEnd`, `TextRoutes`,
  `StreamGrammar`). The provider's writer,
  the client's line reader, frame gathering and payload mapper with its ledger of seen parts, and the part
  accumulator, each as written, and one theorem through all of them, also with any two of the three text routes struck.
  `StreamGrammar` is the order of a streamed response. The reader follows the code where it
  differs from section 9.2.6 of the same standard: it dispatches an incomplete event at the end of the body
  and does not end lines at a bare CR.
- **The markdown scanners** (`Fences`, `BlockStreamer`, `FenceLines`, `Artifacts`, `ArtifactLines`, `Citations`, `CodeElements`,
  `MathDelimiters`). The incremental block splitter against a
  character automaton over the whole text, artifact extraction, citation decoration and math protection.
  `FenceLines`, `ArtifactLines` and `CodeElements` say by the characters of lines, tags and markers what the scanners take them for.
  Fences are simpler than those of section 4.5 of CommonMark, as they are in the code.

## What turned out false

- *Release before announce* fails once a partial commit cannot be written: the job announces `stream-error`
  while its stream still owns the session, so the next job can be refused, and the first job's late `Close`
  then clears the flag of a third job's open turn. `TurnTheorems.LostWriteBreaksRelease` builds that run from any
  stored conversation. `ReleaseBeforeAnnounce` and `LateCloseIsHarmless` hold whenever no partial commit was lost;
  `RefusedOnlyBehindLostWrite` and `LateCloseExactly` give, for every run, the exact condition.
- A payload that ends in a CR does not survive framing: the reader takes the CR for part of the line
  ending (`Framing.TrailingCrIsLost`, an if and only if). The JSON payloads of the provider never do.
- Restoring math delimiters gives back the original exactly when the input holds none of the four tokens
  (`MathDelimiters.MathRoundTrip`, an if and only if).
- Two chunkings of one text can make different blocks: `BlockStreaming.ChunkingsDiffer` gives a pair. They
  make the same blocks and leave the same rest exactly when they are alike behind the lines that close a
  fence: one ends a piece with such a line whenever the other does, and, where neither does and a CR LF
  follows, one parts the CR from the LF whenever the other does (`BlockStreaming.ChunkingsAgree`, an if and only if).

## What is relied on

- Strings are sequences of code points; inputs are valid UTF-8. Nil and empty slices are the same value.
- A JSON codec is any pair of functions with `Json.Faithful`: decoding undoes encoding, and an encoded object is one
  line in braces. `JsonCodec.FaithfulCodecExists` shows that such a codec exists. A number is a decimal numeral, a
  mantissa and a power of ten. Encoding a stream event for the browser never fails.
- Hashes are an arbitrary function; the model name, usage numbers and normalized input are parameters.
- A stored completion time reads back as it was written.

## Model

| member | source | states |
|---|---|---|
| TurnLog.TurnJob.EmitEvent | internal/web/server.go:1288-1308 | the new log is the old one with the event appended, offered to every live channel; full channels are closed and dropped; nothing happens once terminal |
| TurnLog.TurnJob.EmitTerminalEvent | internal/web/server.go:1310-1331 | the terminal event is logged once, offered to every live channel, and all of them are closed |
| TurnLog.TurnJob.SubscribeFrom | internal/web/server.go:1341-1356 | the replay is what the last seen number leaves; a live job adds one open, empty channel, a terminal one none |
| TurnLog.TurnJob.UnsubscribeFrom | internal/web/server.go:1358-1367 | a live channel is closed and forgotten, any other is left alone |
| TurnLog.TurnJob.ReceiveFrom | internal/web/server.go:300-303 | a reader takes the oldest event of its channel |
| TurnLog.TurnJob.FinishJob | internal/web/server.go:1369-1385 | the job ends terminal and done; channels still live are closed, each once |
| TurnLog.TurnJob.BeginAbort | internal/web/server.go:1387-1396 | an abort is accepted exactly while the job is not terminal, and only marks the request |
| TurnLog.TurnJob.Send | internal/web/server.go:1300-1306 | a channel is only sent to while open, and holds at most its capacity |
| TurnLog.TurnJob.CloseChannel | internal/web/server.go:1304-1305 | a channel is only closed while open |
| TurnLog.MissedIsSuffix | internal/web/server.go:1345-1349 | with numbers for positions the replay is exactly the events after the last seen one |
| TurnLog.EmitWellFormed | internal/web/server.go:1288-1331 | numbers stay positions, live channels open, dropped ones closed, queues bounded |
| TurnLog.SubscribeWellFormed | internal/web/server.go:1341-1356 | the same for subscribing |
| TurnLog.UnsubscribeWellFormed | internal/web/server.go:1358-1367 | the same for unsubscribing and receiving |
| TurnLog.FinishWellFormed | internal/web/server.go:1369-1396 | the same for finishing and aborting |
| Delivery.StepSound | internal/web/server.go:280-310 | one step of any party keeps every client's received events a prefix of the log, with replay and queue continuing it |
| Delivery.StepGrows | internal/web/server.go:1288-1356 | no step shortens a log or takes back what a client received |
| Delivery.RunSound | internal/web/server.go:280-310 | the delivery invariant holds after every run |
| Delivery.ExactDelivery | internal/web/server.go:280-310 | over any number of connections a client has received a gap-free, duplicate-free prefix of the log, even when dropped at a full buffer or connected again before the server noticed |
| Delivery.TerminalConnectionCompletes | internal/web/server.go:280-296 | a connection made after the job is terminal owes its client exactly the rest of the log |
| Delivery.TerminalConnectionEnds | internal/web/server.go:280-310 | read to its end, it has completed the client to the whole log |
| Delivery.TerminalLogFrozen | internal/web/server.go:1292-1294 | after the terminal event the log never changes |
| LiveReaders.DroppedExactly | internal/web/server.go:1298-1307 | at an emission a live connection is dropped exactly when its reader is 128 events or more behind, not counting what its replay still owes |
| LiveReaders.LiveConnectionCompletes | internal/web/server.go:280-310 | a client that connects at any time, stays and keeps up at every emission is never dropped: one connection ends only with the whole log received |
| LiveReaders.LiveConnectionEnds | internal/web/server.go:285-310 | and once the log is complete one delivery for each event missing and one more end it |
| Readers.Audience.Join | internal/web/server.go:280-283 | a connection subscribes from the last number its client saw |
| Readers.Audience.ReadNext | internal/web/server.go:285-310 | one round of the delivery loop is one delivery of the model |
| Readers.Audience.Act | internal/web/server.go:280-310 | everything readers, abandoned loops and aborts do to a job is a step of the model |
| Readers.OutsideKeeps | internal/web/server.go:280-310 | none of it adds to the log or ends the job |
| Chat.ReplaceFromAlternating | internal/chat/service.go:373-385 | on an alternating transcript of whole turns exactly the even indexes from 0 to the length are accepted |
| Chat.ExtendedAlternates | internal/chat/service.go:399-405 | committing at an accepted index keeps the transcript alternating and of even length |
| Chat.Session.Open | internal/chat/service.go:43-57 | a persisted session starts with exactly the stored messages in order; it fails exactly for a bad conversation or when the query, a row or the end of the rows fails |
| Chat.Session.Send | internal/chat/service.go:77-139 | which error comes when; a success owns the turn and has sent the kept messages and the prompt; a failure leaves the session free as it was; every started turn is open or counted as failed |
| Chat.Session.CommitStopped | internal/chat/service.go:154-173 | the prompt with an empty answer is put at its index in memory and table and any turn in flight is released, or nothing changes |
| Chat.Session.ValidateReplaceFrom | internal/chat/service.go:147-152 | no error exactly when the index is accepted |
| Chat.Session.AppendOrReplaceTail | internal/chat/service.go:387-407 | memory and table change together to the same new transcript and the turn is released; a failed write changes neither |
| Chat.TurnStream.AppendDelta | internal/chat/service.go:244-254 | the last part grows by the delta when it is of its kind, else a new part with only that text follows; every other part stands |
| Chat.TurnStream.MergeCompletedPart | internal/chat/service.go:256-291 | the part is dropped when untyped; completes the last reasoning part in its non-empty fields; replaces the trailing text it repeats; else becomes the new last part; every other part stands |
| Chat.TurnStream.Finalize | internal/chat/service.go:293-311 | commits once, only a completed turn unless told otherwise, with a time exactly when completed |
| Chat.TurnStream.CommitPartial | internal/chat/service.go:236-238 | commits what has arrived without a time, or does nothing when finalized |
| Chat.TurnStream.Abort | internal/chat/service.go:327-333 | releases the session only when the stream still owns its turn |
| Chat.TurnStream.CompleteTurn | internal/chat/service.go:209-216 | a completed turn that is still owned is committed whole and counted as completed, or given up and counted as failed; a finalized stream commits nothing |
| Chat.TurnStream.Next | internal/chat/service.go:192-226 | per upstream result, in every state of the stream: the event passed on, the parts grown by their rules, the transcript, the ownership and the counter; every error but cancellation gives the turn up |
| Chat.TurnStream.Close | internal/chat/service.go:228-234 | never changes the transcript; counts an uncounted turn as cancelled; releases only what it owns |
| Chat.TurnStream.RecordCompleted | internal/chat/service.go:335-341 | one counter rises by one, the first time only |
| Chat.TurnStream.RecordCancelled | internal/chat/service.go:343-349 | one counter rises by one, the first time only |
| Chat.TurnStream.RecordFailed | internal/chat/service.go:351-357 | one counter rises by one, the first time only |
| Chat.TurnStream.RecordError | internal/chat/service.go:359-365 | cancellation counts as cancelled, everything else as failed |
| Storage.HoldsReadsBack | internal/storage/sqlite.go:376-414 | a table numbered 1..n that holds a transcript reads back as that transcript |
| Storage.HoldsCount | internal/storage/sqlite.go:426-463 | then the maximum number and the row count are the transcript's length |
| Storage.InsertNeverCollides | internal/storage/sqlite.go:133-142 | the numbers a commit inserts are free, so the uniqueness constraint never fires |
| Storage.DeleteKeepsPrefix | internal/storage/sqlite.go:464-469 | deleting the numbers above `keep` keeps exactly the first `keep` messages |
| Storage.InsertAppends | internal/storage/sqlite.go:476-505 | inserting at the end holds the transcript with the turn appended |
| Storage.OthersUntouched | internal/storage/sqlite.go:416-505 | other conversations read back unchanged |
| Storage.CommittedHolds | internal/storage/sqlite.go:416-474 | a commit of either kind takes a table that holds a transcript to one that holds the next |
| Storage.SQLite.Messages | internal/storage/sqlite.go:376-414 | the messages of a conversation in number order, or an error for a bad identifier, a failing query or an unreadable row |
| Storage.SQLite.AppendTurn | internal/storage/sqlite.go:416-438 | succeeds exactly for valid arguments and no failing statement; a failure leaves the table unchanged |
| Storage.SQLite.ReplaceTailAndAppendTurn | internal/storage/sqlite.go:440-474 | the same for a tail replacement, refused for an index beyond the rows |
| Storage.SQLite.InsertTurnAtSequence | internal/storage/sqlite.go:476-505 | inserts the two rows exactly when both numbers are free |
| TurnInvariants.SectionsEnabled | internal/chat/service.go:293-311 | no section of a reachable job is out of range: the index taken at `Send` is valid at commit |
| TurnInvariants.SectionVerdict | internal/web/server.go:1251-1286 | whatever a section makes a job announce is true of what the job has written |
| TurnInvariants.SectionTurn | internal/chat/service.go:387-407 | every write is the job's own turn on top of what it sent, and keeps alternation and the table |
| TurnInvariants.SectionEffect | internal/chat/service.go:293-333 | how each section changes the transcript and who owns the turn |
| TurnInvariants.SectionMeter | internal/chat/service.go:335-365 | every section keeps started minus recorded equal to the turns still open |
| TurnTheorems.StepKeeps | internal/web/server.go:1103-1190 | one action of anybody keeps the whole invariant |
| TurnTheorems.EveryRunKeeps | internal/web/server.go:1103-1190 | the invariant holds after every run from every history |
| TurnTheorems.OneTrueTerminalEvent | internal/web/server.go:1251-1331 | at most one terminal event, last; `done` exactly when a completed turn was committed, `stream-error` only when nothing was, `aborted` when nothing or one unfinished turn was |
| TurnTheorems.ReadersAreToldTheTruth | internal/web/server.go:1170-1186 | what a reconnecting reader was given is a prefix of the log, and the parts and time of a `done` it was given are those committed |
| TurnTheorems.TranscriptIsItsWrites | internal/chat/service.go:387-407 | the transcript is the history carried through every job's single write, in order |
| TurnTheorems.MemoryRefinesStorage | internal/storage/sqlite.go:376-505 | after every step the table is numbered 1..n and reads back as the session's messages |
| TurnTheorems.FailedWriteChangesNothing | internal/chat/service.go:387-398 | a failed write changes neither transcript nor table |
| TurnTheorems.ContextEqualsHistory | internal/chat/service.go:103-118 | a committed turn left exactly the messages sent upstream followed by the answer |
| TurnTheorems.ReplaceableAreTheEvenIndexes | internal/chat/service.go:373-385 | over every run the transcript alternates and exactly the even indexes in range can be replaced from |
| TurnTheorems.TurnAccounting | internal/chat/service.go:335-365 | at every point started equals completed plus cancelled plus failed plus open, and no ended job is open |
| TurnTheorems.ReleaseBeforeAnnounce | internal/web/server.go:199-208 | without a lost write no admitted job is refused, only the last job can own the turn, and no stopped prompt is committed beside an open turn |
| TurnTheorems.LateCloseIsHarmless | internal/chat/service.go:228-234 | without a lost write a late `Close` changes neither the flag nor the transcript |
| TurnTheorems.RefusedOnlyBehindLostWrite | internal/web/server.go:1259-1271 | in every run a job is refused exactly when a turn is in flight, and then an earlier job with a lost write has yet to close |
| TurnTheorems.LateCloseExactly | internal/chat/service.go:327-333 | in every run a late `Close` clears the flag exactly when its own write was lost |
| TurnTheorems.LostWriteBreaksRelease | internal/web/server.go:1259-1271 | a run in which a lost write gets the next job refused and a third job's flag cleared |
| Refinement.SendRuns | internal/chat/service.go:77-139 | `Send` changes session, table and counters exactly as the machine's opening sections do |
| Refinement.NextRuns | internal/chat/service.go:192-226 | `Next` is the machine's pull followed by its commit or release |
| Refinement.CommitPartialRuns | internal/chat/service.go:236-238 | `CommitPartial` is the machine's partial commit |
| Refinement.CloseRuns | internal/chat/service.go:228-234 | `Close` is the machine's closing section |
| Refinement.CommitStoppedRuns | internal/chat/service.go:154-173 | `CommitStopped` is the machine's commit of a stopped prompt |
| MachineRuns.MovesAreARun | internal/web/server.go:1103-1190 | what one job does in a row, readers and aborts included, is a run of the whole world |
| Sections.SendMoves | internal/chat/service.go:103-138 | taking the turn, opening the stream and giving the turn back are the machine's sections in a row |
| Sections.PullMoves | internal/chat/service.go:192-226 | a result that shows nothing is taken, committed or given up by the machine's sections in a row |
| JobRun.Goroutine.Run | internal/web/server.go:1103-1190 | the goroutine is a run of the machine's job from spawned to finished; the log shows the events heard before the first result that ended the stream, each preview with all text so far, and then the one terminal event that this result, the looks for an abort and the failing write determine; so are transcript and flag; the turn was counted once, as completed exactly when done |
| JobRun.WhichEnding | internal/web/server.go:1119-1190 | done exactly for a completion that is written; an error exactly when a cancelled turn's write is lost or any other failure was met and no look saw an abort; otherwise aborted; an error leaves the transcript alone |
| Endings.WhichWrite | internal/web/server.go:1119-1190 | a completion whose write works adds the answer announced as done, with its time; a cancellation whose write works what was heard, without one; nothing else changes the transcript |
| Endings.WhichRefusal | internal/web/server.go:1107-1113 | a turn that could not start is stopped at the first look or by a cancellation, and then its prompt is added with an empty answer or an error announced; otherwise aborted exactly at the second look, with nothing changed |
| Endings.WhichError | internal/chat/service.go:77-118 | a turn starts exactly for a prompt that says something, with no turn in flight, from an index where a prompt stands or nothing more, when the stream opens; the first that fails is the error |
| JobRun.LiveShows | internal/web/server.go:1142-1168 | entry for entry the log shows the events that say something: a preview with all text deltas up to its own, or the reasoning delta |
| JobRun.PreviewsExtend | internal/web/server.go:1142-1158 | of two previews the later properly extends the earlier |
| JobRun.LastPreview | internal/web/server.go:1142-1186 | without completed text parts the last preview is the text of the parts shown as done and stored |
| JobRun.Goroutine.Start | internal/web/server.go:1106-1114 | an open stream with nothing heard, or the error that prompt, flag, index and upstream determine |
| JobRun.Goroutine.Read | internal/web/server.go:1122-1189 | the loop stops at the first result that ends the stream, with everything before it shown and the ending right |
| JobRun.Goroutine.ReadEvent | internal/web/server.go:1142-1168 | one round: the parts of session and web job grow alike, and the event is shown |
| JobRun.Goroutine.ReadEnding | internal/web/server.go:1122-1189 | the last round announces what the result, the looks and the failing write determine, with the parts shown being those stored |
| JobRun.Goroutine.Show | internal/web/server.go:1142-1168 | a text delta that is not empty logs a preview with all text up to it, reasoning its delta, and nothing else is logged; the parts grow by the event |
| JobRun.Goroutine.Fail | internal/web/server.go:1123-1140 | after an error: aborted if the first look or the cause says so and no write is lost, else aborted if the second look says so, else an error; only a cancelled turn is committed |
| JobRun.Goroutine.EmitError | internal/web/server.go:1251-1257 | aborted exactly when this look saw a request or the cause is a cancellation |
| JobRun.Goroutine.EmitAbortedAfterPartial | internal/web/server.go:1259-1271 | an error exactly when the commit is due and its write fails, and then nothing changed; otherwise aborted, with what was heard committed if due |
| JobRun.Goroutine.EmitAbortedAfterStop | internal/web/server.go:1259-1271 | an error exactly when the stopped prompt cannot be committed, and then nothing changed; otherwise aborted, committed and released, even beside an open turn |
| JobRun.Goroutine.Refused | internal/web/server.go:1107-1113 | a failed `Send` ends as the cause, the looks and the failing write determine |
| JobRun.Goroutine.Opened | internal/web/server.go:1115-1190 | the loop and the deferred `Close`: the right ending, a free session and one count |
| JobRun.LiveIsLive | internal/web/server.go:1142-1168 | no live event is terminal |
| Accumulator.TextOfAppendDelta | internal/chat/service.go:244-254 | a delta adds exactly its text to the message's text, or nothing for reasoning |
| Accumulator.TextOfMergeCompleted | internal/chat/service.go:256-291 | a completed part adds its whole text, or exactly what the streamed text lacks |
| Accumulator.AbsorbAllKeepsText | internal/chat/service.go:202-208 | the accumulated text is all text deltas in order, whatever comes in between |
| Accumulator.MergedExactly | internal/chat/service.go:256-291 | the rule for completed parts, by fields and positions, holds of exactly the parts that are computed |
| Accumulator.GrownExactly | internal/chat/service.go:202-208 | the same for any event: the rules for deltas and completed parts leave no choice |
| Accumulator.EveryEventGrows | internal/chat/service.go:202-208 | any events take the parts from state to state, each by its own rule |
| Accumulator.ReasoningKept | internal/chat/service.go:256-291 | a completed reasoning item is never lost: its non-empty fields stand in the last reasoning part, a new one exactly when there was none |
| Accumulator.AppendOutputDelta | internal/web/server.go:1196-1206 | the web job's copy grows the parts by the same rule as the session's |
| Accumulator.MergeCompletedOutputPart | internal/web/server.go:1208-1240 | the same for completed parts: completed, replaced or new last part, and nothing lost |
| Llm.MessageText | internal/llm/llm.go:66-74 | the text of all text parts in order |
| Mapper.KeyStringInjective | internal/llm/openresponses/client.go:421-423 | different content parts have different keys, even with slashes in item identifiers |
| Mapper.ExactlyOnce | internal/llm/openresponses/client.go:329-408 | a part's text is passed on once, whichever of the three routes carry it and whatever comes in between |
| Mapper.DeliveredInShares | internal/llm/openresponses/client.go:329-408 | the delivered text is the text of the accepted offers in order, and a part's share of it is the text of its own accepted offers |
| Mapper.DeliveredOnce | internal/llm/openresponses/client.go:329-408 | in the delivered text a well-ordered part's share is its text, once |
| Mapper.TextIsPassed | internal/llm/openresponses/client.go:329-376 | the text of a payload's event is what the ledger lets through |
| Mapper.PassedAppend | internal/llm/openresponses/client.go:410-415 | the ledger carries over from payload to payload |
| Mapper.AssistantMessageOffers | internal/llm/openresponses/client.go:378-408 | a completed message of the assistant offers exactly its `output_text` and `text` content in order, under its item and the content's position |
| Mapper.OtherItemOffers | internal/llm/openresponses/client.go:378-383 | a completed item of any other type or role offers no text |
| Mapper.OtherItemSkipped | internal/llm/openresponses/client.go:329-376 | and, unless it is reasoning, delivers nothing |
| Mapper.TextOffers | internal/llm/openresponses/client.go:329-350 | deltas and done texts offer their own text under the item and indexes they name; no other payload but a completed item offers any |
| Mapper.MessageDelivers | internal/llm/openresponses/client.go:378-408 | a completed message of the assistant delivers each piece that is not empty and was not seen, in order, as one event |
| Mapper.ReasoningDelivers | internal/llm/openresponses/client.go:425-437 | a completed reasoning item is delivered with text, identifier, summary and encrypted content |
| Mapper.ContentTextSpells | internal/llm/openresponses/client.go:487-501 | its text is that of all objects in its content, in order |
| Mapper.SummaryKeepsTexts | internal/llm/openresponses/client.go:468-485 | its summary is the non-empty texts, in order |
| Mapper.ReasoningStreams | internal/llm/openresponses/client.go:329-376 | reasoning deltas come under three names |
| Mapper.CompletionDelivers | internal/llm/openresponses/client.go:439-446 | a completion carries its response's identifier |
| Mapper.FailureFails | internal/llm/openresponses/client.go:503-518 | a failure ends the stream with the response's message, else the payload's own, else a stock one |
| Mapper.OthersSkipped | internal/llm/openresponses/client.go:329-376 | payloads of any other type deliver nothing |
| Json.TruncatesTowardZero | internal/llm/openresponses/client.go:547-557 | a fractional index becomes the whole number next to it on the side of zero |
| EndToEnd.StreamTextIsPassed | internal/llm/openresponses/client.go:288-408 | over a whole stream the text delivered is exactly what the ledger lets through of all offers, in order |
| EndToEnd.OnePartOnce | internal/llm/openresponses/client.go:329-408 | a stream about one content part delivers its text once, whichever routes are used |
| EndToEnd.EveryPartOnce | internal/llm/openresponses/client.go:329-408 | a stream about any number of parts delivers shares, and each well-ordered part's share is its text, once |
| JsonCodec.FaithfulCodecExists | internal/llm/openresponses/fakeprovider/provider.go:482-495 | a codec with all that is relied on exists |
| JsonCodec.WrittenOnce | internal/llm/openresponses/client.go:288-308 | its notation reads back in one way only, whatever follows |
| Sse.Stream.ReadLine | internal/llm/openresponses/client.go:276-286 | the next line of the body without its ending, or why there is none |
| Sse.Stream.MapDecoded | internal/llm/openresponses/client.go:329-376 | the outcome and the ledger are those of the mapping function |
| Sse.Stream.MissingMessageText | internal/llm/openresponses/client.go:378-408 | exactly the texts of a completed message that were not seen before |
| Sse.Stream.Dispatch | internal/llm/openresponses/client.go:288-308 | gathered data becomes one payload's event, the end, or an error |
| Sse.Stream.Next | internal/llm/openresponses/client.go:225-267 | yields exactly the next event of what the whole-body reference says remains |
| Sse.Stream.AtEnd | internal/llm/openresponses/client.go:230-247 | an incomplete event still counts at the end of the body, not at a failure |
| Framing.FramingRoundTrip | internal/llm/openresponses/client.go:225-308 | framed payloads are recovered in order, unchanged by comments, event names and line endings |
| Framing.AnyFraming | internal/llm/openresponses/client.go:225-308 | payloads of any number of lines come back whole, with or without the space behind the colon; a last frame without its blank line counts at the end of the body and not at a failure |
| Framing.JoinedApart | internal/llm/openresponses/client.go:288-292 | data lines are put together with one line feed between them |
| Framing.TrailingCrIsLost | internal/llm/openresponses/client.go:276-286 | a line-feed-free payload survives exactly when it does not end in a CR |
| Framing.NextTerminates | internal/llm/openresponses/client.go:225-267 | on any body `Next` ends within the number of line feeds plus two calls |
| Framing.Drain | internal/llm/openresponses/client.go:225-267 | reading to the end yields the whole trace |
| Provider.ChunksSpell | internal/llm/openresponses/fakeprovider/provider.go:469-480 | the chunks spell the text, none longer than eight, none empty unless the text is |
| Provider.ChunkText | internal/llm/openresponses/fakeprovider/provider.go:469-480 | the loop cuts the text as the chunk function does |
| Provider.BuildStreamEvents | internal/llm/openresponses/fakeprovider/provider.go:363-460 | the event list, typed and numbered from zero without gaps |
| StreamGrammar.StreamIsInOrder | internal/llm/openresponses/fakeprovider/provider.go:363-460 | from creation to completion the stream keeps the order of items, parts and deltas: each is added, spelled by its deltas and done with the text they spell, under its own identifier and position, and the completion lists the items done |
| Provider.WriteStream | internal/llm/openresponses/fakeprovider/provider.go:482-503 | the body is the wire form of the events' lines and the closing mark |
| EndToEnd.BodyFrames | internal/llm/openresponses/client.go:225-308 | what is written for any events is framed as their encodings in order |
| EndToEnd.StreamIsRead | internal/llm/openresponses/client.go:225-408 | the provider's stream is read as reasoning deltas, the reasoning item, text deltas and completion, and nothing else |
| EndToEnd.ToldAccumulates | internal/chat/service.go:244-291 | those events accumulate to one complete reasoning part and the text |
| EndToEnd.EndToEndText | internal/llm/openresponses/fakeprovider/provider.go:363-503 | written, read, mapped and accumulated, a response's text is exactly its output text, with one reasoning part with its text, identifier, summary and encrypted content |
| EndToEnd.BuiltResponses | internal/llm/openresponses/fakeprovider/provider.go:139-177 | every built response is of the kind the theorem covers, with a non-empty text |
| TextRoutes.AnyRouteDelivers | internal/llm/openresponses/client.go:329-408 | with any one or two of deltas, done text and message item struck from the stream the accumulated text is still exactly the output text |
| TextRoutes.AllRoutes | internal/llm/openresponses/fakeprovider/provider.go:363-460 | with none struck it is the provider's own stream |
| TextRoutes.BuiltSayThemselves | internal/llm/openresponses/fakeprovider/provider.go:139-177 | every built response is of the kind that theorem covers |
| EndToEnd.StreamTurn | internal/chat/service.go:192-226 | a whole turn commits that answer on top of the transcript, or, when the write fails, nothing |
| BlockStreaming.StreamedIsSplit | internal/markdown/streamer.go:11-101 | for every chunking the emitted blocks and the pending text are those of the whole-text automaton |
| BlockStreaming.ChunkingsAgree | internal/markdown/streamer.go:11-101 | two chunkings of a text make the same blocks and rest exactly when they are alike behind its closing fence lines |
| BlockStreaming.ChunkingsDiffer | internal/markdown/streamer.go:46-68 | two chunkings of one text with different blocks |
| BlockStreaming.StreamedTextIsWhole | internal/markdown/streamer.go:11-27 | blocks and pending text together are the text, nothing lost or reordered |
| BlockStreaming.BlockBoundaries | internal/markdown/streamer.go:29-101 | a block ends after every blank line outside a fence; any other ends behind a closing fence or one CR after it; none ends inside a fence |
| FenceLines.BlocksEndByLines | internal/markdown/streamer.go:29-101 | by lines and characters: a block ends after every blank line outside fences, any other behind a line that closes a fence or one CR after it, however the text is split |
| FenceLines.FencesExist | internal/markdown/streamer.go:46-80 | every text has fences that lead from line to line, none at first |
| FenceLines.OpensExactly | internal/markdown/streamer.go:103-116 | a line opens a fence exactly with a maximal run of three or more equal backticks or tildes behind its white space, whatever follows |
| FenceLines.ClosesExactly | internal/markdown/streamer.go:118-130 | it closes one exactly with a run of its marker at least as long and only white space behind |
| FenceLines.LeadsExactly | internal/markdown/streamer.go:46-80 | the fence behind a line is the one those two rules lead to |
| BlockStreaming.BlockStreamer.Add | internal/markdown/streamer.go:11-19 | emits the blocks of one pass over the pending text and keeps the rest |
| BlockStreaming.AddAll | internal/markdown/streamer.go:11-19 | any sequence of `Add` calls emits the blocks, and keeps the rest, of the whole text cut by the automaton |
| BlockStreaming.StreamAll | internal/markdown/streamer.go:11-23 | added and flushed, a text comes out as those blocks and the rest as one more, nothing lost |
| BlockStreaming.RestStays | internal/markdown/streamer.go:21-23 | flushing finds no further cut in what is pending |
| BlockStreaming.BlockStreamer.Flush | internal/markdown/streamer.go:21-23 | emits all pending text, once |
| BlockStreaming.BlockStreamer.CompletedBlocks | internal/markdown/streamer.go:29-101 | a pass, and when final the rest as one more block |
| BlockStreaming.BlockStreamer.CompleteIn | internal/markdown/streamer.go:36-86 | the line scan finds exactly the automaton's cuts |
| Artifacts.PlanKeepsLines | internal/markdown/renderer.go:137-188 | the segments spell the input lines, in order |
| Artifacts.PlanWellCut | internal/markdown/renderer.go:137-247 | no opener is taken inside a fence, artifacts end at the first closer, unclosed openers stay text |
| Artifacts.OnlyOneCut | internal/markdown/renderer.go:137-247 | no other division obeys those rules |
| ArtifactLines.ExtractionByLines | internal/markdown/renderer.go:137-247 | by lines and characters: the full lines of the input divide in exactly one way so that each artifact runs, outside fences, from an opening line to the first closing one and no copied line could open one; extraction is that division |
| ArtifactLines.OpenerExactly | internal/markdown/renderer.go:227-234 | an artifact opens exactly with `:::artifact` behind white space that is not four spaces, and then white space only, or a space |
| ArtifactLines.CloserExactly | internal/markdown/renderer.go:236-239 | it closes exactly with `:::` between white space that does not start with four spaces |
| ArtifactLines.FenceBegunExactly | internal/markdown/renderer.go:196-213 | a fence begins exactly with a maximal run of three or more equal backticks or tildes directly behind at most three spaces |
| ArtifactLines.FenceEndedExactly | internal/markdown/renderer.go:215-225 | it ends exactly with a run of its marker at least as long, so placed, and only white space behind |
| Artifacts.ExtractionLosesNothing | internal/markdown/renderer.go:137-188 | every input line is copied in order or is opener, verbatim content or closer of exactly one artifact; the j-th artifact's place holds the j-th marker, which the input does not contain, behind just the line feeds that set it apart |
| Artifacts.MarkersDistinct | internal/markdown/renderer.go:249-255 | markers are absent from the input and differ between artifacts |
| Artifacts.SuffixBounded | internal/markdown/renderer.go:249-255 | the marker search ends |
| Artifacts.FindMarker | internal/markdown/renderer.go:249-255 | the loop finds the first free marker |
| Artifacts.ExtractArtifactBlocks | internal/markdown/renderer.go:137-188 | the loop computes the extraction |
| Citations.DecorateIdempotent | internal/markdown/renderer.go:381-480 | decorating twice is decorating once, on every string |
| Citations.TagsAndCodeKept | internal/markdown/renderer.go:381-453 | any string falls in exactly one way into complete tags, runs of text and a final unclosed tag; every tag and every run inside `pre` or `code` stands unchanged and in order, the rest is decorated |
| Citations.DecorateSplits | internal/markdown/renderer.go:381-416 | what stands behind complete tokens is decorated on its own, at the depth they leave |
| Citations.OnlyOneParse | internal/markdown/renderer.go:386-414 | a string falls into tokens in one way only |
| Citations.CodeUntouched | internal/markdown/renderer.go:381-453 | in particular, text behind a tag that opens code is copied unchanged, markers and all |
| CodeElements.DepthExactly | internal/markdown/renderer.go:439-480 | by the characters of a tag: the depth rises exactly for `<`, blanks and the whole name `pre` or `code` in any case, not ending in `/>`; falls, not below zero, exactly for the same behind `</`; else stays |
| CodeElements.CodeKept | internal/markdown/renderer.go:386-453 | so told, every complete tag and every run of text inside code stands unchanged in any string, and the rest is decorated |
| CodeElements.ElementUntouched | internal/markdown/renderer.go:386-453 | a `pre` or `code` element with any attributes and no tag inside is copied, markers and all, and what follows is decorated as if it were not there |
| CodeElements.MarkerTaken | internal/markdown/renderer.go:373-373 | `【turn`, digits, one of six kinds, digits, `】` is a marker with that identifier |
| CodeElements.MarkerHas | internal/markdown/renderer.go:482-507 | and whatever is taken for a marker has that form |
| CodeElements.MarkerBecomesChip | internal/markdown/renderer.go:418-437 | a marker becomes the span that carries its identifier twice, letter for letter |
| CodeElements.OtherCopied | internal/markdown/renderer.go:418-437 | where no marker stands the character is copied |
| Citations.IdChars | internal/markdown/renderer.go:373-373 | identifiers are letters and digits, so escaping changes nothing |
| Citations.FindMatches | internal/markdown/renderer.go:482-507 | the loop finds exactly the valid markers, left to right |
| Citations.DecorateCitationText | internal/markdown/renderer.go:418-437 | text with every valid marker replaced by its chip |
| Citations.DecorateCitations | internal/markdown/renderer.go:381-416 | the loop computes the decoration |
| MathDelimiters.RestoreAfterProtect | internal/markdown/renderer.go:349-371 | restoring a protected string is restoring the string, for every string |
| MathDelimiters.RestoreUnchanged | internal/markdown/renderer.go:366-371 | restoring changes nothing exactly when no token occurs |
| MathDelimiters.MathRoundTrip | internal/markdown/renderer.go:359-371 | the round trip gives the original exactly when no token occurs in it |
| MathDelimiters.DelimiterByDelimiter | internal/markdown/renderer.go:349-371 | wherever one of the four delimiters stands it becomes its own token, and back, with both sides treated as if they stood alone |
| MathDelimiters.NothingLeft | internal/markdown/renderer.go:359-371 | a protected text contains none of the four delimiters, a restored one none of the four tokens |
| MathDelimiters.ProtectUnchanged | internal/markdown/renderer.go:359-364 | a text without delimiters is protected as it is |
| MathDelimiters.ProtectMathDelimiters | internal/markdown/renderer.go:359-364 | the loop over the table |
| MathDelimiters.RestoreMathDelimiters | internal/markdown/renderer.go:366-371 | the loop over the table |

## Left out

- Several browser sessions of one user over one conversation: they hold separate `Session` objects that do not see each other's commits; all statements are for one session per conversation.
- Wall-clock time, timeouts, delays and fairness: safety over all interleavings only. The wait in `abort` is left to the environment.
- HTML rendering: a preview carries the markdown it is rendered from and `done` the parts it is rendered from; rendering failures fall back to escaped text and are not modelled.
- Token usage in completed events, and the tracing spans beside the turn counters.
- `replaceArtifactPlaceholder`: works on rendered HTML; a marker with suffix 1 is a prefix of one with suffix 10.
- Attributes of an artifact's opening line: the trimmed line is kept whole, not parsed into title and type.
- `latestText`, `normalizeText` and `tokenCount` of the provider: the normalized input is a parameter.
- Metadata of several reasoning items in one response: the merge targets the last reasoning part, and no claim is made per item beyond the single-item stream.
- Database identifiers, message JSON, migrations and the other tables: a row is a number, a role and a message.
- Precision of floats and 64-bit limits of integers: numbers are exact decimals and integers unbounded.
- Admission in `handleCreateTurn` checks the replacement index against an earlier transcript; the machine admits any index, which allows every run of the code and more.
- Parsing of the `Last-Event-ID` header and the text of the browser's event frames: a client's last number and an event's payload are values.
- HTTP routing, cookies, CSRF, login, templates, observability wiring, the command line and the browser's JavaScript.
- Turns.Step: one action is one mutex section, and the commit, release and counting inside one `Next` are three actions, which `Refinement` joins again; an upstream event and the log entry that shows it are one action.
