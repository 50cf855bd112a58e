# 3gent, verified

A Dafny model of the hard parts of 3gent, a handheld client and the bridge that connects it to a
coding agent, with proofs of what they promise each other. `dafny verify dfyconfig.toml` checks
everything.

## What is modelled

**The QR encoder** (`Gf256`, `ReedSolomon`, `Interleaving`, `Qr*`). The field GF(256) by exponent and
logarithm tables, Reed-Solomon parity by a shift register, block splitting and interleaving, function
patterns, the zigzag, masking and format information, in the encoder's own arrays and grids. A reader
(mask from the format bits, unmask, walk, de-interleave, parse) gets the payload back from every symbol,
for every mask. What the standard fixes is stated apart from the encoder's formulas and proved of every
symbol: the masks as drawn patterns (`QrMasks`), finders, alignment, timing and the tabulated words of format
and version (`QrFigures`), the order of the modules (`QrOrder`), the data in hexadecimal digits (`QrDigits`),
and the codewords of each block (`QrStream`). The penalty is an arbitrary function: which mask wins does not
matter to the proof. The parity's strength is proved as well: the code's distance, and so how many damaged
bytes a block survives.

**The pushed-control protocol, both ends** (`EventStore`, `CommandRegistry`, `CommandExecutor`,
`PushProtocol`, `PushDelivery`, `PushCommands`, `PushReplies`, `PushServer`, `PushFlushes`, `PushLink`,
`PushProgress`). `PushProtocol` is one state
machine over bridge, handheld and network: append with eviction, hello, flush, backpressure, resync,
partial sending and reading, drop, reconnect, retry, acknowledgement, task switch, and the awaits of
command execution, in any interleaving. A connection is a pair of reliable frame streams that may end
anywhere. `PushDelivery` and `PushCommands` prove invariants of every step and theorems about every
run. `PushServer` and `PushLink` are the two ends as objects with the source's fields; each method's
contract says which steps of the machine it takes. `PushReplies` and `PushFlushes` say what the bridge writes,
and `PushProgress` what a turn of the handheld's link gets done, down to the bytes the socket takes.

**Byte streams** (`Framing`, `LineReceivers`, `FrameSenders`, `FrameTexts`). The three newline receivers, with
their buffers, against one definition of the lines of a stream, the senders' own limits on a frame, and the
handheld's frames as the JSON they are.

**The recording's way to the server** (`Microphone`, `Chunked`, `AudioStream`, `AudioProgress`). Ring, staging
buffer, chunked encoding, partial sends, the development server's decoder, and when an upload fails or arrives.

**What the screen shows** (`FakeAgent`, `AgentTurns`, `TaskScreens`, `EndToEnd`). The built-in agent and what its
turns tell, the handheld's event handler, and both put at the two ends of the protocol machine: agents operate, each event they append is flushed to the
subscribed connections, resyncs carry what the agent reports of itself at that moment, and through any run
the screen shows the session.

**The Codex adapter** (`CodexApprovals`, `CodexAnswers`, `CodexDecisions`, `CodexEvents`, `CodexAnnouncements`,
`CodexRequests`). Approvals and turns as a machine over the user, the timers, the agent process's messages and its exit, with every write to
the agent failing once it is gone; what becomes of each approval, with which decision, and what clients are
told; and the table of open requests.

**Smaller machines and codecs** (`Relay`, `WordWrap`, `ResponseBuffer`, `JsonText`, `JsonMembers`, `Pairing`,
`PairingFields`, `PairingRecord`).

## What the code does that its descriptions do not say

- `after` on an emptied history answers with nothing instead of "expired" (`EventStore.AfterSpec`,
  `EventStore.SilentSkipOnlyWhenEmptied`). An append empties a history exactly if its event does not fit by
  itself (`EventStore.SuffixKeepsNewest`, `EventStore.AppendCanEmpty`). One that may hold at least 641 bytes, as
  the default does, is never emptied, and the machine and `PushServer` assume that.
- The sent flag is set when any output drains. A command queued behind a ping is marked as sent without
  having been sent, and waits for a reconnection (`PushCommands.SentFlagCanBeWrong`);
  `PushCommands.SentFlagIsExact` says exactly when the flag is right.
- A pending command is given up on any frame whose text contains `"type":"error"`, a pushed event of
  that type included (`PushCommands.EventCanReleaseCommand`); `PushCommands.PendingUntilReleased` says exactly
  when. Text inside a string cannot have that effect (`JsonMembers.TestFindsMember`).
- Only commands that succeeded are remembered, the last 256 of them. A delivery acts exactly if its ID is
  neither in flight nor among those (`CommandExecutor.ActsExactlyWhenForgotten`), so a command repeated late
  enough acts twice (`CommandExecutor.ActsTwice`).
- A turn that completes twice is not renewed among the last 256 that are over, so it can be forgotten
  right after completing (`CodexAnswers.CompletedAgainIsForgotten`); `CodexAnswers.FinishedIsRemembered` says
  exactly which turns are remembered.
- An answer to an approval is a write to the agent's stdin, which throws once the agent is gone. Answered
  after its exit, an approval is answered by nobody, its session goes on announcing it, and shutdown completes
  (`CodexAnnouncements.AnswerLostAtExit`). A shutdown that itself meets the agent gone breaks off and leaves
  the rest (`CodexAnnouncements.ShutdownBreaksOff`). `CodexAnswers.AnsweredExactlyOnce` and
  `CodexAnnouncements.AnnouncedStaysLive` say exactly when all is well: when every answer, or every answer to
  what is announced, found the agent there.
- An approval can wait though its session does not announce it. That begins when another turn of its session
  completes, and only then (`CodexAnnouncements.WaitingIsAnnounced`). After that, answering either of two
  waiting approvals of a session, by the user or by a timer, leaves the other unannounced
  (`CodexAnnouncements.ConclusionAnnounces`, `CodexAnnouncements.UnannouncedApproval`).
- A Codex client that fails or is closed between the answer to its `initialize` request and the resumption of
  `start()` becomes ready again (`CodexRequests.FailedClientComesBack`);
  `CodexRequests.RequestTable.ResumeStart` says when.
- Frames that each fit still fail the bridge's connection when more than 8 KiB of them arrive in one chunk
  (`LineReceivers.FittingFramesCanFail`); `LineReceivers.ControlInput.OnData` says exactly when.
- A recording's body cut right after the line of its zero-size chunk is accepted, and complete
  (`Chunked.CutBodyIsNeverSavedShort`).
- The escape writer's `\u00xx` forms, for control characters without a short escape, come back from
  the handheld's own string reader as question marks (`JsonText.ReadBackUnchanged`).

## Assumptions

- One event store lifetime: cursors of an earlier one are not part of the machine.
- Appending an event succeeds, that is, its line keeps within 640 bytes.
- The bridge's event handlers run to completion, as JavaScript's do: in `EndToEnd` an agent's operation, a hello
  with its flush, and a drained socket with its flush are not interleaved.
- Session IDs, command IDs and device tokens that the handheld writes into frames hold no newline.
- Command and upload IDs are fresh when made, and not shared between the two.
- The microphone service never laps the reader.
- Strings and byte strings handed to the C code hold no NUL.

## Model

| member | source | states |
|---|---|---|
| `Gf256.Order` | bridge/src/qr-encode.ts:61-77 | the field's generator has order 255: its powers first return to one there, and not before (with NoSmallerPeriod) |
| `Gf256.AlphaIsARoot` | bridge/src/qr-encode.ts:61-77 | the generator is two, and a root of the standard's polynomial x^8 + x^4 + x^3 + x^2 + 1 |
| `Gf256.LogExists` | bridge/src/qr-encode.ts:61-77 | every non-zero byte is a power of the generator, so the logarithm table has an entry for each |
| `Gf256.MulAssociates` | bridge/src/qr-encode.ts:79-84 | multiplication by logarithms is associative |
| `Gf256.MulDistributes` | bridge/src/qr-encode.ts:79-84 | multiplication by logarithms distributes over exclusive or |
| `Gf256.InverseExists` | bridge/src/qr-encode.ts:79-84 | every non-zero byte has an inverse, so GF(256) is a field |
| `Gf256.Tables.constructor` | bridge/src/qr-encode.ts:61-77 | the table-building loops fill 512 exponents and 256 logarithms that are exactly the field's |
| `Gf256.Tables.Multiply` | bridge/src/qr-encode.ts:79-84 | the table lookup is the field's product, zero included |
| `ReedSolomon.BuildGenerator` | bridge/src/qr-encode.ts:86-99 | the in-place loop builds the product of (x - alpha^i) for i below the degree |
| `ReedSolomon.GeneratorVanishes` | bridge/src/qr-encode.ts:86-99 | that product is zero at each of those powers |
| `ReedSolomon.ComputeRemainder` | bridge/src/qr-encode.ts:101-114 | the shift register holds the remainder of the division by the generator |
| `ReedSolomon.CodewordVanishes` | bridge/src/qr-encode.ts:101-114 | data followed by its parity, for any data and any degree up to 254, is zero at alpha^0 to alpha^(degree-1) |
| `ReedSolomon.CodewordsAreFarApart` | bridge/src/qr-encode.ts:101-114 | two different codewords of at most 255 bytes differ in more places than there are parity bytes |
| `ReedSolomon.FewErrorsAreCorrectable` | bridge/src/qr-encode.ts:101-114 | a word with errors in at most half as many places as parity bytes lies that near to one codeword only |
| `Interleaving.Interleave` | bridge/src/qr-encode.ts:219-235 | the two loops write the columns of the blocks, shorter blocks having run out |
| `Interleaving.PositionInjective` | bridge/src/qr-encode.ts:219-235 | each byte of each block gets a place of its own in the stream |
| `Interleaving.PositionAscends` | bridge/src/qr-encode.ts:219-235 | and its place comes after those of every earlier byte of any block and of the same byte of every earlier block |
| `Interleaving.DeinterleaveInterleave` | bridge/src/qr-encode.ts:219-235 | gathering the bytes by their places gives the blocks back |
| `Interleaving.InterleaveDeinterleave` | bridge/src/qr-encode.ts:219-235 | and interleaving what was gathered gives the stream back |
| `QrBits.BitWriter.Write` | bridge/src/qr-encode.ts:118-125 | appends the value's bits, most significant first |
| `QrBits.BitWriter.ToCodewords` | bridge/src/qr-encode.ts:131-140 | packs the bits into bytes in order |
| `QrBits.ValueOfBitsOf` | bridge/src/qr-encode.ts:118-125 | a value written in enough bits is read back |
| `QrVersions.ChooseVersion` | bridge/src/qr-encode.ts:168-178 | finds the smallest version whose capacity suffices, or none exactly when none does |
| `QrVersions.TableSums` | bridge/src/qr-encode.ts:30-44 | the version table adds up to the standard's codewords, blocks and byte capacities, listed for each version |
| `QrPayload.BuildData` | bridge/src/qr-encode.ts:182-202 | the data codewords are mode, length, payload, terminator and alternating pads, filling the version exactly |
| `QrDigits.DataInDigits` | bridge/src/qr-encode.ts:182-202 | the data codewords in hexadecimal: 4, the length in two or four digits, the payload, 0, then EC and 11 in turn |
| `QrPayload.CutBlocks` | bridge/src/qr-encode.ts:204-217 | the blocks are consecutive slices of the data in the version's group sizes, each with its parity |
| `QrStream.BuiltStreamCarries` | bridge/src/qr-encode.ts:204-235 | read from the codeword stream, the joined data blocks spell that, and every block with its parity is zero at the roots |
| `QrPayload.ReadBuiltCodewords` | bridge/src/qr-encode.ts:182-235 | de-interleaving, joining and parsing the codeword stream gives the payload |
| `QrPayload.BlockSurvivesErrors` | bridge/src/qr-encode.ts:204-235 | for every version, a block with errors in at most half as many places as it has parity bytes still determines its codeword |
| `QrLayout.ZigzagVisitsEachFreeCellOnce` | bridge/src/qr-encode.ts:461-491 | the zigzag passes each unreserved module outside column 6 exactly once and no other |
| `QrOrder.ZigzagKeepsOrder` | bridge/src/qr-encode.ts:461-491 | the modules come in the standard's order: pairs of columns from the right, up and down in turn, right before left |
| `QrCount.RoomForEveryCodeword` | bridge/src/qr-encode.ts:30-44 | in every version there are as many free modules as codeword bits and remainder bits together |
| `QrPattern.MaskSurvivesFormat` | bridge/src/qr-encode.ts:317-326 | the format bits determine the mask |
| `QrMasks.FormulaDrawsPattern` | bridge/src/qr-encode.ts:304-315 | for every mask, row and column the formula inverts exactly the modules of the mask's pattern, drawn twelve by twelve |
| `QrFigures.FormatBitsAreWord` | bridge/src/qr-encode.ts:317-326 | the division gives the eight tabulated format words of level M |
| `QrFigures.VersionBitsAreWord` | bridge/src/qr-encode.ts:328-336 | the division gives the tabulated version words |
| `QrFigures.DrawnShowsFigures` | bridge/src/qr-encode.ts:241-376 | what the encoder draws shows finders, separators, alignment patterns and timing as drawn, and both copies of the tabulated words |
| `QrFigures.FindersAreFound` | bridge/src/qr-encode.ts:241-257 | every line through the core of each finder, across and down, runs dark and light as 1:1:3:1:1 |
| `QrMatrix.PlaceFinder` | bridge/src/qr-encode.ts:241-257 | draws one finder with its separator and reserves it, clipped to the grid |
| `QrMatrix.PlaceAlignment` | bridge/src/qr-encode.ts:259-278 | draws the alignment patterns that do not touch a finder |
| `QrMatrix.ReserveFormatAreas` | bridge/src/qr-encode.ts:280-302 | reserves the format and version areas and no other |
| `QrMatrix.DrawCodewords` | bridge/src/qr-encode.ts:461-491 | puts the stream's bits in zigzag order on the free modules and leaves all others alone |
| `QrEncoder.ApplyFormatInformation` | bridge/src/qr-encode.ts:338-362 | writes both copies of the format bits and the dark module, nothing else |
| `QrEncoder.SymbolIsReadable` | bridge/src/qr-encode.ts:494-550 | whichever mask was chosen, the reader recovers the codeword stream from the finished modules |
| `QrEncoder.ChooseMask` | bridge/src/qr-encode.ts:526-545 | of the eight candidates the first with the least penalty is kept, for any penalty function |
| `QrEncoder.EncodeQr` | bridge/src/qr-encode.ts:494-550 | for every payload and minimum version: the two errors exactly when they apply, the smallest sufficient version, and a symbol that shows all the figures, carries the payload's codewords and reads back as the payload |
| `EventStore.EventStore.Append` | bridge/src/event-store.ts:40-78 | an event over the limit is refused; otherwise it gets the next number and the history becomes the longest suffix within both limits |
| `EventStore.EventStore.After` | bridge/src/event-store.ts:80-107 | exactly the log's slice after the cursor, or the right refusal, or nothing when the history has been emptied |
| `EventStore.AnswerIsBounded` | bridge/src/event-store.ts:80-107 | an answer has at most as many events as asked for, stops short only at the log's end and holds retained events only; both refusals exactly when they apply |
| `EventStore.Evict` | bridge/src/event-store.ts:67-73 | the loop ends, and drops no more than the limits demand |
| `EventStore.SilentSkipOnlyWhenEmptied` | bridge/src/event-store.ts:95-106 | events are skipped silently if and only if the history is empty |
| `EventStore.SuffixKeepsNewest` | bridge/src/event-store.ts:67-73 | a history that is within its limits again holds the newest event, and so is not empty, if and only if that event fits by itself |
| `EventStore.AppendCanEmpty` | bridge/src/event-store.ts:67-106 | an append that empties a history, and a reader that skips its event without being told |
| `EventStore.ResumeIsSeamless` | bridge/src/event-store.ts:80-107 | reading on from where a bounded read stopped gives the same events as one longer read |
| `CommandRegistry.CommandRegistry.Get` | bridge/src/command-registry.ts:12-18 | the entry of that ID, marked as a duplicate, or nothing |
| `CommandRegistry.CommandRegistry.Remember` | bridge/src/command-registry.ts:20-29 | the entry is set in place or added, and the oldest ones beyond capacity are forgotten |
| `CommandExecutor.StepKeepsInv` | bridge/src/server.ts:685-720 | whatever the interleaving, the registry is the newest window of a history and the in-flight map is right |
| `CommandExecutor.AtMostOneActionPerWindow` | bridge/src/server.ts:685-720 | in every run, two actions of one ID that run or succeeded are at least capacity other acknowledgements apart |
| `CommandExecutor.DuplicateGetsTheSameAnswer` | bridge/src/server.ts:693-696 | in every run, a repeated delivery within the window starts nothing and gets the first acknowledgement |
| `CommandExecutor.DuplicateJoinsTheRunningAction` | bridge/src/server.ts:697-700 | in every run, a delivery while the action runs waits for that action |
| `CommandExecutor.ActsExactlyWhenForgotten` | bridge/src/server.ts:693-714 | in every run, a delivery starts an action if and only if its ID is neither in flight nor among the last capacity keys remembered |
| `CommandExecutor.ActsTwice` | bridge/src/command-registry.ts:20-29 | for every capacity, a run in which one command acts twice and succeeds both times |
| `CommandExecutor.CommandService.Enter` | bridge/src/server.ts:685-714 | a call up to its first await is the machine's begin step |
| `CommandExecutor.CommandService.Settle` | bridge/src/server.ts:701-713 | the action's end is the machine's succeed or fail step |
| `PushDelivery.StepKeepsInv` | bridge/src/push-server.ts:169-403 | every step of either end keeps the streams, cursors and histories consistent |
| `PushDelivery.EachEventAtMostOnceInOrder` | client-3ds/source/main.c:1603-1625 | in every run, no event is applied twice and none after a later one |
| `PushDelivery.NoGapExceptAcrossResync` | client-3ds/source/main.c:1756-1804 | in every run, a stretch of what was applied without a resync is a contiguous slice of the session's log |
| `PushDelivery.WithoutResyncHistoryIsLogPrefix` | client-3ds/source/main.c:1756-1760 | in every run without a resync, what was applied is the log up to the cursor |
| `PushDelivery.FramesComeFromTheHelloSession` | client-3ds/source/main.c:860-937 | in every run, across task switches, frames come from a connection whose hello named the session on screen |
| `PushDelivery.QuietLinkIsCaughtUp` | bridge/src/push-server.ts:290-321 | in every run, a link with nothing in transit and nothing left to flush has applied the whole log |
| `PushCommands.StepKeepsInv` | client-3ds/source/network.c:1189-1235 | every step of either end keeps what inboxes, answers and the pending command promise |
| `PushCommands.PendingUntilReleased` | client-3ds/source/network.c:1060-1096 | a pending command stays as queued exactly until its acknowledgement, an error frame while it counts as sent, or the end of the link |
| `PushCommands.PendingSurvivesReconnects` | client-3ds/source/network.c:1060-1096 | over any run without such a release it keeps its ID and bytes |
| `PushCommands.CopiesAreIdentical` | client-3ds/source/network.c:1553-1560 | in every run, all copies sent are the command as queued, at most one per connection |
| `PushCommands.SentFlagIsExact` | client-3ds/source/network.c:1519-1543 | in every run, the command has been sent on this connection if and only if the flag is set and it was not queued behind other output |
| `PushCommands.SentFlagCanBeWrong` | client-3ds/source/network.c:1537-1542 | a run in which the flag is set and the command was not sent |
| `PushCommands.EventCanReleaseCommand` | client-3ds/source/network.c:1189-1200 | a run in which a pushed event releases a command that has been sent and that nothing has answered |
| `PushCommands.AcknowledgedMeansDoneOnce` | bridge/src/push-server.ts:230-288 | in every run, an acknowledged command's action succeeded, and exactly once if fewer than capacity acknowledgements were remembered since |
| `PushReplies.WrittenExactlyWhenOpen` | bridge/src/push-server.ts:333-360 | a frame is written if and only if the connection is open, unblocked and not ended; a blocked one is destroyed |
| `PushReplies.RequestIsAnswered` | bridge/src/push-server.ts:169-238 | on such a connection every request gets exactly its one answer at once, and a command that is begun none yet |
| `PushReplies.HelloSubscribes` | bridge/src/push-server.ts:169-213 | the first hello for a known session sets session and cursor; an unknown session or refused cursor ends the connection |
| `PushReplies.EveryCommandIsAnswered` | bridge/src/push-server.ts:230-288 | in every run, a begun command can be answered as soon as it was remembered or its action is over, and the answer adds exactly one frame: an acknowledgement of its own ID if and only if it was remembered or its action succeeded, an error if and only if its action failed |
| `PushServer.PushConnection.Send` | bridge/src/push-server.ts:329-361 | writes the frame, destroys a connection still backpressured, loses what follows end() |
| `PushServer.PushConnection.FlushEvents` | bridge/src/push-server.ts:290-318 | sends the log from the cursor on until the socket pushes back, or a resync when the cursor is refused |
| `PushServer.PushConnection.OnDrain` | bridge/src/push-server.ts:363-370 | unblocks and flushes, unless closed |
| `PushServer.PushConnection.HandleHello` | bridge/src/push-server.ts:169-213 | every outcome of a hello: repeated, unknown session, refused cursor, or ready and flushed |
| `PushServer.PushConnection.HandleCommand` | bridge/src/push-server.ts:139-153 | a command is refused while one is processed or before the hello, otherwise executed once per ID |
| `PushServer.PushConnection.FinishCommand` | bridge/src/push-server.ts:282-287 | the command's own acknowledgement, or one error, is written if the connection takes it, and the next command may come |
| `PushServer.FlushIsARun` | bridge/src/push-server.ts:290-318 | a whole flush is a run of the protocol machine's flush steps |
| `PushFlushes.FlushSendsTheRest` | bridge/src/push-server.ts:290-331 | a flush writes the events after the cursor, in order, up to the first that the socket pushes back or the log's end |
| `PushFlushes.RefusedCursorResyncs` | bridge/src/push-server.ts:389-403 | and if the cursor is refused, one resync with the session's summary and the end |
| `PushLink.LinkStepIsWorldStep` | client-3ds/source/network.c:1463-1593 | each step of the link is the handheld's part of a step of the protocol machine |
| `PushLink.PumpIsARun` | client-3ds/source/network.c:1463-1593 | every turn of the main loop, whatever clock and network do, is a run of such steps |
| `PushLink.TurnIsAWorldRun` | client-3ds/source/network.c:1463-1593 | from every world the protocol can reach, a whole turn is a run of the protocol machine, and leaves such a world |
| `PushLink.Handset.Pump` | client-3ds/source/network.c:1463-1593 | a turn takes exactly those steps, connect, drain, then command before ping, then receive, and sends exactly those bytes: what is left unsent and what has been delivered whole |
| `PushProgress.CommandIsOffered` | client-3ds/source/network.c:1565-1571 | a ready link with nothing to send puts exactly the pending unsent command into its output, all of it still to be sent, or is dropped |
| `PushProgress.PingIsOffered` | client-3ds/source/network.c:1572-1590 | without a command to send it pings exactly when it has been quiet and no ping is outstanding |
| `PushProgress.HelloIsOffered` | client-3ds/source/network.c:1467-1512 | a link that connects begins with the hello of its session and cursor |
| `PushProgress.FrameIsTaken` | client-3ds/source/network.c:1427-1461 | a link with nothing to send takes in the next frame |
| `PushProgress.LostLinkIsDropped` | client-3ds/source/network.c:1463-1564 | a link without output is given up when its heartbeat is lost, a deadline passes, or its connection fails or is refused |
| `PushProgress.IdleLinkWaits` | client-3ds/source/network.c:1463-1517 | and stays as it is while stopped, while it is too early to reconnect, and while it is connecting |
| `PushProgress.DeliveredExactlyWhenWhole` | client-3ds/source/network.c:1519-1543 | over any turns, a request has been delivered if and only if the bytes taken for it add up to its size |
| `PushProgress.CommandIsDelivered` | client-3ds/source/network.c:1519-1571 | over turns of a link that stays up and whose socket takes at least a byte, the command has been delivered after as many turns as it has bytes left and one to be offered |
| `PushProgress.CommandReachesTheBridge` | client-3ds/source/network.c:1463-1593 | and in the world, whatever the bridge does in between, it stands in that connection's inbox |
| `PushProgress.UnsentIsFreeToGo` | client-3ds/source/network.c:1537-1571 | in every run, an unsent command of a ready link is free to go unless it was queued while other output was being sent |
| `PushLink.Handset.ScheduleReconnect` | client-3ds/source/network.c:1060-1096 | a dropped link forgets its buffers and flags but neither the frame in hand nor the pending command |
| `PushLink.Handset.QueueCommand` | client-3ds/source/network.c:1204-1235 | refused exactly when stopped or when one is pending |
| `PushLink.Handset.ExtractFrame` | client-3ds/source/network.c:1150-1202 | the frame's textual tests move the phase or give the pending command up |
| `PushLink.Handset.Acknowledge` | client-3ds/source/network.c:1408-1419 | only the pending command's own ID releases it |
| `PushLink.Handset.HandlePushFrame` | client-3ds/source/main.c:1806-1870 | handling a frame moves the cursor, releases the command, or resynchronizes |
| `PushLink.Handset.AttachToSession` | client-3ds/source/main.c:860-915 | a task switch starts over with the new session and cursor zero |
| `Framing.LinesOfParts` | bridge/src/push-server.ts:92-115 | reading a stream in any two parts, the second on top of what the first left over, is reading it whole |
| `Framing.FramesSurviveTheWire` | bridge/src/push-server.ts:347-356 | frames written with their newlines are the lines read |
| `Framing.CutDeliversWholeFrames` | client-3ds/source/network.c:1150-1188 | wherever a stream is cut, a prefix of the frames is delivered, whole ones only |
| `Framing.ArrivedFramesAreDelivered` | client-3ds/source/network.c:1150-1188 | every frame that has arrived in full is delivered |
| `LineReceivers.ControlInput.OnData` | bridge/src/push-server.ts:79-115 | delivers exactly the stream's lines for any chunking, fails exactly on over 8 KiB of input or a line over 4 KiB, and then has delivered the lines before it |
| `LineReceivers.PushInput.Receive` | client-3ds/source/network.c:1427-1461 | delivers exactly the stream's lines, one at a time, and overflows exactly on a line over the capacity |
| `LineReceivers.PushInput.ExtractFrame` | client-3ds/source/network.c:1150-1188 | takes the next line out of the buffer in place, skipping empty ones |
| `LineReceivers.StdoutReader.OnStdout` | bridge/src/codex-app-server-client.ts:242-275 | delivers exactly the stream's lines for any chunking, fails exactly on a line over the maximum, and then has delivered the lines before it |
| `LineReceivers.FittingFramesCanFail` | bridge/src/push-server.ts:79-90 | three frames that fit, in one chunk, fail the bridge's connection |
| `LineReceivers.BridgeFramesFitTheHandheld` | client-3ds/source/network.c:1427-1461 | a stream of frames within the bridge's limit, wherever it is cut, leaves less than the handheld's buffer over |
| `LineReceivers.HandheldFramesFitTheBridge` | bridge/src/push-server.ts:92-115 | a stream of frames within the handheld's limit, wherever it is cut, keeps within the bridge's line limit |
| `FrameSenders.FrameWriter.Send` | bridge/src/push-server.ts:333-361 | a frame whose line exceeds 4 KiB is refused and nothing is written; any other goes out with its newline |
| `FrameSenders.FrameWriter.StreamFitsTheHandheld` | bridge/src/push-server.ts:347-350 | whatever has been written, wherever it is cut, fits the handheld's receiver |
| `FrameSenders.LinkOutput.SetOutput` | client-3ds/source/network.c:1098-1114 | an empty or oversized text is refused; any other becomes the output |
| `FrameSenders.LinkOutput.BuildHello` | client-3ds/source/network.c:1116-1148 | the hello's text, or failure exactly when it does not fit the buffer |
| `FrameSenders.LinkOutput.SendText` | client-3ds/source/network.c:1322-1354 | any text is queued as one line, unless one is pending or its escaped form does not fit |
| `FrameSenders.LinkOutput.StreamFitsTheBridge` | client-3ds/source/network.c:1098-1148 | whatever has been put out, wherever it is cut, fits the bridge's receiver |
| `FrameTexts.HelloIsJson` | client-3ds/source/network.c:1116-1148 | a hello is the compact JSON object of version, type, session, cursor and, if there is one, token |
| `FrameTexts.TextCommandIsJson` | client-3ds/source/network.c:1322-1351 | a text command is the JSON object of its ID and its text, whatever the text is |
| `FrameTexts.PingIsJson` | client-3ds/source/network.c:1576-1583 | a ping is the JSON object of its nonce |
| `FrameTexts.SessionIsRead` | client-3ds/source/main.c:426-526 | searching a hello for sessionId and reading the string there gives the session |
| `FrameTexts.CursorIsRead` | client-3ds/source/main.c:426-443 | searching it for after gives the cursor's digits, up to a comma or the closing brace |
| `Microphone.OffsetsTellDistance` | client-3ds/source/microphone.c:287-292 | while the writer does not lap the reader, the two offsets tell how much is unread |
| `Microphone.Microphone.ReadCapture` | client-3ds/source/microphone.c:222-358 | copies the next recorded bytes in order, as many as the destination, the ring and the longest recording allow; the read offset stays the total modulo the ring |
| `Microphone.Microphone.FinishCapture` | client-3ds/source/microphone.c:360-399 | stops, and keeps where the service had got to |
| `Chunked.ChunkIsRead` | tools/dev-server/server.py:103-129 | a chunk as the handheld writes it is read back, and the stream goes on right after it |
| `Chunked.SaveAudioStream` | tools/dev-server/server.py:180-196 | the loop saves the chunks up to the last one or the limit; no sample, or part of one, is refused |
| `Chunked.BodyIsSaved` | client-3ds/source/network.c:2190-2223 | decoding the whole body gives exactly the bytes that were chunked |
| `Chunked.CutBodyIsNeverSavedShort` | tools/dev-server/server.py:103-129 | a body cut anywhere is refused, except where all of its data is there |
| `AudioStream.AudioTransaction.Write` | client-3ds/source/network.c:2190-2223 | one chunk at a time becomes the output, refused while one is unsent or the end was asked for |
| `AudioStream.AudioTransaction.Pump` | client-3ds/source/network.c:2241-2369 | the exact effect of a turn: sends partially and resumes; the last chunk only after all output is gone and the end was asked for |
| `AudioStream.OneTurnFinishes` | client-3ds/source/network.c:2241-2369 | over a connection that takes all it is given, one turn of four transitions brings a finished stream to its end |
| `AudioProgress.FailsExactlyWhenBroken` | client-3ds/source/network.c:2241-2369 | a turn ends in failure if and only if it began so or the socket broke in one of the attempts it made |
| `AudioProgress.SoundSocketNeverFails` | client-3ds/source/network.c:970-999 | a socket that never breaks never fails an upload |
| `AudioProgress.BrokenSocketFails` | client-3ds/source/network.c:970-999 | a broken one fails every upload that has something to send |
| `AudioProgress.PushBackChangesNothing` | client-3ds/source/network.c:2313-2330 | a socket that pushes back at once leaves phase, unsent bytes and wire as they were |
| `AudioProgress.FinishedUploadArrives` | client-3ds/source/network.c:2241-2369 | over any turns in which the socket waits or takes something, as many willing ones as there are bytes left bring a finished upload to its end, with exactly those bytes added to the wire |
| `AudioStream.Recorder.Drain` | client-3ds/source/main.c:2074-2113 | moves recorded bytes on without loss; drained means ring, staging buffer and output are empty |
| `AudioStream.Recorder.Turn` | client-3ds/source/main.c:2191-2300 | every turn keeps written chunks plus staged bytes equal to what was read from the ring, and asks for the end once stopped and drained |
| `AudioStream.Recorder.TerminalChunkComesLast` | client-3ds/source/main.c:2284-2298 | the terminal chunk follows only when nothing is left in ring, staging buffer or output |
| `AudioStream.Recorder.ServerSavesTheRecording` | client-3ds/source/main.c:2284-2298 | once the request is sent whole, the server saves exactly the recording, up to the longest allowed, if it is whole samples, and refuses any other |
| `FakeAgent.FakeAgent.SubmitCapture` | bridge/src/fake-agent.ts:54-82 | refused while a turn is active; otherwise a turn starts |
| `FakeAgent.FakeAgent.EmitNextDelta` | bridge/src/fake-agent.ts:174-215 | a stale timer does nothing; a live one emits the next piece, asks for approval, or completes the turn |
| `FakeAgent.FakeAgent.CompleteTurn` | bridge/src/fake-agent.ts:217-229 | the completed text is all the deltas of the turn together |
| `FakeAgent.FakeAgent.InterruptTurn` | bridge/src/fake-agent.ts:84-107 | a pending approval is resolved first, then the turn ends |
| `FakeAgent.FakeAgent.RespondToApproval` | bridge/src/fake-agent.ts:109-133 | only the pending approval can be answered, and the turn goes on |
| `AgentTurns.PlainTurn` | bridge/src/fake-agent.ts:54-229 | the exact log of a turn without a question: its pieces one by one, then all of them as the completed text |
| `AgentTurns.TurnWithQuestion` | bridge/src/fake-agent.ts:109-229 | the exact log of one with a question: asked after the first piece, answered, then the other pieces, what became of it, and all of them together |
| `AgentTurns.InterruptionEnds` | bridge/src/fake-agent.ts:84-107 | the exact log of an interruption: a question resolved first, then the turn interrupted and over, without a completed text |
| `AgentTurns.UninterruptedTurnTells` | bridge/src/fake-agent.ts:54-229 | after any operations but an interruption, the turn is under way or has logged the submitted pieces in order, followed by what the user's answer gives if and only if it had a question to ask |
| `FakeAgent.OperatedOk` | bridge/src/fake-agent.ts:42-247 | every operation leaves a well-formed log whose fold into a screen is the session's summary |
| `FakeAgent.ResyncLosesNothing` | client-3ds/source/main.c:1756-1797 | after any operations, a screen given the summary as it was after the first n of them and the events since shows what one that saw everything shows, and that is the session |
| `EndToEnd.EmitTrue` | bridge/src/push-server.ts:290-321 | an append in the midst of an operation makes no connection send a resync, and leaves nothing to flush |
| `EndToEnd.PossibleInv` | bridge/src/push-server.ts:169-403 | every run of agents, bridge, network and handheld together is a run of the protocol machine |
| `EndToEnd.ResyncsAreTrue` | bridge/src/push-server.ts:386-403 | in every run, every resync applied carried what the session's log amounts to up to its last sequence |
| `EndToEnd.ScreenShowsTheSession` | client-3ds/source/main.c:1603-1797 | in every run, resyncs, drops and evictions included, the screen is what the session's log up to the handheld's cursor amounts to |
| `EndToEnd.QuietScreenShowsTheAgent` | bridge/src/fake-agent.ts:42-52 | and once everything sent on an open connection has been handled it shows the agent's state, turn and pending approval as they are |
| `FakeAgent.TaskScreen.HandleProtocolEvent` | client-3ds/source/main.c:1603-1758 | each event's effect on state, turn flag and pending approval |
| `TaskScreens.ScreenShowsTheLatest` | client-3ds/source/main.c:1603-1758 | after any events in any order, state, turn flag and pending approval are what the last event that has a say in each says |
| `CodexApprovals.CodexAdapter.OnServerRequest` | bridge/src/codex-agent-adapter.ts:361-435 | a session has one announced approval at a time; a second request is answered with cancel at once, if the agent is there |
| `CodexApprovals.CodexAdapter.RespondToApproval` | bridge/src/codex-agent-adapter.ts:197-215 | a pending approval of that session leaves the map and is answered with the user's decision, reported and cleared, unless the write throws; any other is refused |
| `CodexApprovals.CodexAdapter.OnExpired` | bridge/src/codex-agent-adapter.ts:400-415 | an approval still pending is cancelled in the same way; one that is gone is left alone |
| `CodexApprovals.CodexAdapter.CompleteTurn` | bridge/src/codex-agent-adapter.ts:457-496 | cancels the turn's own approvals in order and remembers the turn as over, or breaks off at an answer that cannot be written |
| `CodexApprovals.CodexAdapter.MarkTurnStarted` | bridge/src/codex-agent-adapter.ts:437-455 | a turn remembered as over is not started again; another is announced once |
| `CodexApprovals.CodexAdapter.Shutdown` | bridge/src/codex-agent-adapter.ts:217-233 | cancels every approval still pending and closes the client, or breaks off at an answer that cannot be written |
| `CodexAnswers.StepKeepsInv` | bridge/src/codex-agent-adapter.ts:197-496 | every operation keeps the account of each approval: requested once, then waiting or tried once, and if answered, resolved once and gone |
| `CodexAnswers.AnsweredUnlessLost` | bridge/src/codex-agent-adapter.ts:197-233 | at any time a stored approval has been answered once and resolved once if and only if it no longer waits and its answer was written |
| `CodexAnswers.AnsweredExactlyOnce` | bridge/src/codex-agent-adapter.ts:217-233 | in every run, once shutdown has been called, every approval ever stored was answered once and resolved once if and only if every answer found the agent's stdin there |
| `CodexAnswers.ShutdownLeavesNothing` | bridge/src/codex-agent-adapter.ts:217-233 | in every run, a shutdown that comes to its end leaves nothing pending, and one that does not has lost an answer |
| `CodexDecisions.StepWrites` | bridge/src/codex-agent-adapter.ts:197-496 | exactly what each step writes to the agent: an accepted answer of the user its decision, expiry, the end of a turn and shutdown a cancellation for each approval of theirs that waits, anything else nothing |
| `CodexDecisions.TheChoiceStands` | bridge/src/codex-agent-adapter.ts:197-215 | in every run, once a user's answer is accepted it is the one answer ever tried for its approval |
| `CodexDecisions.DecisionWasChosen` | bridge/src/codex-agent-adapter.ts:197-233 | in every run, an answer other than a cancellation is the decision of an accepted answer of the user |
| `CodexDecisions.AnswerIsTheChoice` | bridge/src/codex-agent-adapter.ts:197-496 | in every run, what is written for an approval is the user's decision if an answer of the user was accepted, and a cancellation if none was |
| `CodexEvents.RequestSays` | bridge/src/codex-agent-adapter.ts:385-434 | a request is announced and shown if and only if the session announces none; otherwise it is refused |
| `CodexEvents.RespondSays` | bridge/src/codex-agent-adapter.ts:197-215 | an answer is reported and the session shown to go on if and only if its approval is pending there and nothing has been lost |
| `CodexEvents.TurnStartSays` | bridge/src/codex-agent-adapter.ts:437-455 | a turn that starts is announced once and becomes the session's active turn, unless it is remembered as over |
| `CodexEvents.TurnCompleteSays` | bridge/src/codex-agent-adapter.ts:457-496 | a turn that completes reports its approvals in order, then its own end, and clears the session, if and only if every cancellation could be written |
| `CodexEvents.ShutdownSays` | bridge/src/codex-agent-adapter.ts:217-233 | shutdown reports what it has cancelled and leaves the sessions' records |
| `CodexAnnouncements.AnnouncedIsLive` | bridge/src/codex-agent-adapter.ts:385-434 | in every run before shutdown, the approval a session announces can still be answered if and only if no answer to it has been lost |
| `CodexAnnouncements.AnnouncedStaysLive` | bridge/src/codex-agent-adapter.ts:197-215 | in every run before shutdown, announced approvals were live at every moment if and only if nobody answered one when the agent was gone |
| `CodexAnnouncements.WaitingIsAnnounced` | bridge/src/codex-agent-adapter.ts:457-496 | in every run, waiting approvals were announced at every moment if and only if no turn was completed while an approval of another turn of its session waited |
| `CodexAnnouncements.CompletionAnnounces` | bridge/src/codex-agent-adapter.ts:484-496 | after a completed turn, what waits in its session is announced if and only if nothing of another turn waits |
| `CodexAnnouncements.ConclusionAnnounces` | bridge/src/codex-agent-adapter.ts:197-215 | after an answer by the user or a timer, what waits in its session is announced if and only if nothing else waits |
| `CodexAnnouncements.RequestAnnounces` | bridge/src/codex-agent-adapter.ts:381-434 | a request leaves what waits in its session as announced as it was |
| `CodexAnnouncements.AnswerLostAtExit` | bridge/src/codex-agent-adapter.ts:208-215 | a run in which the agent exits and the user answers: nobody is answered, the session announces a dead approval, and shutdown completes |
| `CodexAnnouncements.ShutdownBreaksOff` | bridge/src/codex-agent-adapter.ts:221-230 | a run in which shutdown meets the agent gone and leaves an approval unanswered |
| `CodexAnnouncements.UnannouncedApproval` | bridge/src/codex-agent-adapter.ts:484-496 | a run in which two approvals in turn wait without being announced |
| `CodexAnswers.FinishedIsRemembered` | bridge/src/codex-agent-adapter.ts:487-494 | in every run, the turns not reactivated are exactly the last 256 newly finished |
| `CodexAnswers.CompletedAgainIsForgotten` | bridge/src/codex-agent-adapter.ts:487-494 | a sequence of completions whose last but one is already forgotten |
| `CodexRequests.RequestTable.Start` | bridge/src/codex-app-server-client.ts:125-143 | only the first call sends the initialize request; others join it or are refused |
| `CodexRequests.RequestTable.Request` | bridge/src/codex-app-server-client.ts:145-154 | refused, or sent under a new number; a failed write rejects it at once |
| `CodexRequests.RequestTable.DispatchResponse` | bridge/src/codex-app-server-client.ts:308-334 | settles the request with that number and no other |
| `CodexRequests.RequestTable.Fail` | bridge/src/codex-app-server-client.ts:434-445 | the first call rejects every request that waits, in order; later ones do nothing |
| `CodexRequests.RequestTable.ResumeStart` | bridge/src/codex-app-server-client.ts:196-221 | ready exactly when the answer was one and valid, whatever has become of the client since |
| `CodexRequests.RequestTable.SettledAtMostOnce` | bridge/src/codex-app-server-client.ts:383-413 | at any time every request made waits or has been settled once |
| `CodexRequests.RequestTable.EndSettlesEveryRequest` | bridge/src/codex-app-server-client.ts:434-445 | once the client has ended every request ever made has been settled exactly once |
| `CodexRequests.FailedClientComesBack` | bridge/src/codex-app-server-client.ts:242-271 | a run in which a failed client becomes ready and sends a request |
| `Relay.Channel.TakeLive` | bridge/src/relay.ts:245-256 | takes the first live socket and drops the dead ones before it |
| `Relay.Channel.TryPair` | bridge/src/relay.ts:179-196 | pairs the two first live sockets, or puts the one back where it was; no live socket is lost |
| `Relay.Channel.Enqueue` | bridge/src/relay.ts:146-177 | within the maximum a socket waits or is paired; afterwards at most one queue holds live sockets |
| `Relay.Channel.SocketClosed` | bridge/src/relay.ts:163-176 | a closed or expired socket leaves its queue and no other does |
| `Relay.Channel.PairedInTurn` | bridge/src/relay.ts:146-196 | each side is paired in order of arrival, no socket twice, no waiting socket overtaken |
| `WordWrap.ScanLine` | client-3ds/source/ui.c:547-575 | as many glyphs as fit, at least one, and the last word break among them |
| `WordWrap.WrapLine` | client-3ds/source/ui.c:547-603 | one line that fits or is one glyph, broken only for a reason, and where the text goes on |
| `WordWrap.Wrap` | client-3ds/source/ui.c:517-606 | for well-formed text: ordered disjoint lines, only spaces and newlines between them, the whole text if under 192 lines; it ends for any text |
| `WordWrap.Visible` | client-3ds/source/ui.c:1031-1042 | the scrolled window lies inside the lines for any scroll value |
| `WordWrap.EncodedIsDecoded` | client-3ds/source/ui.c:560-565 | wherever it stands, the UTF-8 encoding of a codepoint is decoded to it |
| `WordWrap.DecodedIsEncoded` | client-3ds/source/ui.c:560-565 | and a glyph that is decoded stands in the text as its codepoint's encoding |
| `ResponseBuffer.Response.Append` | client-3ds/source/main.c:187-223 | the in-place append, its eviction included, is the specified one |
| `ResponseBuffer.TailOfEverything` | client-3ds/source/main.c:187-223 | after any appends the buffer is a suffix of everything appended, at most 4095 bytes |
| `ResponseBuffer.AppendKeepsTheNewest` | client-3ds/source/main.c:187-223 | the newest text is whole if it fits, and eviction drops the least that makes room or ends a line |
| `JsonText.PushJsonEscape` | client-3ds/source/network.c:1001-1051 | the escaped text, or failure exactly when it does not fit |
| `JsonText.EscapeIsDecoded` | client-3ds/source/network.c:1001-1051 | reading the escaped text by section 7 of RFC 8259 gives the text |
| `JsonText.ReadString` | client-3ds/source/main.c:465-526 | the loop is the reader's meaning, cut to the capacity |
| `JsonText.ReadBackUnchanged` | client-3ds/source/main.c:465-526 | escaped text is read back unchanged if and only if it fits and its control characters have short escapes |
| `JsonText.StandardIsRead` | client-3ds/source/main.c:465-526 | every well-formed string without hexadecimal escapes is read as section 7 of RFC 8259 says, whoever escaped it |
| `JsonMembers.FindValue` | client-3ds/source/main.c:426-443 | finds the first occurrence of the quoted name and colon, and the value after blanks |
| `JsonMembers.FoundIsName` | client-3ds/source/main.c:426-443 | in text whose strings stand alone, an occurrence is a member's name |
| `JsonMembers.SearchFindsNames` | client-3ds/source/main.c:426-443 | on any compact JSON with plain names the search never ends inside a string |
| `JsonMembers.TestFindsMember` | client-3ds/source/network.c:1189-1200 | a textual test for a member with a given string is met only by a member of that name |
| `Pairing.ParsePort` | client-3ds/source/pairing.c:37-54 | one to five digits with a value from 1 to 65535 |
| `Pairing.CopyNormalizedCode` | client-3ds/source/pairing.c:57-72 | capital letters and digits of the code, if some and if they fit |
| `Pairing.NameFits` | bridge/src/pairing.ts:89-97 | a sanitized bridge name is not empty, short, and of allowed characters |
| `Pairing.CleanNamesAreKept` | bridge/src/pairing.ts:89-97 | a name is kept as it is if and only if it is clean: short enough, of allowed characters, no dash at either end or after another |
| `Pairing.OthersBecomeDashes` | bridge/src/pairing.ts:89-97 | a character that is not allowed becomes a dash |
| `Pairing.ParseUrl` | client-3ds/source/pairing.c:74-170 | the cursor loop is the meaning of the fields, errors included |
| `Pairing.UrlIsRead` | bridge/src/pairing.ts:99-106 | parsing the printed URL gives host, ports, code and bridge name back |
| `PairingFields.UrlInAnyOrder` | client-3ds/source/pairing.c:74-170 | for fields in any order, repeated or unknown: what the URL gives, and the error exactly when it gives another version or a needed field is missing or of no use |
| `Pairing.GroupingIsUndone` | bridge/src/pairing.ts:72-79 | grouping a code is undone by normalizing it |
| `Pairing.GroupsOfFour` | bridge/src/pairing.ts:72-74 | a dash stands after every four characters but the last, and the others keep their order |
| `Pairing.NormalizingIgnoresCase` | bridge/src/pairing.ts:76-79 | normalizing gives digits and capital letters only, the same for either case |
| `Pairing.TypedCodeIsAccepted` | client-3ds/source/pairing.c:57-72 | a code typed in groups and in the other case is the code |
| `Pairing.ParseManual` | client-3ds/source/pairing.c:171-238 | the cursor loop is the meaning of the four fields, errors included |
| `Pairing.ManualCodeIsRead` | bridge/src/pairing.ts:108-111 | parsing the printed typed code gives host, ports and code back |
| `PairingFields.ManualInAnySpacing` | client-3ds/source/pairing.c:171-238 | four words with any separators between them: the endpoint and code, or the first error that applies |
| `PairingFields.ThreeWordsAreTooFew` | client-3ds/source/pairing.c:171-238 | three words, however they are set apart, are refused |
| `PairingRecord.Load` | client-3ds/source/pairing.c:259-307 | the line loop is the meaning of the file |
| `PairingRecord.SavedIsLoaded` | client-3ds/source/pairing.c:309-351 | loading a saved record gives it back |
| `PairingRecord.EntriesInAnyOrder` | client-3ds/source/pairing.c:259-307 | of entries in any order, repeated or unknown, each field holds what its last entry gives, cut to its capacity |

## Left out

- Rendering, touch, fonts, camera, keyboard, sounds: user interface and device calls. Glyph advances are a function to non-negative integers.
- Sockets, clocks, timers, files, child processes and random numbers: steps that may happen, parameters, or fresh values.
- HTTP requests and routing, header parsing, logging, command lines, transcription, WAV and BMP headers.
- The fault-injection switches of the push server, one of which deliberately moves the cursor without sending.
- The device token in the hello, pairing tokens and their revocation.
- JSON as bytes on the pushed link: `PushProtocol`, `PushServer` and `PushLink` exchange frames as values, and of an event's text only which of the handheld's two searched-for patterns it holds. How lines become byte streams is `Framing` and `LineReceivers`; how the handheld reads and writes JSON is `JsonText`, `JsonMembers` and `FrameTexts`.
- Control frames that are not well formed, and what the bridge does after refusing to send a frame over 4 KiB: the error path of `#handleLine` and `#send`.
- An event without a type, which would move the handheld's event cursor but not its link's: the bridge sends none.
- The idle and heartbeat timeouts, the reconnect delay and its jitter: a drop or a close may happen at any time.
- The event store's listeners in `PushProtocol` alone: a flush may happen at any time there, so also right after an append; `EndToEnd` has them.
- `executeSessionCommand`, pending photos and the session command results of the bridge application: the same pattern as `CommandExecutor` with less to it.
- The JSON of the Codex client's messages, its answers to the agent process's own requests, and how the adapter splits text and summarizes diffs.
- Codex threads other than their approvals and turns, the text of an approval's summary, and the choice and reason that a resolution's event repeats.
- The relay's exchange after pairing and its two channels as one object: each channel is a `Relay.Channel`.
- The BCH codes of format and version information as error-correcting codes, and the penalty's four rules.
- The wrap cache and its hash; `decode_utf8` is not part of the repository and is taken to accept well-formed UTF-8 only.
- The microphone's level meter, the cache-line arithmetic around its ring, and failing microphone service calls other than a stopped service.
- The transcript and the response text that events append on the handheld, beyond the buffer itself.
- Chunked.ReadChunk: sizes in plain hexadecimal digits only; Python's `int` also takes signs, underscores and a `0x` prefix, which the handheld never writes.
- JsonText.Decode: of the hexadecimal escapes, those of ASCII characters; the escape writer makes no others.
- WordWrap.Wrap: for text that is not well formed each line is still drawable and the loops end, but what the lines cover is not stated; the source may then add empty lines up to its maximum.
- PushProtocol.Append: how much an append evicts is any amount the log allows, more than `EventStore.EventStore.Append` does.
- AudioStream.AudioTransaction.Pump: the connection, the request header and the server's answer are one flag and one phase, and deadlines are left out; a failed send stands for every failure.
- Microphone.Microphone.DeviceRecords: the service writes one byte at a time and never while a read is under way.
