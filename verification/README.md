# TP/1 and QP/1, modelled and verified

This project is a Dafny model of the file-transfer program's hard parts, with machine-checked proofs. It is
meant to be kept beside the sources: the modules follow the source files, and every statement below names the
lines it is about. `dafny verify dfyconfig.toml` checks everything.

## What is modelled

**The TP/1 file transfer** (`internal/transfer`, `internal/protocol`).

- `Protocol`, `Directory`, `Acceptance` and `Session` hold the messages, limits and file names, the choice of a
  free name in the destination directory, the accept message, and what both roles share: outcomes, last words
  and the event contract.
- `Receiver` and `Sender` are step machines, one step per message, poll, read, close or cancellation. A step makes
  at most one channel send, one file operation and the cancel of the deferred abort; whether each of the three
  succeeds is part of the step's input. `ReceiverSafety` and `SenderSafety` prove what every run of either machine
  keeps, against any peer and any fault.
- `ReceiveProgram` and `SendProgram` are `Receive` and `Send` in the form they have in the source: an object
  whose fields change, wait loops, the chunk loop, error exits that unwind through deferred clean-up. Each is
  proved to end in exactly the state its step machine ends in, so all that is proved of the machines holds for
  them. What arrives, and how sends, reads and file operations go, is a script of inputs; a program whose script
  ends is still waiting and has no result.
- `Recogniser` states the TP/1 grammar by printing transcripts and proves that the receiver accepts exactly the
  inputs that begin with a sentence of it.
- `Joint` puts the two machines together over two reliable FIFO channels with bounded inboxes. Either side may
  be cancelled at any wait and file operations may fail at any time. The invariant (`JointLink`,
  `JointInvariant`) relates the sender to the receiver as it will be once it has taken everything in flight.
  From it follow the outcome theorems (`JointOutcomes`), conservation of bytes (`JointStreams`), that no side is
  left waiting (`JointLiveness`) and that every run ends (`JointMeasure`).
- `ReceiverEndings`, `ReceiverSteps`, `SenderEndings` and `SenderSteps` state both roles a second time, by result
  and on the inputs: which input leads to which result, what is said on the way out, what each step says, reports
  and does on disk. The step machines are proved to meet them in both directions, over steps and over whole runs.
- `EventReports` says exactly which runs meet the documented event contract.
- `Mailbox` is the session's inbound queue under every interleaving of pump, next, poll and pushback.
- `Browser` is the browser's `send` with its inbox, as a peer of the Go receiver.

**The channel layer** (`internal/peer`): `Handoff` is the late installation of the message handler, as two
threads of atomic steps and as the object with its buffer and flag; `Flow` is the watermark loop with its
one-slot wake-up token.

**QP/1 signalling** (`internal/signal`, `pwa/src/signal`): `Frames` is the QR frame codec down to the header
bytes and `FrameResults` what joining any list of byte strings gives; `Paste` is the base64url blob of both clients
(section 5 of RFC 4648) and `PasteBits` its characters and bytes bit by bit.

**The signalling worker** (`worker/src`): `SessionObject` is the per-token object under any interleaving of
clients, and the creation loop over drawn tokens.

SHA-256, CRC-32 and compression with its JSON text are function parameters, so every theorem holds for every
such function; the codec round trips assume of them only that inflating undoes the deflating of the description
at hand (`Frames.Restores`). Names are sequences of one-byte characters. Control messages are a datatype; reasons
and error texts are not kept.

## Where the code and its documentation differ

- The event contract in the documentation (internal/transfer/transfer.go:102-108) promises one file-start and one
  file-done event per accepted file. The code emits no file-done for a file that a session error interrupts:
  `EventReports.UndocumentedRun` is such a run. `EventReports.ReceiverDocumented` and
  `EventReports.SenderDocumented` say on the inputs exactly when the promise is kept. What the code always keeps
  (`Session.Follow`) is: complete files, then possibly one partial file or one file-done with an error, then one
  error event.
- "No side is left waiting" holds if and only if Send accepts its file list and Receive its directory, or both
  refuse (`JointLiveness.NobodyLeftWaitingIff`). The side that refuses alone returns without telling the other
  (internal/transfer/transfer.go:446-471, internal/transfer/transfer.go:716-718).
- The two clients' name rules differ on names that begin with two dots, such as "..a"
  (`Protocol.ClientsDisagree`); `Protocol.ClientsAgreeOnName` gives the exact condition.
- The two base64url decoders differ on text that no encoder produces: the browser accepts the standard alphabet,
  padding and inner white space, and refuses some texts with line ends that the Go client skips
  (`Paste.DecodersAgree` gives the exact condition).

## Model

| member | source | states |
|---|---|---|
| Protocol.SanitizeName | internal/protocol/protocol.go:274-293 | the loop over the name computes the specified result, with the three kinds of refusal |
| Protocol.SanitizeSafe | internal/protocol/protocol.go:249-272 | an accepted name has no separator and no NUL, is no dot name, does not start with two dots and has at most 255 bytes |
| Protocol.SanitizeFixes | internal/protocol/protocol.go:249-272 | the names left as they are are exactly the safe ones |
| Protocol.SanitizeIdempotent | internal/protocol/protocol.go:274-293 | sanitizing the wire name again gives the same name, so sender and receiver agree on it |
| Protocol.SanitizeKeepsBase | internal/protocol/protocol.go:274-293 | directories before the last separator are dropped; what is left, without two leading dots, is kept as it is or refused as no name or as too long |
| Protocol.SanitizeCollapses | internal/protocol/protocol.go:274-293 | two or more leading dots become one; with nothing behind them there is no name |
| Protocol.BrowserKeepsBase | pwa/src/protocol.ts:39-51 | the browser drops directories and keeps what is left, leading dots included, or refuses it |
| Protocol.EqualFoldExactly | internal/transfer/transfer.go:943-946 | a printed digest matches exactly the texts that differ from it in the case of its letters |
| Protocol.ClientsAgreeOnName | pwa/src/protocol.ts:39-51 | the browser's and the Go client's rules give the same result if and only if no collapsing of leading dots is at stake or both refuse |
| Protocol.ClientsDisagree | pwa/src/protocol.ts:39-51 | on "..a" the browser keeps the name and the Go client makes it ".a" |
| Directory.CreateDest | internal/transfer/transfer.go:969-986 | the search yields the name itself if it is free, otherwise name-s for the least free decimal s from 1 to 999, and reports a failure exactly when all of them are taken; stated on strings |
| Directory.DestExactly | internal/transfer/transfer.go:969-986 | a path is the result if and only if it is that first free form, and there is none if and only if all are taken |
| Directory.FirstCollision | internal/transfer/transfer.go:970-974 | a name that is taken, with "name-1" free, is stored as "name-1" |
| Directory.DestUnique | internal/transfer/transfer.go:969-986 | "least free suffix" determines the path |
| Directory.CandidatesDiffer | internal/transfer/transfer.go:971-974 | different suffix numbers give different names, because decimals read back |
| Directory.SmallDirectoryHasDest | internal/transfer/transfer.go:969-986 | with fewer than a thousand entries a free name is always found (pigeonhole over distinct candidates) |
| Acceptance.CheckChoice | internal/transfer/transfer.go:778-787 | the pass over the chosen ids accepts exactly duplicate-free lists of known ids |
| Acceptance.ResolveAccept | internal/transfer/transfer.go:535-556 | empty means the whole manifest, an id out of range is an error, otherwise the ascending duplicate-free list of the same ids |
| Acceptance.ResolvesUnique | internal/transfer/transfer.go:533-556 | that description determines the sender's list |
| Acceptance.FullChoiceIsAll | internal/transfer/transfer.go:796-799 | ascending valid ids are at most n, and exactly n of them are the whole manifest (pigeonhole) |
| Acceptance.AcceptanceAgreement | internal/transfer/transfer.go:778-802 | the sender resolves the receiver's wire form to the receiver's own sorted list, and the empty form is used exactly for everything |
| Session.ReportsPrefix | internal/transfer/transfer.go:102-116 | a stream that obeys the event contract reports a prefix of the accepted files as done, and all of them if it finished |
| Session.FinishedByAllDone | internal/transfer/transfer.go:104-107 | such a stream is complete exactly when its last event is the done event |
| Session.OneLastWord | internal/transfer/transfer.go:299-336 | a last word that could be sent is followed by nothing; one that could not is followed by a cancel if that can be sent |
| EventReports.ReceiverDocumented | internal/transfer/transfer.go:102-108 | a receiver's events have one start and one done per accepted file if and only if nothing was accepted or some input was the file-end of the last accepted file with a bad digest or an acknowledgement that went out |
| EventReports.SenderDocumented | internal/transfer/transfer.go:102-108 | a sender's have if and only if nothing was accepted or the ack of the last accepted file, ok or hash-mismatch, was taken |
| EventReports.UndocumentedRun | internal/transfer/transfer.go:902-910 | a run with one accepted file, cancelled after its file-start, that reports a start and no done |
| EventReports.DocumentedIff | internal/transfer/transfer.go:102-108 | a stream the code can produce meets the documented contract exactly when it reports as many files done as were accepted |
| ReceiveProgram.ValidateManifest | internal/transfer/transfer.go:838-856 | the pass with its seen map accepts exactly the manifests within the limits with distinct ids and usable names |
| ReceiveProgram.IndexManifest | internal/transfer/transfer.go:763-766 | the map filled entry by entry is the id table of the specification |
| ReceiveProgram.Receiving.Receive | internal/transfer/transfer.go:697-835 | the program with its loops and deferred clean-up ends in exactly the state of the step machine on the same inputs |
| ReceiveProgram.Receiving.ReceiveFile | internal/transfer/transfer.go:859-965 | one file: on success the machine's next state, on an error the partial file is gone and only the failure itself is left to report |
| ReceiveProgram.Receiving.ReceiveBody | internal/transfer/transfer.go:906-965 | the chunk loop follows the machine step by step up to file-end |
| ReceiveProgram.Receiving.Decide | internal/transfer/transfer.go:760-802 | from manifest to accept: a bad manifest is a protocol error; refusing, naming an unknown or repeated id, and choosing nothing give the decision, bad-choice and declined errors, in this order; otherwise the accept goes out and what is asked for is the choice in ascending order |
| ReceiveProgram.RunReceive | internal/transfer/transfer.go:697-835 | a whole call: same result, directory, messages and events as the machine; old entries untouched; at most one last word, as the newest message; done event exactly on nil |
| Receiver.JudgedIds | internal/transfer/transfer.go:768-795 | the ids asked for are nonempty, ascending and all in the manifest |
| ReceiverEndings.ReceiveEndsExactly | internal/transfer/transfer.go:697-965 | for each of the results and each state: a running receiver ends with it if and only if the input is one of those listed for it |
| ReceiverEndings.ReceiveReturns | internal/transfer/transfer.go:697-835 | a whole call returns a result if and only if some input was taken that leads to it, or the directory or the hello failed |
| ReceiverEndings.RefusalsExactly | internal/transfer/transfer.go:771-794 | after a valid manifest: the declined error if and only if the caller chose nothing, the decision error if and only if it refused, the bad-choice error if and only if a chosen id is unknown or repeated |
| ReceiverEndings.NilMeansNoFault | internal/transfer/transfer.go:697-835 | a receiver that returned nil met no fault, no bad digest, no close, no cancellation and no violation |
| ReceiverEndings.ReceiveSaysExactly | internal/transfer/transfer.go:299-336 | what a failing receiver says: the error, version or reject word of its result, a cancel for every other local failure or if the word could not be sent, nothing after the peer gave up, and the bad ack before the farewell on a digest mismatch |
| ReceiverSteps.ReceiveTellsExactly | internal/transfer/transfer.go:697-965 | what every step adds to messages and events: accept (empty for everything, else the ids ascending), start, progress, ok ack with the full size, done, the error event of the result |
| ReceiverSteps.WaitsForChosen | internal/transfer/transfer.go:788-804 | after the accept the receiver waits for exactly the chosen ids, in ascending order |
| ReceiverSteps.ReceiveOnDisk | internal/transfer/transfer.go:886-960 | every step on disk: a started file is created empty under the first free form of its name, chunks are appended, a verified file is kept even if its ack cannot be sent, any other exit from a file removes it, and nothing else changes |
| ReceiverSafety.DirectoryOnExit | internal/transfer/transfer.go:893-960 | on every exit: old entries unchanged; new entries are exactly the verified files of a prefix of the accepted ids, complete, digest matching, each under its own new name; all of them on nil |
| ReceiverSafety.StoredUnderOwnName | internal/transfer/transfer.go:886-896 | in every run each kept file lies under the first free form of its sanitized manifest name, in the directory that holds the earlier ones |
| ReceiverSafety.PlaceHolds | internal/transfer/transfer.go:893-960 | that directory holds the old entries and the earlier files and nothing else |
| ReceiverSafety.StepKeepsDir | internal/transfer/transfer.go:859-965 | every step keeps: directory equals old entries plus verified files plus at most the one being written; counted, hashed and written bytes are the same |
| ReceiverSafety.ReceiverTerminalSignals | internal/transfer/transfer.go:301-336 | over any run at most one of cancel, error, reject is sent and nothing after it; a running receiver has sent none; nothing is sent in answer to cancel or error |
| ReceiverSafety.SilentAfterTerminal | internal/transfer/transfer.go:312-336 | a cancel or error from the peer ends the receiver without another message |
| ReceiverSafety.ReceiverEvents | internal/transfer/transfer.go:102-116 | at every moment of any run the events obey the contract (order, ids, monotone and bounded progress, file-done only with all bytes), and the done event comes exactly with nil |
| SendProgram.BuildMetas | internal/transfer/transfer.go:446-471 | the loop accepts exactly the lists of 1 to 1024 files with usable names and sizes, and announces the i-th file as number i with its size under its own sanitized name; a safe name is kept |
| Sender.MetasNames | internal/transfer/transfer.go:457-465 | the name in the manifest is the sanitized name of that very file |
| SendProgram.Sending.Send | internal/transfer/transfer.go:433-531 | the program with its session object and loops ends in exactly the state of the step machine on the same inputs |
| SendProgram.Sending.SendFile | internal/transfer/transfer.go:559-623 | one file: file-start, chunk loop, size check, file-end and ack follow the machine |
| SendProgram.Sending.StreamFile | internal/transfer/transfer.go:575-605 | the loop hashes, sends and counts what it reads, and leaves on cancel, error, fault or end of file as the machine does |
| SendProgram.Sending.MidSendCheck | internal/transfer/transfer.go:628-643 | cancel and error end the session, unknown types are dropped, everything else is deferred |
| SendProgram.Sending.Next | internal/transfer/transfer.go:245-267 | a deferred message comes before anything that arrives |
| SendProgram.RunSend | internal/transfer/transfer.go:433-531 | a whole call: same result, messages and events as the machine; at most one last word, as the newest message; done event exactly on nil |
| SenderEndings.SendEndsExactly | internal/transfer/transfer.go:433-667 | for each of the results and each state: a running sender ends with it if and only if the message, poll, read or fault is one of those listed for it |
| SenderEndings.SendReturns | internal/transfer/transfer.go:433-531 | a whole call returns a result if and only if some input was taken that leads to it, or the files were refused or the hello failed |
| SenderEndings.NilMeansNoFault | internal/transfer/transfer.go:433-531 | a sender that returned nil met no fault, no rejection, no close, no cancellation and no violation |
| SenderEndings.SendSaysExactly | internal/transfer/transfer.go:299-336 | what a failing sender says, result by result; when the file due cannot be opened its file-start comes first |
| SenderSteps.SendTellsExactly | internal/transfer/transfer.go:433-623 | what every step adds to messages and events: the manifest, the file-start of the file due, the chunk read, the file-end with the digest, done, and the reports on files, progress and failure |
| SenderSteps.DeferredExactly | internal/transfer/transfer.go:245-285 | a message taken is gone, except that the look between two chunks keeps every known one that ends nothing |
| SenderSafety.SenderTerminalSignals | internal/transfer/transfer.go:301-336 | over any run at most one last word is sent and nothing after it; a running sender has sent none |
| SenderSafety.SilentAfterTerminal | internal/transfer/transfer.go:312-336 | a cancel or error taken by a wait or a poll ends the sender without another message |
| SenderSafety.SenderEvents | internal/transfer/transfer.go:102-116 | at every moment of any run the sender's events obey the contract, and the done event comes exactly with nil |
| SenderSafety.StepKeepsStream | internal/transfer/transfer.go:571-605 | every step keeps: hashed bytes are the sent bytes, a file is complete before file-end, at most one message is deferred |
| Recogniser.RecogniserCorrect | internal/transfer/transfer.go:697-965 | with no local fault, nil is returned if and only if the input begins with hello and, unknown types erased, a valid manifest, one block per accepted id with exactly the declared bytes and a matching digest, and done |
| Recogniser.SentenceAccepted | internal/transfer/transfer.go:859-965 | on such an input exactly the blocks' contents are stored, in order, under the names the directory leaves free |
| Recogniser.FeedIsRun | internal/transfer/transfer.go:697-835 | the inputs of the grammar theorem are the receiver's runs on messages alone, with no local fault |
| Recogniser.FeedErased | internal/transfer/transfer.go:751-753 | after hello, messages of unknown type make no difference |
| JointReceiver.OwnManifestValid | internal/transfer/transfer.go:455-471 | the manifest Send builds is one every receiver finds valid |
| JointSender.AcceptedIds | internal/transfer/transfer.go:778-802 | the accept a receiver sends for that manifest resolves to the receiver's own ids |
| JointSender.AfterMessage | internal/transfer/transfer.go:480-531 | whatever expected message the sender takes, its answer leads the receiver to a state that again matches it |
| JointSender.AfterRead | internal/transfer/transfer.go:586-611 | the same for a read, an end of file, a read error and an interrupted write |
| JointRuns.ActionKeepsInv | internal/transfer/transfer.go:433-965 | every action of either side, every pump and every cancellation keeps the joint invariant |
| JointRuns.RunInv | internal/transfer/transfer.go:433-965 | the joint invariant holds in every state of every run |
| JointStreams.Conservation | internal/transfer/transfer.go:571-605 | while a file is being sent: bytes written, then payloads in inbox and channel, are the bytes read, which are the first bytes of the source; on both sides exactly the streamed bytes are hashed; how far the receiver is |
| JointStreams.ConservationAlways | internal/transfer/transfer.go:906-924 | for a receiver writing a file, whatever has become of the sender: bytes written, then payloads still on their way, are what was sent of that file, the first bytes of its source; hashed, counted and written bytes agree |
| JointStreams.ChannelStaysBounded | internal/peer/peer.go:337-360 | in every reachable state of the joint system, the data in the channel is at most 1 MiB - 1 + 16 KiB, below the 4 MiB limit |
| JointOutcomes.NobodyAtFault | internal/transfer/transfer.go:936-951 | hash mismatch and version errors are unreachable on both sides, the sender never sees a protocol violation, the receiver only if a source file grew beyond its declared size; no message is ever deferred |
| JointOutcomes.KeptAreSources | internal/transfer/transfer.go:947-960 | every verified file equals its source bit for bit and is on disk under a new name |
| JointOutcomes.KeptUnderOwnNames | internal/transfer/transfer.go:886-896 | every kept file lies under the sanitized name of the source file of its id, or the first free numbering of it, in the directory that holds what was there and the files kept earlier |
| JointOutcomes.SendNilMeansDelivered | internal/transfer/transfer.go:518-530 | Send returning nil implies every accepted file is verified and kept at the receiver, equal to its source |
| JointOutcomes.ReceiveNilMeansSendNil | internal/transfer/transfer.go:810-834 | Receive returning nil implies Send has returned nil |
| JointOutcomes.RejectedMeansUntouched | internal/transfer/transfer.go:505-509 | Send returning the rejected error implies the receiver chose nothing and its directory is as before |
| JointLiveness.SenderEndsReceiver | internal/transfer/transfer.go:328-336 | once Send has returned, what is in flight makes a started receiver return, whatever its file operations do, unless the sender never opened |
| JointLiveness.ReceiverEndsSender | internal/transfer/transfer.go:328-336 | once Receive has returned, a running sender has the message that ends it at the end of its queue, unless the receiver never opened |
| JointLiveness.EndsWhenTaken | internal/transfer/transfer.go:505-509 | that message ends the sender when a wait or a poll takes it |
| JointLiveness.SomethingCanMove | internal/transfer/transfer.go:433-835 | a reachable state in which nothing but a cancellation or a fault is possible, a writer asleep behind a full channel not being counted on, has both sides returned, unless one of them never opened |
| JointLiveness.NobodyLeftWaitingIff | internal/transfer/transfer.go:446-471 | every such state of every run has both sides returned if and only if Send accepts its file list and Receive its directory, or both refuse |
| JointLiveness.UnsendableLeavesReceiverWaiting | internal/transfer/transfer.go:446-471 | for every unsendable list there is a run that leaves the receiver waiting |
| JointLiveness.UnusableDirectoryLeavesSenderWaiting | internal/transfer/transfer.go:716-718 | for every sendable list there is a run that leaves the sender waiting after the receiver failed to open |
| JointMeasure.EveryActionFalls | internal/transfer/transfer.go:433-835 | a well-founded measure of phases, files, bytes and messages in flight falls at every action, cancellations and faults included |
| JointMeasure.NoInfiniteRun | internal/transfer/transfer.go:433-835 | no infinite run exists |
| JointMeasure.RunsAreBounded | internal/transfer/transfer.go:433-835 | every run, cancellations and faults included, has at most a number of steps computed from the files |
| JointMeasure.ContinuationsEnd | internal/transfer/transfer.go:433-835 | from every reachable state, with both sides willing or both refusing: a continuation without cancellations and faults is no longer than the potential of that state, and one that none such extends has both sides returned |
| JointMeasure.NotQuietGoesOn | internal/transfer/transfer.go:433-835 | as long as something ordinary can happen, such a continuation can be extended |
| Mailbox.OneQueue | internal/transfer/transfer.go:210-285 | any interleaving of pump, next, poll, midSendCheck and pushback is one FIFO from which only unknown types are dropped; at most one message is deferred |
| Mailbox.CloseComesLast | internal/transfer/transfer.go:251-263 | the close is reported only when nothing is queued and all that arrived has been handed on, save unknown types |
| Mailbox.NextIsHead | internal/transfer/transfer.go:245-267 | whichever ready case the select picks, a message returned is the head of the FIFO |
| Mailbox.NextExactly | internal/transfer/transfer.go:245-267 | which of message, close and cancellation a wait returns, if and only if, and what it takes off the queue |
| Mailbox.PollExactly | internal/transfer/transfer.go:270-285 | the look finds the head if there is one; the eight known types that end nothing stay at the front, unknown types are dropped, the rest is handed on |
| Mailbox.Inbound.Next | internal/transfer/transfer.go:245-267 | the method does to the fields what the step does |
| Mailbox.Inbound.PollOnce | internal/transfer/transfer.go:579-584 | poll followed by midSendCheck is one step of the queue, and says what ends the stream |
| Mailbox.Inbound.Pump | internal/transfer/transfer.go:218-226 | a message moves to the inbox unless that is full |
| Handoff.ExactlyOnceInOrder | internal/peer/peer.go:295-331 | every interleaving: delivered, then batch, buffer and message in hand are what arrived, in order; the handler is never run by both threads at once |
| Handoff.Settles | internal/peer/peer.go:309-331 | once arrivals pause, the installation completes in a bounded number of steps with everything delivered |
| Handoff.Conn.OnMessage | internal/peer/peer.go:313-331 | the replay loop, with arrivals before every critical section and before and during every handler call, returns with the flag set, the buffer empty and everything that arrived delivered in order |
| Handoff.Conn.RouteMessage | internal/peer/peer.go:295-307 | before the flag is set a message goes to the end of the buffer, afterwards to the handler |
| Flow.BufferStaysBounded | internal/peer/peer.go:337-360 | data buffered through WriteFlow never exceeds 1 MiB - 1 + 16 KiB, below the 4 MiB limit, in any interleaving |
| Flow.NoLostWakeUp | internal/peer/peer.go:93-109 | a blocked writer has more than the low mark buffered, a callback pending, or a token to take, stale tokens included |
| Flow.BlockedWriterSends | internal/peer/peer.go:348-360 | with the buffer down to the low mark, the pending callback and the writer's own steps send the chunk |
| Flow.WakeUpsAreEarned | internal/peer/peer.go:93-109 | the writer is woken at most once per callback, and there is one callback for each time the buffer fell to the low mark |
| Flow.Channel.WriteFlow | internal/peer/peer.go:337-360 | exactly the large chunks are refused; a done context gives up at once, otherwise a chunk is given up only if the last look found the context done; below the high mark it is sent without waiting; the bound is kept, and the writer blocks only in a state from which it will be woken |
| Frames.SplitFrames | internal/signal/qrframe.go:39-66 | the frames are numbered 1 to the total, each header followed by its slice; more than 65535 are refused |
| Frames.JoinFrames | internal/signal/qrframe.go:83-143 | the three passes compute the specified result, with the first error in order |
| Frames.ReadFrame | internal/signal/qrframe.go:56-62 | the header fields of a split frame read back as number, total and checksum: nothing is truncated |
| Frames.Field16 | internal/signal/qrframe.go:59-60 | a 16-bit field reads back if and only if the number is at most 65535 |
| Frames.SlicesPartition | internal/signal/qrframe.go:53-63 | the slices in order are the payload |
| Frames.SplittableIff | internal/signal/qrframe.go:47-51 | splitting is refused exactly for payloads longer than 65535 chunks |
| Frames.AbsentMeaning | internal/signal/qrframe.go:115-120 | the collected list is exactly the absent numbers, ascending |
| Frames.JoinOfDrawn | internal/signal/qrframe.go:83-143 | frames of one split in any order with any duplicates: none missing gives the payload inflated, otherwise the error lists exactly the missing numbers |
| Frames.RoundTrip | internal/signal/qrframe.go:68-82 | joining undoes splitting under any order and duplication, for every chunk size |
| Frames.FrameLoss | internal/signal/qrframe.go:115-130 | joining frames of one split fails if and only if one is absent, and names exactly the absent ones in ascending order |
| FrameResults.SplitBytes | internal/signal/qrframe.go:52-65 | every frame is "JSI1", its number, the total and the checksum, big-endian, and a piece of the chosen size, the last no longer; the pieces in order are the payload |
| FrameResults.JoinExactly | internal/signal/qrframe.go:83-143 | joining any byte strings: the result is the payload inflated, a checksum or inflation failure, the absent numbers, or the first unfit frame with what is wrong with it, each if and only if the bytes are as listed for it |
| Paste.Base64Url | pwa/src/signal/paste.ts:40-44 | the browser's detour over btoa, two replacements and stripped padding gives the unpadded URL-safe encoding the Go client uses |
| Paste.BrowserReadsExactly | pwa/src/signal/paste.ts:46-52 | which texts the browser reads: padding by the full length, white space skipped, both alphabets, no group left alone |
| Paste.Base64UrlDecode | pwa/src/signal/paste.ts:46-52 | padding, replacements, atob and the byte loop compute the specified decoding |
| Paste.BrowserDecodes | pwa/src/signal/paste.ts:46-52 | on every sequence of six-bit groups the browser's decoder and the Go client's agree |
| Paste.DecodersAgree | pwa/src/signal/paste.ts:46-52 | on any text: where the Go client reads, they agree exactly when the line ends come in fours or no padding is needed; where it does not, exactly when the browser cannot read it either |
| Paste.RawUrlRoundTrip | internal/signal/paste.go:80-100 | decoding undoes encoding on every byte string |
| Paste.UrlRoundTrip | pwa/src/signal/paste.ts:40-52 | the browser's decoder undoes the common encoding, padding stripped and restored |
| Paste.PasteRoundTrip | internal/signal/paste.go:80-106 | a blob with any white space around it decodes to its description, in either client |
| PasteBits.RawUrlExactly | internal/signal/paste.go:80-86 | the encoding has one character of the base64url table for every six bits, the last group filled up with zero bits, and no padding |
| PasteBits.DecodesExactly | internal/signal/paste.go:89-100 | a text decodes to given bytes, in either client, if and only if what is left of it stands for groups with those bits and no group is alone |
| PasteBits.PasteExactly | internal/signal/paste.go:89-105 | pasting any text gives a result if and only if the text without the white space around it lacks the prefix, does not decode, does not inflate, or inflates to it |
| SessionObject.OneCreatePerLifetime | worker/src/sessiondo.ts:22-27 | a create succeeds if and only if none has succeeded since the last alarm |
| SessionObject.OfferStays | worker/src/sessiondo.ts:22-27 | until the next alarm the first create fixes the offer, and no request moves the alarm |
| SessionObject.OneAnswerPerLifetime | worker/src/sessiondo.ts:33-38 | at most one answer is accepted per lifetime of a session |
| SessionObject.AcceptedExactly | worker/src/sessiondo.ts:33-38 | an answer is accepted if and only if it is the first one put after a create that made the session, with no alarm in between |
| SessionObject.FirstAnswerIsRead | worker/src/sessiondo.ts:22-51 | on a fresh object: the create makes the session, the first answer is accepted and is what is read |
| SessionObject.MintsExactly | worker/src/sessiondo.ts:22-27 | which create makes the session, on the history alone |
| SessionObject.OfferReadExactly | worker/src/sessiondo.ts:28-31 | an offer read is the one of that create |
| SessionObject.NoSessionExactly | worker/src/sessiondo.ts:33-35 | an answer is refused as premature exactly when no create has succeeded since the last alarm |
| SessionObject.ReadsAreTheAnswer | worker/src/sessiondo.ts:43-51 | a read returns an answer if and only if that answer was accepted since the last alarm |
| SessionObject.AnswerBelongsToOffer | worker/src/sessiondo.ts:33-38 | an answer present belongs to the offer present, which was made before it in the same lifetime |
| SessionObject.AlwaysInv | worker/src/sessiondo.ts:22-61 | answer present implies offer present, offer present exactly when the alarm is armed |
| SessionObject.SessionDO.WaitAnswer | worker/src/sessiondo.ts:43-51 | the polling loop, with other clients and alarms at every pause: it looks at once and after each pause it sleeps through, every look but the last found nothing before the deadline, and it returns an answer accepted in the same lifetime, or null only after the deadline, or it still sleeps |
| SessionObject.SessionDO.PutAnswer | worker/src/sessiondo.ts:33-38 | no session, an answer already there, or created; the answer is stored exactly in the last case, and offer and alarm stay |
| SessionObject.CreateSession | worker/src/sessions.ts:65-76 | up to three tokens, with other clients acting between the attempts: the first free one gets the offer and the alarm, nothing else changes, and a failure writes nothing |
| SessionObject.NewToken | worker/src/sessions.ts:24-30 | a minted token matches the token pattern |
| SessionObject.AlphabetIsTheClass | worker/src/sessions.ts:14-28 | the alphabet is the pattern's character class, each character once, so the draw is uniform |
| Browser.Inbox.Next | pwa/src/rtc/transfer.ts:312-326 | the queue's head, or a wait on an empty queue, or the close with everything delivered |
| Browser.Inbox.Accept | pwa/src/rtc/transfer.ts:277-335 | a message goes to the waiting reader or to the end of the queue; malformed text and messages after the close are dropped |
| Browser.PiecesOfAll | pwa/src/rtc/transfer.ts:123-134 | however the blob is read, the chunks have 1 to 16384 bytes and concatenate to the file |
| Browser.SplitRead | pwa/src/rtc/transfer.ts:127-133 | the offset loop cuts one read into those pieces |
| Browser.Send | pwa/src/rtc/transfer.ts:57-151 | for every answer list and abort signal: how send ends and after how many files, and that it emitted hello, manifest and those files' messages, part of a file with a cancel when aborted in it, and done exactly when every accepted file was sent and acknowledged |
| Browser.SendFiles | pwa/src/rtc/transfer.ts:93-146 | the loop over accepted ids completes exactly when every file is read to the end and every ack is good; otherwise it stops at the first abort, bad id, missing, foreign or mismatch answer |
| Browser.BuildManifest | pwa/src/rtc/transfer.ts:77-85 | the manifest announces the i-th file as number i with its size under its own sanitized name, or the send fails on the first unusable name |
| Browser.BrowserSpeaksTheLanguage | pwa/src/rtc/transfer.ts:57-151 | a run completed against a Go receiver emitted a sentence of its grammar; the receiver returns nil and keeps exactly the browser's bytes |
| Browser.BrowserNamesKept | pwa/src/rtc/transfer.ts:57-151 | each file lies under the name the browser announced for it, as the receiver sanitizes and numbers it |

## Left out

- Connection setup, ICE, DTLS, SDP contents, HTTP routes, rate limiting, prompts and screens: library behaviour and plumbing.
- JSON text, zlib, SHA-256 and CRC-32 internals: function parameters here. That a stream's digest is the digest of its concatenation is built in, because the machines keep the hashed bytes and digest them once.
- Non-ASCII names: names are modelled as sequences of one-byte characters, which makes the 255-byte limit a length.
- Lost events: `emit` may drop an event once the context is cancelled; the event theorems are about a context under which every event is received.
- File-system faults beyond a failing open, write or close, other writers in the destination directory, and a failing removal of a partial file: assumed not to happen.
- Channel close and failing sends in `Joint`: the joint theorems are about an open reliable channel. The machines and programs treat the close like any other arrival, and `Mailbox` says when it is reported.
- `WriteFlow` in `Joint`: a read and its write are one step there, possible below the high mark or interrupted by the context; its loop is the subject of `Flow`. The sizes of control messages are not counted towards the mark.
- The 16 KiB limit on the receiving side: the receiver accepts chunks of any size, as the code does.
- Handoff: one `OnMessage` call, as the transfer makes it; a second concurrent call is not modelled.
- Flow: the network and the callbacks are steps of their own; that the channel invokes the callback exactly when the buffered amount crosses the threshold downwards is taken from its specification. A closing channel waking a blocked writer is not claimed.
- The browser's `receive`: accepts everything and writes no files, so it would add an easier copy of the receiver. Waiting for a low buffer only delays the browser's send, so it appears as the turn in which the signal fires; its weaker bound inside one large read is not modelled.
- SessionObject: storage operations of one request are atomic, as the platform's input gate makes them; a poll that spans an alarm and a re-created token is only claimed to return an answer accepted in the lifetime of its last read.
- Token normalisation, request parsing and status codes of the worker: finite tables.
- Exit codes, policies, `StripTURN`, progress bars: finite tables or one-branch facts.
