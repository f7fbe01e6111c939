# FASP manager: verified model

A Dafny 4.11 model of the stateful parts of the FASP manager Go SDK: the inbound
session engine that reassembles and folds ascp management messages, the outbound
stream worker and the wire it shares with the session API, the manager that routes
new connections to sessions, and the transfer options shared by all processes of a
transfer. `dafny verify dfyconfig.toml` checks the whole project.

Go strings and byte slices are byte sequences and are modelled as `string`, one
`char` per byte. A connection is a byte log with partial and failing writes; a
reader or a socket is the script of the results it returns, so every theorem about
all scripts is one about all readers. Locks and goroutines are steps of a machine,
and a theorem about all schedules is one about all interleavings. What only the environment
decides, such as a failed write or a lost connection, is recorded in ghost fields, and
every reported failure is tied to them.

| file | what it models |
|---|---|
| `Text.dfy` | searching, lines, the split into messages, decimal numbers |
| `Management.dfy` | the table from key to field, and the effect of one line |
| `LineEffects.dfy` | which values of each key are taken, and where they end up |
| `Engine.dfy` | one message, a run of messages, a stream of blobs, as functions on a session value |
| `Framing.dfy`, `Printing.dfy` | conservation, fragmentation, print/parse round trip |
| `Ordering.dfy` | the order of lines in a message |
| `Runs.dfy`, `Counters.dfy`, `FileMap.dfy` | completion, counters and the file map over whole runs |
| `Reports.dfy` | the event and the file map after a message of each type |
| `Commands.dfy` | the session API and its command log |
| `Session.dfy`, `Connection.dfy` | the session object with its mutable file records, proved against the functions above |
| `Frames.dfy` | outbound frames, their bytes, a decoder |
| `StreamWorker.dfy`, `StreamLaws.dfy` | the read loops, and what their frames do to the destination file |
| `WireMutex.dfy`, `JobQueue.dfy`, `SharedWire.dfy` | goroutines on one connection; the bounded job queue; both together |
| `Routing.dfy`, `ManagerMap.dfy` | finding the session of a connection; the session map |
| `Options.dfy`, `Orders.dfy`, `CommandReader.dfy` | defaults, command lines, list files, all processes of a transfer; reading a command line back |

The methods of `LiveSession` require that no message makes the code panic: a line whose
first colon is its last byte, or a SESSION message for a stream session without a
connection. In the functions these are an outcome of their own, `Panicked`, so the
lemmas about runs hold without that condition.

Where the code does not do what one might expect, the exact condition is proved:

- Cutting the stream differently leaves the same session if and only if no message
  other than the last one errs (`Framing.CutsMatterExactly`); which messages err can
  be read off their bytes (`Runs.AcceptedExactly`).
- In a message of distinct keys whose values all parse, the order of lines matters if
  and only if it sets the policy both by Adaptive and by a Priority of 1
  (`Ordering.OrderMattersExactly`). Repeated keys and refused lines depend on the order
  as well and are not covered by this.
- `stream_reader.go` promises that position -1 writes to the end of the destination.
  The code uses the running total of bytes instead; with documented positions the two
  agree if and only if the last block with any bytes was itself placed at the running
  total, and a block at -1 is sent to the true end if and only if that holds of the
  blocks before it (`StreamLaws.EndOfDestination`, `StreamLaws.AppendsAtEndExactly`,
  `StreamLaws.DocumentedWithinTotal`, `StreamLaws.AppendAfterRewriteLeavesHole`).
- The id read from a first message is final if and only if its line is already
  terminated (`Routing.IdStableExactly`); it is the id of the whole connection if and
  only if its line is terminated, or nothing or a newline follows it
  (`Routing.IdOfWholeExactly`).
- Bytes processed before setManagementConn leave the same session as after it if and
  only if no SESSION message of a stream session is among them
  (`Routing.DrainConnectExactly`).
- The decoder of `Frames.dfy` reads a frame, and a whole wire, back if and only if its
  paths are newline-free (`Frames.ReadBackExactly`, `Frames.WireReadBackExactly`). That
  is a statement about this decoder, not about the bytes of every path with a newline;
  some such paths make two frame lists equal (`Frames.RangeInPathAmbiguous`,
  `Frames.NewlinePathAmbiguous`).
- All schedules with n SESSION messages keep the stream frames of each job together if
  and only if n is at most one (`JobQueue.JobsAreBlocksExactly`); a second one starts a
  second worker on the same queue.
- The list argument and its file are read back as the sources and destinations of the
  order if and only if no path contains a newline (`Orders.SourcesReadBack`).

Other behaviour a reader might not expect:

- If one of several processes cannot be started, the earlier ones keep running but
  none of their ids is returned (`Orders.StartProcesses`).
- A START message is read without a fault and is an error all the same, so that it
  holds up the messages behind it (`Printing.StartErrs`, `Printing.CutsMatterAfterStart`).
- Options are validated before the defaults are filled in, so a minimum rate without
  a target rate is rejected although the default target would allow it
  (`Options.ValidatedBeforeDefaults`).
- The event of `notifyStreamErr` carries the live file record, unlike the events of
  messages, which carry copies, and later messages change it
  (`TransferSession.LiveSession.NotifyStreamErr`, `TransferSession.LiveSession.NotifyThenProcess`).

## Model

| member | source | states |
|---|---|---|
| Text.MessagesConserve | faspmanager/transfer_session.go:507-521 | splitting a stream at its leftmost blank lines loses no byte: the messages, each with its blank line, and the rest are the stream |
| Text.MessagesAppend | faspmanager/transfer_session.go:507-521 | splitting piecewise and carrying the rest over, also when the cut falls inside a blank line, is splitting at once |
| Management.KeyOfField | faspmanager/transfer_session.go:680-1023 | the key table read backwards: each field is written by one key only |
| Management.KeyTable | faspmanager/transfer_session.go:680-1023 | a key writes a field if and only if it is the key of that field, so no key is missing |
| LineEffects.LineTakes | faspmanager/transfer_session.go:680-1029 | key by key, with the keys written out: numbers are taken if and only if they are in bounds, texts, flags, policies and types as listed, and each is then in its field |
| LineEffects.PrintedNumber | faspmanager/transfer_session.go:680-1023 | a printed number is taken if and only if it fits the 64 bits of its key, and then unchanged |
| LineEffects.UnusedTaken | faspmanager/transfer_session.go:680-1029 | a key outside the table is accepted and changes nothing |
| Text.OtherTexts | faspmanager/transfer_session.go:680-1023 | no other text is read as a number |
| Text.NumberTexts | faspmanager/transfer_session.go:680-1023 | digits, alone or after one sign, are read as that number, and unsigned fields take no sign |
| Management.FieldOfInjective | faspmanager/transfer_session.go:680-1023 | two different keys never write the same field |
| Management.TypeIsItsName | faspmanager/transfer_session.go:951-983 | a Type value is recognised as a message type exactly if it is that type's name |
| Framing.Conservation | faspmanager/transfer_session.go:507-521 | after any blobs, errors included, the session is the run over the first k messages of the leftmost split, and those messages plus the buffer are exactly the bytes received |
| Framing.ProcessedIsPrefix | faspmanager/transfer_session.go:507-521 | for a new session the processed list is an in-order prefix of the split, nothing lost or repeated |
| Framing.DrainConsumes | faspmanager/transfer_session.go:507-521 | one call processes a prefix of the waiting messages, and all of them if it returns no error |
| Framing.FragmentationInvariance | faspmanager/transfer_session.go:507-521 | if no message but possibly the last errs, any cutting into blobs gives the same statistics, files, events, log and buffer as one call |
| Framing.CutsMatter | faspmanager/transfer_session.go:516-518 | if any other message errs, a cut right behind it processes more than one call, which leaves the later messages in the buffer |
| Framing.CutsMatterExactly | faspmanager/transfer_session.go:516-518 | every cutting of a stream leaves the session of one call if and only if no message but possibly the last errs |
| Framing.Progress | faspmanager/transfer_session.go:507-521 | however the stream is cut, every message before which all are accepted is processed, the first one that errs included |
| Printing.StartErrs | faspmanager/transfer_session.go:544-550 | a START message is an error for every session |
| Printing.CutsMatterAfterStart | faspmanager/transfer_session.go:516-518 | a START followed by any message is a stream on which the cuts matter |
| Runs.WorkersAreSessions | faspmanager/transfer_session.go:552-555 | a stream session starts one worker for each accepted SESSION message, others none |
| Runs.OutcomeIsVerdict | faspmanager/transfer_session.go:523-561 | whether a message is accepted, rejected or panics depends on its bytes, and on whether a stream session has its connection, but on nothing it received before |
| Runs.AcceptedExactly | faspmanager/transfer_session.go:523-561 | a run has no error if and only if every message has good lines only and a last Type that carries an event |
| Printing.RoundTrip | faspmanager/transfer_session.go:507-541 | printed messages, concatenated and cut anywhere, are processed as exactly their key and value lists in order: all of them if none errs, and otherwise at least up to and with the first that errs |
| Printing.ReadMessage | faspmanager/transfer_session.go:523-541 | the lines of a printed message are read back as its header and its keys and values, values with colons included |
| Ordering.OrderIndependence | faspmanager/transfer_session.go:523-561 | permuting the lines of a message with distinct keys whose values parse and which does not set the policy twice changes neither state, files, event nor outcome |
| Ordering.PolicyOrderMatters | faspmanager/transfer_session.go:684-695 | any such message with both an Adaptive value and a Priority of 1, whatever its other lines, has a permutation that gives another policy |
| Ordering.OrderMattersExactly | faspmanager/transfer_session.go:684-695 | a message of distinct keys with good values gives the same session in every order if and only if it does not set the policy twice |
| Ordering.EveryLineShows | faspmanager/transfer_session.go:680-1029 | after such a message each key's value is in the session or file field the key names |
| Runs.LatchRun | faspmanager/transfer_session.go:583-598 | in every run the channel is closed at most once, exactly when an accepted message ended in DONE or ERROR, and each event agrees with the state in its snapshot |
| Runs.CompletionLatch | faspmanager/transfer_session.go:583-598 | the same for any byte stream cut in any way |
| Runs.CompleteStays | faspmanager/transfer_session.go:586-597 | a complete session stays complete |
| Runs.EventMatchesState | faspmanager/transfer_session.go:603-630 | the event of each message type goes with the session state of that type, and only DONE and ERROR finish |
| Counters.CountersCountLines | faspmanager/transfer_session.go:963-975 | in every run, errors included, the counters are the numbers of STOP, SKIP and FILEERROR lines read |
| Counters.CountersMonotone | faspmanager/transfer_session.go:963-975 | no counter ever decreases, and skipped files are at most the complete ones |
| Counters.EventsCountLines | faspmanager/transfer_session.go:543-561 | in single-Type runs the file events are at most the lines of their type, and equally many without errors |
| Counters.CountersAreEvents | faspmanager/transfer_session.go:543-598 | in error-free single-Type streams complete minus skipped, skipped and failed are the numbers of File Stop, File Skip and File Error events |
| Reports.MessageAnnounces | faspmanager/transfer_session.go:603-630 | an accepted message appends one event of the kind of its last Type, with the session state of that type; STATS gives File Start if and only if it names a file that is not in the map |
| Reports.MessageEndsFile | faspmanager/transfer_session.go:571-581 | an accepted message with one Type removes the entry of its file if and only if it is STOP, SKIP or FILEERROR, its event shows the file state of its type, and other entries stay |
| Reports.EveryReportAnnounced | faspmanager/transfer_session.go:544-630 | over any stream the first STATS message about a file, and the first after each end of it, is its File Start event, and every other event is of the kind of its message |
| Reports.ReportReachesListener | faspmanager/transfer_session.go:507-581 | a printed progress report about a file gives one File Start or Progress event with the bytes written, and the file is in the map with them |
| FileMap.FileMapAgreesWithHistory | faspmanager/transfer_session.go:637-676 | after any stream the map holds exactly the files with merged records since creation, each entry with the last non-zero byte counts, the latest code, state and checksum, and the first description |
| FileMap.EventsAgreeWithHistory | faspmanager/transfer_session.go:544-581 | every accepted message has one event, whose file record is the summary of all records merged for the file up to and with it, also when the file ends |
| FileMap.SummariseNext | faspmanager/transfer_session.go:646-665 | merging one more record into an entry keeps it the summary of its history |
| FileMap.FileLifecycle | faspmanager/transfer_session.go:571-581 | in single-Type streams no terminal file is in the map, and two File Start events of a name are separated by its File Stop, File Error or File Skip |
| Commands.CommandLog | faspmanager/transfer_session.go:212-363 | over every interleaving of calls, messages and the connection nothing is sent before the start or after completion, at most one Linger is sent, no START or RATE follows it, and every frame fits the kind of the session |
| Commands.CallAcceptedExactly | faspmanager/transfer_session.go:212-363 | a call is accepted exactly after the start and before completion, unlocked unless it cancels, and on the kinds of session it is for |
| Commands.DoAllGrows | faspmanager/transfer_session.go:212-363 | the command log only grows, and not at all once the session is complete |
| Commands.PeerReadsCall | faspmanager/transfer_session.go:226-363 | the peer reads from an accepted call the source, destination and byte range, or the rates and policy, or the DONE, CANCEL or Linger it asked for |
| Commands.PolicyReadBack | faspmanager/transfer_options.go:386-399 | a policy sent in a RATE frame and reported back is the same one, except that high comes back as fair |
| Connection.WriteAll | faspmanager/stream_worker.go:192-201 | on success all of the payload is appended to the wire, on failure a prefix of it, and it fails exactly if a write of the connection does |
| TransferSession.FileStatistics.Merge | faspmanager/transfer_session.go:646-667 | an existing entry becomes the merged record |
| TransferSession.LiveSession.UpdateStatsFromMsg | faspmanager/transfer_session.go:680-1029 | one key and value change the session and the message's record as the key table says, or nothing when refused; for every key written out, which values are taken and where they are found |
| TransferSession.LiveSession.MergeFileStats | faspmanager/transfer_session.go:637-676 | the map becomes the merged map, the returned record is a fresh copy of the merged entry, and a new entry is reported as such |
| TransferSession.LiveSession.ReadMessage | faspmanager/transfer_session.go:523-541 | the line loop folds the lines up to the first refused one into the session and the message's record |
| TransferSession.LiveSession.CloseComplete | faspmanager/transfer_session.go:590-597 | the channel is only closed while it is open, since a second close panics |
| TransferSession.LiveSession.LatchCompletion | faspmanager/transfer_session.go:583-598 | a finished session is reported on every completion and its channel closed on the first only |
| TransferSession.LiveSession.DeliverEvent | faspmanager/transfer_session.go:552-598 | worker start, event with its own copy of the record, removal of a terminal file and completion, as specified |
| TransferSession.LiveSession.ProcessSingleMessage | faspmanager/transfer_session.go:523-601 | the object refines the processing function on its abstract value |
| TransferSession.LiveSession.ReceiveManagementBlob | faspmanager/transfer_session.go:507-521 | the object refines the receive function, and the copies handed out with earlier events and unstored records of notifyStreamErr keep their values |
| TransferSession.LiveSession.NotifyStreamErr | faspmanager/transfer_session.go:284-306 | one File Error event is recorded, with the session statistics as they now are; the description goes into the live entry, which the event shares; without an entry the event has a new record that is not stored |
| TransferSession.LiveSession.NotifyThenProcess | faspmanager/transfer_session.go:284-306 | the next message changes the record of such an event along with the live entry, and leaves an unstored record as it is |
| TransferSession.LiveSession.SetManagementConn | faspmanager/transfer_session.go:425-443 | the connection is taken once and later ones are refused |
| TransferSession.LiveSession.SendManagementMessage | faspmanager/transfer_session.go:445-469 | partial writes are continued until the whole message or, if and only if a write fails, a prefix of it is on the wire |
| TransferSession.LiveSession.AddFileSource | faspmanager/transfer_session.go:212-240 | a refused call writes nothing; otherwise the START frame is appended, or a part of it if and only if a write of the connection fails |
| TransferSession.LiveSession.SetRate | faspmanager/transfer_session.go:309-328 | the same for the RATE frame |
| TransferSession.LiveSession.CancelTransfer | faspmanager/transfer_session.go:331-343 | the same for DONE on persistent and CANCEL on other sessions |
| TransferSession.LiveSession.LockSession | faspmanager/transfer_session.go:347-363 | the same for the Linger frame; the session is locked even if the write fails |
| Frames.DecodeEncode | faspmanager/stream_worker.go:155-190 | the first frame is read back whatever bytes follow it, payloads with blank lines or frame look-alikes included |
| Frames.PutText | faspmanager/stream_worker.go:155-156 | the bytes of a PUT, written out |
| Frames.CloseText | faspmanager/stream_worker.go:184-185 | the bytes of a CLOSE |
| Frames.WriteText | faspmanager/stream_worker.go:163-182 | the bytes of a WRITE, whose Size is the length of its payload |
| Frames.StartText | faspmanager/transfer_session.go:226-239 | the bytes of a START, with a byte range only if one of its ends is not zero |
| Frames.RateTextIs | faspmanager/transfer_session.go:325-327 | the bytes of a RATE |
| Frames.DoneText | faspmanager/transfer_session.go:338-342 | the bytes of DONE and CANCEL |
| Frames.LingerText | faspmanager/transfer_session.go:361-362 | the bytes of the Linger command |
| Frames.RangePrinted | faspmanager/transfer_session.go:227-237 | a byte range with blanks for zeros is read back |
| Frames.DecodeAllEncodeAll | faspmanager/stream_worker.go:155-190 | a whole wire of frames and commands is read back frame by frame |
| Frames.EncodeAllInjective | faspmanager/stream_worker.go:155-190 | frame lists with newline-free paths are determined by their bytes |
| Frames.PartialUndecodable | faspmanager/stream_worker.go:163-182 | no proper prefix of a frame holds a whole frame |
| Frames.ReadBackExactly | faspmanager/stream_worker.go:155-190 | a frame is read back whatever follows it if and only if its paths are newline-free |
| Frames.WireReadBackExactly | faspmanager/stream_worker.go:155-190 | a wire is read back as the frames put on it if and only if all their paths are newline-free |
| Frames.NewlinePathAmbiguous | faspmanager/stream_worker.go:155-161 | a path that goes on with a blank line and a CANCEL has the bytes of a PUT and a CANCEL |
| Frames.RangeInPathAmbiguous | faspmanager/transfer_session.go:226-239 | a destination that goes on with a FileBytes line has the bytes of a START with that byte range |
| StreamWorker.Worker.SendPut | faspmanager/stream_worker.go:155-161 | the PUT frame is appended, or a prefix of it if and only if a write of the connection fails |
| StreamWorker.Worker.SendClose | faspmanager/stream_worker.go:184-190 | the same for CLOSE |
| StreamWorker.Worker.SendWrite | faspmanager/stream_worker.go:163-182 | the three writes append the whole WRITE frame, or a prefix of it if and only if one of them fails |
| StreamWorker.Worker.SendStream | faspmanager/stream_worker.go:80-114 | the wire gets PUT, the frames of the script as far as they could be sent, and CLOSE, or a part of PUT alone, and the report says which; each reported failure is one failed write, CLOSE is tried in any case, and without one all is sent and only the reader's error is reported |
| StreamWorker.Worker.SendStreamReader | faspmanager/stream_worker.go:116-153 | the same for blocks, with a write failure reported as the read error |
| StreamWorker.ReportTells | faspmanager/stream_worker.go:105-113 | nothing is reported exactly if the reader and all writes went well, and a report tells which failed |
| StreamWorker.SilentJob | faspmanager/stream_worker.go:105-113 | when nothing is reported the wire holds exactly PUT, all frames and CLOSE |
| StreamLaws.FramesAreChunks | faspmanager/stream_worker.go:89-103 | however the reader slices its data, the frames are the data cut into chunks |
| StreamLaws.StreamReassembles | faspmanager/stream_worker.go:80-114 | contiguous offsets from 0, full chunks except a non-empty last one, ceil(total / chunk) of them, and applying them to an empty file gives the bytes read |
| StreamLaws.ZeroChunkSendsNothing | faspmanager/stream_worker.go:98-102 | with a chunk size of zero every frame is empty |
| StreamLaws.BlocksInOrder | faspmanager/stream_worker.go:126-142 | every block before the end is sent once, in order, at its position or at the running total |
| StreamLaws.StickySendsAll | faspmanager/stream_worker.go:133-140 | a reader whose error is sticky has all its bytes sent |
| StreamLaws.StreamReaderReassembles | faspmanager/stream_worker.go:116-153 | if explicit positions are the bytes so far, the file is the concatenation of all blocks |
| StreamLaws.StreamDelivered | faspmanager/stream_worker.go:80-114 | when no write fails the peer reads its PUT, WRITEs and CLOSE behind the earlier frames, the WRITEs give exactly the bytes of the reader, and nothing is reported if and only if the reader ended with the end of file |
| StreamLaws.BlocksDelivered | faspmanager/stream_worker.go:116-153 | the same for sendStreamReader, a sticky reader and positions that are the bytes so far |
| StreamLaws.AppendsAtEndExactly | faspmanager/stream_worker.go:133-142 | the WRITE of a block at -1 has the end of the destination as its offset if and only if the last block with any bytes before it was placed at the running total |
| StreamLaws.DocumentedWithinTotal | faspmanager/stream_reader.go:21-25 | positions inside the destination, as documented, are inside the bytes sent |
| StreamLaws.EndOfDestination | faspmanager/stream_reader.go:21-25 | with positions inside the bytes sent the destination ends at most at the running total, and there if and only if the last non-empty block was placed at it |
| StreamLaws.AppendAfterRewriteLeavesHole | faspmanager/stream_reader.go:21-25 | after a rewrite at 0 the block at -1 is sent to offset 4 of a destination that ends at 3, which leaves a zero byte between |
| WireMutex.FrameAtomicity | faspmanager/stream_worker.go:155-201 | for every schedule of any number of goroutines the wire is whole frames followed by a prefix of the mutex holder's frame, and each goroutine's frames are sent in its order, none lost |
| WireMutex.EverythingIsSent | faspmanager/stream_worker.go:155-201 | from every reachable wire some schedule sends all that is left: the mutex is free, the wire is whole frames, and each goroutine's frames among them are its program |
| WireMutex.AnyOrderAnyCut | faspmanager/stream_worker.go:192-201 | any goroutine with a frame may take the free mutex, and a write may take any part of what is left |
| WireMutex.PeerDecodes | faspmanager/transfer_session.go:445-469 | with newline-free paths a peer decodes exactly the frames written so far from any reachable wire |
| JobQueue.JobConservation | faspmanager/stream_worker.go:49-78 | every enqueued job is pending, queued, running, finished or, after the end of the session, dropped; the queue never exceeds 32 |
| JobQueue.WorkersStay | faspmanager/stream_worker.go:49-78 | until the session ends no worker has stopped |
| JobQueue.JobsAreServed | faspmanager/stream_worker.go:49-78 | from every reachable queue of an open session with a worker, serving steps alone finish the worker's job, then the queue in its order, then all jobs that were waiting |
| JobQueue.PushExactly | faspmanager/stream_worker.go:70-78 | the channel takes a job exactly while it holds fewer than 32 |
| JobQueue.ClosedOpensNothing | faspmanager/stream_worker.go:49-66 | once the session is over no worker opens another job |
| JobQueue.ClosedWorkerStops | faspmanager/stream_worker.go:51-60 | a worker that takes a job after the end drops it and stops |
| JobQueue.AnyBlock | faspmanager/stream_worker.go:80-114 | a worker can send any WRITEs between the PUT and the CLOSE of its job |
| JobQueue.JobsAreBlocks | faspmanager/stream_worker.go:49-153 | with one SESSION message the stream frames are uninterrupted blocks PUT WRITE* CLOSE or a failed PUT alone, and jobs are served first in, first out |
| JobQueue.JobsAreBlocksExactly | faspmanager/stream_worker.go:49-153 | all schedules with n SESSION messages give job blocks if and only if n is at most one |
| SharedWire.PeerReadsJobBlocks | faspmanager/stream_worker.go:155-201 | with one SESSION message and API commands in between, the stream frames a peer decodes from any reachable wire are a prefix of the job blocks |
| JobQueue.TwoWorkersInterleave | faspmanager/transfer_session.go:552-555 | with two SESSION messages frames of two jobs can interleave |
| Routing.TerminatedIdStable | faspmanager/manager.go:207-217 | an id read from a terminated line is unchanged by further bytes |
| Routing.IdStableExactly | faspmanager/manager.go:207-217 | the id is final if and only if its line is terminated |
| Routing.IdOfWholeExactly | faspmanager/manager.go:207-217 | the id of the first bytes is that of the whole stream if and only if its line had ended, or nothing or a newline follows |
| Routing.IdOfUserStrLine | faspmanager/manager.go:207-217 | a first UserStr line of the documented form yields the id after it |
| Routing.IdOfFirstLine | faspmanager/manager.go:207-217 | the id is what follows the first nine bytes of the first line that contains the prefix |
| Routing.NoIdExactly | faspmanager/manager.go:207-217 | a text names no session if and only if none of its lines contains the prefix |
| Routing.Handshake | faspmanager/manager.go:140-205 | the text handed over is exactly the bytes read; reading stops with the read that makes it name a session, and without one only when the connection is lost or the polls are used up |
| Routing.Listen | faspmanager/transfer_session.go:471-505 | the blobs fed are exactly the bytes read, the session has received them all, and reading stops only at the end of file or when the polls are used up |
| Routing.DrainConnectExactly | faspmanager/manager.go:191-198 | setting the connection before or after processing the buffered bytes leaves the same session if and only if no SESSION of a stream session without its connection is processed |
| Routing.HandoffIsOneStream | faspmanager/manager.go:191-203 | under that condition handshake blob, connection and listener blobs are one stream into a session that had its connection from the start, and one call if no message but the last errs |
| Routing.ServeConnection | faspmanager/manager.go:140-205 | handshake and listener together: the bytes fed are exactly the bytes read, in order, to the session with that id if there is one and to the new one otherwise, until the connection is lost or the polls are used up; the id is that of the whole connection under the exact condition; a second connection hands over its first bytes only |
| ManagerMap.ManagerInvariant | faspmanager/manager.go:171-200 | over every interleaving keys are their sessions' ids, sessions get messages only after they were added, their connection is set at most once, and a connection whose session is not found goes to a remote session made after the lookup, whose id no earlier session has |
| ManagerMap.CompletedAreRemoved | faspmanager/manager.go:302-307 | with removal on from the beginning no completed session is ever in the map |
| ManagerMap.AddedAreFound | faspmanager/manager.go:557-588 | until Close every added session that is not complete is in the map, and a connection that asks for its id finds it; with removal off complete ones too |
| ManagerMap.StartedIsFindable | faspmanager/manager.go:273-296 | a started session is in the map under its id |
| ManagerMap.RemovalFromThenOn | faspmanager/manager.go:302-307 | switching removal on works from then on |
| ManagerMap.MessageReachesSession | faspmanager/manager.go:191-198 | messages of a connection go to its session and no other, and remove it exactly on completion with removal on |
| ManagerMap.ConnectionIsServed | faspmanager/manager.go:171-200 | a connection asking for a session without a connection ends up listening for it, with its first bytes fed before |
| ManagerMap.StrangerIsServed | faspmanager/manager.go:173-200 | a connection whose id is not found ends up listening for a session of its own |
| Options.ValidateAccepts | faspmanager/transfer_options.go:926-989 | the checks in their order all pass exactly if the options are acceptable |
| Options.Defaults | faspmanager/transfer_options.go:645-701 | the values filled in, as numbers; everything given stays |
| Options.FilledAccepted | faspmanager/transfer_options.go:654-701 | accepted options stay accepted with the defaults, with 0 <= min <= target, both at most 100 under automatic detection, and ports in 1..65535 |
| Options.FilledStable | faspmanager/transfer_options.go:654-701 | filling in the defaults again changes nothing |
| Options.ValidatedBeforeDefaults | faspmanager/transfer_options.go:926-989 | options acceptable with the defaults are rejected exactly if a minimum rate is given without a target rate |
| Options.TagsInjective | faspmanager/transfer_options.go:794-806 | equal tags carry the same transfer id and retry count |
| Options.TransferOptions.GetTargetRateOrSetDefault | faspmanager/transfer_options.go:654-663 | the rate returned and kept is the filled one |
| Options.TransferOptions.GetTransferIdOrSetDefault | faspmanager/transfer_options.go:696-701 | an id is generated once and kept |
| Options.TransferOptions.GetMinRateOrSetDefault | faspmanager/transfer_options.go:665-673 | the minimum rate is never changed, under automatic detection either |
| Options.TransferOptions.GetCommandLineParams | faspmanager/transfer_options.go:715-924 | the arguments are those of the values it leaves behind, and the values are the filled ones |
| Orders.FormatSources | faspmanager/transfer_order.go:123-142 | the list text is one path a line, alternating source and destination in the pair layout |
| Orders.ListDecodes | faspmanager/transfer_order.go:123-142 | the list file decodes back to its paths if and only if none contains a newline |
| Orders.PairsDecode | faspmanager/transfer_order.go:130-134 | in the pair layout sources and destinations are recovered |
| Orders.WriteTransferSourcesFile | faspmanager/transfer_order.go:123-142 | a new file holds the list text and no other file changes |
| Orders.PairFlag | faspmanager/transfer_order.go:97-101 | the list argument is the pair flag exactly in the pair layout |
| Orders.SourcesReadBack | faspmanager/transfer_order.go:97-142 | from the list argument and the list file the sources, and in the pair layout the destinations, are read back if and only if no path contains a newline |
| Orders.OnlyListDiffers | faspmanager/transfer_order.go:43-118 | two command lines from the same options differ in the list argument only |
| Orders.OptionsOrEmpty | faspmanager/manager.go:262-264 | nil options become empty ones, others are used as they are |
| CommandReader.CommandReadBack | faspmanager/transfer_order.go:43-118 | direction, kind of session, host, user, ports, rates and destination are read back from the whole command line, unless an argument of the other options looks like one of their flags |
| Orders.BuildAscpCommandLine | faspmanager/transfer_order.go:43-118 | options are rejected exactly if validation fails; otherwise the command line is that of the filled options, with the mode of its direction before the first -q, the pair flag exactly for the pair layout and a new list file holding the list |
| Orders.FullArgsTell | faspmanager/transfer_session.go:136-144 | the argument list of a process determines its session id, management port, part of the transfer and remaining arguments |
| Orders.NewSession | faspmanager/transfer_session.go:82-124 | the recorded rates and ports are those of the command line |
| Orders.StartProcesses | faspmanager/manager.go:270-297 | options are rejected before any process starts or not at all; the processes before the first that cannot be started, or all n, share options, transfer id, rates and ports with their own part, id, argument list and list file; ids are returned only if all n started |
| Orders.StartTransfer | faspmanager/manager.go:262-297 | nil options are never rejected and stand for the default rates and ports; otherwise the given options are used |

## Left out

- TCP listening, deadlines, environment variables, running ascp, port files and path lookup; which processes cannot be started is a parameter.
- Number forms of `strconv` with a base prefix or underscores; the model reads decimal numbers with an optional sign and the 64-bit bounds.
- Listener callbacks and their registration; an event is appended to a log.
- The cancel commands that closing the manager sends to its sessions.
- Delivery of the exit error of ascp to waiting callers, and the waiting calls themselves.
- Data races on fields that the code reads without a lock; API calls, messages and setManagementConn are atomic steps except in `WireMutex` and `JobQueue`.
- The session statistics are a value in the session object, not a second object; they leave it only as copies.
- The flags of getCommandLineParams and the checks of validate that only append a fixed argument or test one option: kept as fixed argument lists and truth values.
- Options.TagsInjective: the tags are a text of transfer id and retry count, not their JSON and base64 form.
- Random identifiers: an identifier is a counter in decimal.
- addReaderSource and addStreamReaderSource: they refuse sessions without streaming and otherwise make the checks of lock in the same order; what follows is `JobQueue`.
- A reader that never ends: scripts are finite, so the read loops terminate.
- Routing.Handshake: a full buffer without an id makes the loop spin until the manager is closed; a bound on the number of polls stands for that.
- StreamLaws.StreamReassembles: for a chunk size above zero; a negative one makes the allocation panic.
- StreamLaws.EndOfDestination: a negative position other than -1 is sent as it is, and what ascp does with it is not modelled.
- The persistent-order constructors and their field checks, which only test for empty fields.
