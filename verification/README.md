# ProxyChannels: log records from clients to files

ProxyChannels carries log records from many client threads over a TCP byte stream to a server, which puts
them in timestamp order and appends them to files, one per log channel. This project models that path and the
machinery beside it, and proves what each stage keeps and what the stages do together:

| module | part of the system |
|---|---|
| Bytes, Tlv, TlvList, FlapBuilder, FlapParser, LogPackages, OscarLogger, FrameFate, WireFormat | the OSCAR codec: FLAP frame, SNAC, TLVs; building in place, walking back, rebuilding a log package; the wire format byte by byte |
| LogClient, LogClientObject | the client's single writer under many pushing threads |
| Deframer, TcpServerChildren | frames reassembled from a chopped stream (OSCAR and ETF) |
| Transport | client, stream, deframer and adaptor joined |
| Timestamps, StableOrder, Logger, LoggerObject | ordered store, cut-off batches, gated fan-out |
| FileSink, Pipeline | batches into named files; logger and sink joined |
| Sessions, Delivery | everything joined, from a push at the client to the lines of a file |
| TimerThread, TimerRuns, WorkQueue | the timer loop and the work queue of the thread pool |
| LineSplitter, Terminal, TcpWriter | stream lines, the UART writer, the TCP child's writer |
| Wrappers, Seqs, Runs | Option and Result, sequences, runs of a state machine |

State that interleaving threads share is a value with a partial step function, one step per atomic piece of code;
`Runs.Exec` gives the state after any sequence of steps, and the main lemmas are about every such sequence. Code
that updates objects is also given as a class, whose methods are proved to do what the value model says.

The strongest result is `Delivery.AllMessagesAreInTheFile`: whatever the interleaving of threads, the sizes of
reads and writes and the moments of the ticks, when everything is at rest and what the client has pushed on a channel
is a session in the order of time, the session's file has grown by exactly one line for each message, with its
timestamp, tag, severity and text, in the stable order of timestamps, and no other file has changed. A session is a
change-file package, messages and a stop package; the first and the last may be missing, and without the first the file
that is open is meant. The theorem needs a
channel that only this client feeds, a steady clock, arrivals within the logger's delay, no failed write and packages
that can be built. `Sessions.ClientSession` says that the packages of the client's constructor and of its Stop make such
a session. `Delivery.EverythingIsHandled` is about any packages at rest, `Delivery.FromPushToFile` about every earlier
time and about channels that others feed as well.

Each stage is also described without the functions that define its steps: by bytes (`WireFormat`,
`Deframer.FramesAreOnTheWire`), field by field (`FileSink.ReferenceFillsOpenFiles`, `Delivery.ArrivedAreFirstPushed`,
`LineSplitter.LogLineByLine`, `TimerRuns.EveryDuePassCallsIt`), or counted from the events of the run
(`WorkQueue.SpentAllowance`, `Logger.SinkIsGivenExactly`, and the lemmas named `RunTells`).

What the code does that its names or its intent do not suggest, each proved exactly:

- A TLV with the length 65532 makes the parser's counting loop run for ever (`FlapParser.WalkTerminatesIff`), and a
  frame that passes all header checks can hold one (`FlapParser.AcceptedFrameStalls`).
- What the adaptor makes of a frame can depend on the bytes behind it in memory: exactly when the loop, followed on the
  frame alone, comes to a length word that lies behind the frame, or whose first byte ends the frame and is 0xFF
  (`FrameFate.OutcomeDependsOnMemoryIff`). `FrameFate.OutcomeIsMeaningIff` and `FrameFate.LoopEndsIff` say, from the frame
  alone, when the outcome is what the frame means and when the loop ends.
- A package whose texts are too long for a frame leaves the client's in-progress flag set: nothing is sent any more
  (`LogClient.StuckExactlyWhen`, `LogClient.StuckIsReached`, `LogClient.StuckForever`,
  `LogPackages.EncodeFailsExactlyWhen`). When it is the I/O thread that takes such a package, the process ends.
- A container of more than 65535 bytes is written with a wrapped length (`Tlv.ItemsRoundTrip`).
- The logger's delay is named in milliseconds and applied in microseconds (`Logger.PunctualMeans`).
- A file sink drops the rest of a batch behind a stop record. The files show it exactly when a change-file record is
  among what is dropped and the channel's next record is a message (`FileSink.BatchesRefineReferenceIff`).
- The TCP child sends the newest waiting message and drops the oldest (`TcpWriter.FifoIffNewestIsOldest`). Different
  messages go out in order exactly when two never waited at once (`TcpWriter.DistinctFifoIffNeverCrowded`).
- A one-shot timer that is overdue when it is taken over is never called (`TimerThread.OneShotCalledIff`), and a
  periodic one may lose its phase (`TimerThread.LateJobKeepsPhaseIff`).
- One short work unit alone never gets a thread (`WorkQueue.NoThreadForQueuedWorkIff`).

The UART writer has a latent fault that no run of the program shows: taken alone, DoWrite would hang the port on an empty
message that comes while the port is down (`Terminal.EmptyMessageHangsThePort`, `Terminal.HangsExactlyWhen`). No sender
makes one: a completed read holds at least one byte, an emitted frame its header (`Deframer.EmittedAreOnTheWire`), the
console guards against it, and the line-end replacement empties no message (`Terminal.ReplacementNotEmpty`). So no port
hangs (`Terminal.NoEmptyMessageNoHang`).

## Model

| member | source | states |
|---|---|---|
| Bytes.PackRoundTrip | oscar/tlv.h:64-75 | every signed or unsigned integer of every width survives big-endian storing and loading |
| Bytes.UnpackRoundTrip | oscar/tlv.h:228-235 | loading gives a value in the type's range, and every byte pattern is the storage of the value it loads as |
| Tlv.CalcSizeIsExact | oscar/tlv.h:176-196 | the size reserved for a value is header plus the bytes it stores |
| Tlv.Copy | oscar/tlv.h:32-46 | a store changes its own bytes and nothing else |
| Tlv.StoreItems | oscar/tlv.h:89-101 | a container's elements are stored one after another, nothing outside is touched |
| Tlv.StoreDataArray | oscar/tlv.h:111-123 | the loop with the 16-bit byte count stores the first elements that reach that count, all of them within the bound asserted by create |
| Tlv.StoreHeader | oscar/tlv.h:32-56 | type and low 16 bits of the length, nothing else touched |
| Tlv.StoreData | oscar/tlv.h:64-107 | the data of a value of any of the three forms, nothing else touched |
| Tlv.Create | oscar/tlv.h:128-134 | creating a TLV in memory writes type, 16-bit length and data, and nothing outside the TLV |
| Tlv.CreateArray | oscar/tlv.h:137-147 | the same for a C array below the asserted count |
| Tlv.GetItems | oscar/tlv.h:254-267 | the reading loop returns the elements that start below the length word |
| Tlv.SizeReadsBack | oscar/tlv.h:167-172 | the 16-bit size read back is the size reserved exactly when that is at most 65535 |
| Tlv.TooManyItems | oscar/tlv.h:48-53 | with a wrapped length word fewer elements are read than were written |
| Tlv.ItemsRoundTrip | oscar/tlv.h:281-295 | create then get_array or get_value is the identity exactly when the bytes fit the 16-bit length |
| TlvList.ParseOfBody | oscar/flap_parser.h:31-54 | TLVs laid end to end have only themselves as their reading |
| TlvList.BodyOfParse | oscar/flap_parser.h:31-54 | whatever reads as TLVs is, byte for byte, these TLVs |
| FlapBuilder.ComputeSize | oscar/snac.h:75-83 | the summed size is accepted exactly up to 65535, otherwise the overflow error |
| FlapBuilder.FillHeader | oscar/snac.h:85-98 | the SNAC header in place, pointer behind it |
| FlapBuilder.StoreAllData | oscar/snac.h:100-117 | the TLVs lie end to end and the moving pointer stops right behind the last one |
| FlapBuilder.StoreFlapHeader | oscar/flap_builder.h:40-47 | mark, channel, sequence number and SNAC size in front of the SNAC, nothing else touched |
| FlapBuilder.MakeFlapPackage | oscar/flap_builder.h:39-65 | the whole frame built in place, or the overflow error; the pointer ends at the end of the buffer |
| FlapBuilder.NoWrapOnBuiltBodies | oscar/snac.h:51-60 | within the builder's limit every TLV's type and size read back as reserved, TLVs follow without gap, the last ends at the end |
| FlapParser.TlvIterator.Advance | oscar/flap_parser.h:42-54 | one iterator step, with the exception exactly when the next TLV would pass the end |
| FlapParser.CalcTlvCount | oscar/flap_parser.cpp:27-32 | where the loop ends it returns the verdict and count of the walk |
| FlapParser.WalkTerminatesIff | oscar/flap_parser.h:42-54 | the loop ends exactly when no visited TLV has the length 65532, whose 16-bit size is 0 |
| FlapParser.AcceptedFrameStalls | oscar/flap_parser.cpp:13-32 | a concrete frame that passes the header checks and on which the loop never ends, whatever lies behind it |
| FlapParser.WalkFollowsGrammar | oscar/flap_parser.cpp:27-32 | without wrapping steps the walk accepts what the TLV grammar accepts, with the same count |
| FlapParser.WalkVisitsTheTiling | oscar/flap_parser.h:86-95 | the walk accepts exactly when TLVs tile the body; the tiling is unique and its length is the count |
| FlapParser.VisitsTileStarts | oscar/flap_parser.h:42-54 | the places visited are the starts of the tiles, in order, then the end |
| FlapParser.ParsedBodiesDoNotWrap | oscar/flap_parser.h:100 | a body of a 16-bit size that parses has no step that wraps |
| LogPackages.BuildFrame | logclient/logclient.cpp:213-229 | each command's frame with its channel, service, subtype and TLVs, or the exception |
| LogPackages.EncodeFailsExactlyWhen | oscar/snac.h:75-83 | building fails exactly for an unknown command or texts over 65483 (message) or 65488 (new file) bytes together |
| OscarLogger.BuiltFrameParses | oscar/flap_parser.h:78-84 | a built frame passes the parser's checks and shows the channel, service, subtype and TLVs it was built from |
| OscarLogger.BuiltFrameCounts | oscar/flap_parser.cpp:27-32 | the counting loop accepts a built frame with the right count, whatever bytes lie behind it |
| OscarLogger.FlapRoundTrip | proxy/oscar_logger_adapter.cpp:33-83 | under the grammar every package that can be built is decoded to exactly the fields its command carries |
| OscarLogger.FlapRoundTripInMemory | proxy/oscar_logger_adapter.cpp:33-83 | and so does DoLog decode it, whatever bytes lie behind the frame |
| OscarLogger.MemoryDoesNotMatter | proxy/oscar_logger_adapter.cpp:33-83 | with visited lengths below 65532 the outcome is what the frame means under the grammar, whatever lies behind it |
| OscarLogger.AcceptedStep | oscar/flap_parser.h:42-54 | in an accepted walk every place lies before the end and one step behind the last one |
| OscarLogger.Get | proxy/oscar_logger_adapter.cpp:44-49 | the value read at the iterator is the data of the TLV at that place of the walk, when it lies in the frame |
| OscarLogger.GetAndStep | proxy/oscar_logger_adapter.cpp:44-48 | reading and stepping goes through the places of an accepted walk |
| OscarLogger.ReadMessage | proxy/oscar_logger_adapter.cpp:41-54 | a message package from its six values by position |
| OscarLogger.ReadNewFile | proxy/oscar_logger_adapter.cpp:60-68 | a new-file package from its five values by position |
| OscarLogger.ReadStop | proxy/oscar_logger_adapter.cpp:69-75 | a stop package from its three values by position |
| OscarLogger.DoLog | proxy/oscar_logger_adapter.cpp:33-83 | wherever the counting loop ends, the adaptor's outcome from the frame and the memory behind it; with visited lengths below 65532 it is what the frame means |
| FrameFate.LoopIsFate | oscar/flap_parser.h:31-54 | unless exposed, the loop completes, overruns or stalls as the frame alone says, whatever lies behind |
| FrameFate.OutcomeIsFate | proxy/oscar_logger_adapter.cpp:33-83 | and so DoLog makes the same of the frame |
| FrameFate.ExposedIsOpen | oscar/flap_parser.h:42-54 | behind an exposed frame one memory makes the parser accept, one refuse and one loop for ever |
| FrameFate.OutcomeDependsOnMemoryIff | proxy/oscar_logger_adapter.cpp:33-83 | the outcome depends on the bytes behind the frame exactly when the frame is exposed |
| FrameFate.LoopEndsIff | oscar/flap_parser.cpp:27-32 | the counting loop ends, whatever lies behind, exactly when it completes or overruns on the frame |
| FrameFate.OutcomeIsMeaningIff | proxy/oscar_logger_adapter.cpp:33-83 | DoLog does what the frame means, whatever lies behind, exactly when its body is a list of TLVs or the loop overruns on it |
| FrameFate.CutIsExposed | oscar/flap_parser.cpp:13-24 | a concrete exposed frame that passes the header checks |
| FrameFate.VerdictDependsOnBeyond | oscar/flap_parser.h:42-54 | it is accepted or refused by the two bytes behind it |
| WireFormat.FramesByteByByte | oscar/proto.h:10-85 | every frame that is built, byte by byte: mark 0x2A, channel, sequence number 0, size, service, subtype, flags 0xFFFF, request id, and the TLVs with their type numbers in the order of the package kind |
| WireFormat.HeaderAcceptedIff | oscar/flap_parser.cpp:13-24 | the parser's checks pass exactly for mark 0x2A, channel 0 or 1 and at least as many bytes as the size word says |
| WireFormat.WhatAFrameMeans | proxy/oscar_logger_adapter.cpp:33-83 | any well-formed frame is logged as exactly the record whose fields its TLVs hold in their places; other control services are ignored, and only a missing TLV or one of the wrong size is undefined |
| Deframer.FramesOfPrefix | proxy/tcpserver_child.cpp:223-229 | frames have one reading: a stream of frames that begins another one consists of its first frames |
| Deframer.LegalReadsAreHandled | proxy/tcpserver_child.cpp:212-241 | every completion within the read contract stays inside the buffer and is handled |
| Deframer.FramesAreOnTheWire | proxy/actor.h:10-17 | the frames taken apart are exactly the records of the wire format: an OSCAR size with the high byte first, an ETF size below 2^32 with the low byte first |
| Deframer.HeaderAsksForBody | proxy/tcpserver_child.cpp:312-326 | the header whose bytes announce n makes the child ask for exactly n body bytes behind it; an ETF record without a body is out at once |
| Deframer.ReadsAskedFor | proxy/tcpserver_child.cpp:301-361 | over every run, what the child asks the socket for: what there is at first, a begun header's rest, 6 bytes for a next header of either protocol, and the announced body |
| Deframer.StepKeepsInv | proxy/tcpserver_child.cpp:212-266 | every completion keeps: emitted frames plus filled buffer are the bytes consumed |
| Deframer.RunKeepsInv | proxy/tcpserver_child.cpp:301-361 | so over every run, for both protocols |
| Deframer.DeframingTheorem | proxy/tcpserver_child.cpp:212-266 | on records of the wire format (given by their bytes), whatever the read sizes: a prefix of the frames is out, all of them once all bytes are consumed, and the child is never destroyed without an error |
| Deframer.RecordComesOut | proxy/tcpserver_child.cpp:301-361 | a single record given by its bytes, cut anywhere and delivered without an error, is emitted whole and alone |
| Deframer.RunTells | proxy/tcpserver_child.cpp:212-266 | over every run no byte delivered is passed over, and a child has failed exactly when an error was reported |
| Deframer.EmittedAreOnTheWire | proxy/tcpserver_child.cpp:255-259 | every emitted frame, of any stream, is a record of the wire format, so none is empty |
| Deframer.SegmentationDoesNotMatter | proxy/tcpserver_child.cpp:301-361 | two runs that consumed the same bytes of any stream have emitted the same frames |
| Deframer.ShortBodyReadCorruptsTheFrame | proxy/tcpserver_child.cpp:249-252 | outside the read contract the partial-body branch stores at the wrong offset and the frame is corrupted |
| TcpServerChildren.OscarChild.constructor | proxy/tcpserver_child.cpp:197-209 | the child starts with a header-sized buffer and a pending read |
| TcpServerChildren.OscarChild.ReadHandler | proxy/tcpserver_child.cpp:212-241 | the header handler's whole new state |
| TcpServerChildren.OscarChild.ReadDataHandler | proxy/tcpserver_child.cpp:244-266 | the body handler's whole new state |
| TcpServerChildren.OscarChild.Complete | proxy/tcpserver_child.cpp:212-266 | a completed read is one step of the deframer's value model |
| TcpServerChildren.EtfChild.constructor | proxy/tcpserver_child.cpp:269-288 | a change-file record for prefix "Log" and suffix "rpc" is logged on channel 3, and the child starts with the configured 12-byte buffer and a pending read |
| TcpServerChildren.EtfChild.ReadHandler | proxy/tcpserver_child.cpp:301-338 | the header handler's whole new state, with a body of size 0 handled at once; a header that announces n, low byte first, makes it ask for n bytes |
| TcpServerChildren.EtfChild.ReadDataHandler | proxy/tcpserver_child.cpp:339-361 | the body handler's whole new state; the next header is asked for in two reads of 6 |
| TcpServerChildren.EtfChild.Complete | proxy/tcpserver_child.cpp:301-361 | a completed read is one step of the deframer's value model |
| TcpServerChildren.EtfChild.Destroy | proxy/tcpserver_child.cpp:291-298 | a stop record is logged on channel 3 |
| LogClient.StepKeepsInv | logclient/logclient.cpp:177-237 | every atomic step of every thread keeps the writer's invariant |
| LogClient.RunKeepsInv | logclient/logclient.cpp:96-110 | so over every interleaving |
| LogClient.WriterTheorem | logclient/logclient.cpp:177-237 | FIFO, and the wire is the finished frames plus the first transferred bytes of the current one |
| LogClient.NoWriteIsReplaced | logclient/logclient.cpp:206-234 | at most one write: until the outstanding one completes, no step starts another or touches its buffer |
| LogClient.NothingStranded | logclient/logclient.cpp:189-195 | with packages queued, a write is outstanding or some thread still owes a call, unless a write failed or a package got stuck |
| LogClient.AtRestAllIsSent | logclient/logclient.cpp:203-237 | at rest everything accepted is on the wire, whole and in order |
| LogClient.StuckExactlyWhen | logclient/logclient.cpp:209-216 | the client gets stuck exactly when it has taken a package whose frame cannot be built |
| LogClient.StuckIsReached | logclient/logclient.cpp:96-110 | one push of a package with an unknown command or with too long texts is enough |
| LogClient.StuckForever | logclient/logclient.cpp:206-211 | from then on nothing is sent, whatever happens |
| LogClient.RunTells | logclient/logclient.cpp:96-110 | over every run, counted from its events: when packages are taken, which ones and in which order, how many bytes are on the wire, and request ids 0, 1, 2 and so on |
| LogClient.AcceptedIff | logclient/logclient.cpp:96-110 | a thread gets past the checks exactly when no stop was asked for and no write has failed |
| LogClient.EndsExactlyWhen | logclient/logclient.cpp:181-201 | the process ends exactly when the I/O thread takes a package whose frame cannot be built |
| LogClientObject.LockQueue.Push | utils/lockqueue.h:23-28 | the value is behind all others |
| LogClientObject.LockQueue.Pop | utils/lockqueue.h:30-41 | the oldest value leaves |
| LogClientObject.LockQueue.PopTry | utils/lockqueue.h:43-60 | with timeout 0: the oldest value leaves, or none when empty |
| LogClientObject.Client.Build | logclient/logclient.cpp:211-229 | the flag is set and a request id is used up before the frame is there, or the exception |
| LogClientObject.Client.StartFrame | logclient/logclient.cpp:211-234 | the taken package's frame becomes the outstanding write, or the client is left stuck |
| LogClientObject.Client.WriteNextMessage | logclient/logclient.cpp:203-237 | the locked step of the value model, and when it throws |
| LogClientObject.Client.Push | logclient/logclient.cpp:96-110 | accepting, queueing and trying to write, or nothing when stopping or not in server mode; and when the exception reaches the caller |
| LogClientObject.Client.GoOn | logclient/logclient.cpp:181-195 | the rest is rewritten, or the flag is cleared and the next package tried; and when the exception leaves the I/O thread |
| LogClientObject.Client.WriteHandler | logclient/logclient.cpp:177-201 | completion with or without error, whole new state, and when it throws |
| Transport.StepKeepsInv | proxy/tcpserver_child.cpp:212-266 | client and child keep their invariants and the child never reads ahead of the wire |
| Transport.EmittedAreFirstSent | proxy/tcpserver_child.cpp:255-259 | the frames emitted are the first frames the client built |
| Transport.EndToEnd | proxy/oscar_logger_adapter.cpp:33-83 | in every run, failures included, and whatever lies behind the frames in memory, the packages logged are the first ones pushed, in order, agreeing field by field |
| Transport.EndToEndComplete | logclient/logclient.cpp:203-237 | with both sides at rest, no write failed and every pushed package buildable, everything pushed is logged |
| Timestamps.TimestampAdjust | utils/timestamp.cpp:15-33 | the truncating computation gives the shifted normalised timestamp, after at most one correction |
| Timestamps.SplitAvoidsOverflow | utils/timestamp.cpp:19-22 | splitting the seconds keeps every intermediate value in 64 bits, for seconds far beyond a 64-bit count of microseconds |
| Timestamps.AdjustShiftsExactly | utils/timestamp.cpp:15-33 | the total in microseconds changes by exactly the shift and the microseconds land in 0..999999; a shift by 0 changes nothing |
| Timestamps.OrderIsIntegerOrder | utils/logbuilder.h:53-61 | on normalised timestamps the comparator is the order of the totals |
| Timestamps.AdjustKeepsOrder | utils/timestamp.cpp:15-33 | a shift preserves and reflects the comparator's order |
| Timestamps.LessIsTotalOrder | utils/logbuilder.h:53-61 | the comparator is a strict total order on all timestamps |
| StableOrder.UpperBoundSplits | proxy/logger.cpp:152 | upper_bound separates the records not after a time from those after it |
| StableOrder.InsertKeepsSorted | proxy/logger.cpp:129 | insertion keeps the store sorted |
| StableOrder.InsertIsStable | proxy/logger.cpp:129 | insertion puts a record behind its equals and reorders nothing |
| StableOrder.StableSortIsStable | utils/logbuilder.h:73-79 | inserting one by one gives a sorted sequence with equal timestamps in push order |
| StableOrder.StableSortIsUnique | utils/logbuilder.h:73-79 | and no other sequence has these two properties |
| Logger.Interested | proxy/logger.cpp:160-166 | exactly the sinks whose channel occurs in the batch, each once, in order |
| Logger.StepConserves | proxy/logger.cpp:124-156 | every step keeps store plus batches equal to the accepted records, and the store sorted |
| Logger.StepKeepsOrdered | proxy/logger.cpp:143-156 | every step keeps extracted records at or before the present cut-off, under a steady clock and punctual pushes |
| Logger.StepKeepsGated | proxy/logger.cpp:145-171 | every step keeps the counter, the one batch in flight and each sink's ledger |
| Logger.OutputIsSorted | proxy/logger.cpp:124-156 | when no tick of the run sets the clock back and every push comes within 2500 microseconds, all batches together, then the store, are the stable sort of the records pushed |
| Logger.RunTells | proxy/logger.cpp:124-149 | over every run the accepted records are those pushed on a channel other than -1, and clock and assumptions are what the run's ticks and pushes say |
| Logger.PunctualMeans | proxy/logger.cpp:21 | punctual is at most 2500 microseconds late |
| Logger.PushKeepsOutputSortedIff | proxy/logger.cpp:124-130 | without these assumptions a push keeps the output sorted exactly when the record is not before the last one out |
| Logger.ExtractTakesExactlyTheDue | proxy/logger.cpp:151-158 | a batch takes exactly the records not after the cut-off |
| Logger.NothingLostOrDoubled | proxy/logger.cpp:154-156 | each accepted record is in the store or in exactly one batch |
| Logger.OneBatchInFlight | proxy/sink.cpp:54-73 | the counter is the number of unfinished jobs, all of the last batch and of different sinks, none when the next batch is cut |
| Logger.DueHoldsAll | proxy/logger.cpp:160-172 | the batches dispatched to a channel hold all its records, in order |
| Logger.SinkSeesItsRecords | proxy/logger.cpp:160-172 | each sink has been given its channel's extracted records, all once, in batch order |
| Logger.DueIs | proxy/logger.cpp:160-166 | due to a channel are exactly the batches with a record of it, each once, in order |
| Logger.SinkIsGivenExactly | proxy/logger.cpp:160-173 | over every run a sink for which no job waits has written exactly the batches in which its channel occurs, each once, in order |
| LoggerObject.CLogger.Push | proxy/logger.cpp:124-135 | a record of a known channel is inserted, others are skipped |
| LoggerObject.CLogger.FindChannel | proxy/logger.cpp:162-165 | true exactly when the channel occurs in the batch |
| LoggerObject.CLogger.FindUpperBound | proxy/logger.cpp:152 | the place of upper_bound |
| LoggerObject.CLogger.QueueJob | proxy/logger.cpp:162-171 | one counted job for an interested sink |
| LoggerObject.CLogger.QueueJobs | proxy/logger.cpp:160-173 | one counted job for each interested sink, in order |
| LoggerObject.CLogger.LogMultiplexer | proxy/logger.cpp:143-176 | one whole invocation: whole new state |
| LoggerObject.CLogger.WriteFinished | proxy/sink.cpp:69-73 | the end of a Write job |
| LoggerObject.MultiplexedIsARun | proxy/logger.cpp:143-176 | an uninterrupted invocation is one of the interleavings of the step model |
| LoggerObject.MultiplexerTakesAllDue | proxy/logger.cpp:145-156 | with no job unfinished nothing due stays behind; otherwise nothing happens |
| FileSink.ChannelsHaveTheirOwnFiles | proxy/sink.cpp:134-159 | with the same prefix, suffix and time two channels never get the same file name |
| FileSink.PartsOfFileName | proxy/sink.cpp:134-159 | the prefix first, then time and channel, the suffix before the extension, set off by underscores, and no underscore for a missing affix |
| FileSink.ChannelTextIsDecimal | proxy/sink.cpp:151 | the channel in a file name reads back as its number, without leading zeros |
| FileSink.CFileSink.constructor | proxy/sink.cpp:101-114 | the configured channel, prefix and suffix, a closed stream, and a file name unless the channel is opened by demand |
| FileSink.CFileSink.OpenStream | proxy/sink.cpp:219-225 | the stream opens on the current name unless it is open or there is no name |
| FileSink.CFileSink.WriteMessage | proxy/sink.cpp:163-169 | the current file gains one line with the message's timestamp, tag, severity and text, no other file changes, and nothing happens when there is none |
| FileSink.CFileSink.ChangeFile | proxy/sink.cpp:193-202 | prefix, suffix and name change and the stream follows |
| FileSink.CFileSink.Write | proxy/sink.cpp:161-217 | a batch does what its records one by one up to the first stop would do: each file gains, field by field, the messages that come while it is open |
| FileSink.BatchSplits | proxy/sink.cpp:182-187 | a batch is what is handled and what is dropped, and behind a stop no file is open |
| FileSink.ClosedStaysClosed | proxy/sink.cpp:182-187 | with no file name and no change-file record, records change nothing |
| FileSink.SameFilesIff | proxy/sink.cpp:161-217 | from any two places of sink and reference: the files agree at the end exactly when no message is next for a file that the reference alone has open and no dropped record is missed |
| FileSink.WriteAllIsReference | proxy/sink.cpp:161-217 | when no change-file record is dropped, the whole sink ends as the record-by-record reference does |
| FileSink.BatchesRefineReferenceIff | proxy/sink.cpp:171-214 | all files are as the reference leaves them exactly when no dropped change-file record is followed by a message as the next record of the channel, in its batch or later |
| FileSink.SplitDoesNotMatter | proxy/sink.cpp:171-214 | then the same records split differently fill the files alike |
| FileSink.NoRestartNothingMissed | proxy/sink.cpp:182-202 | where no change-file record comes after a stop, nothing is missed |
| FileSink.TextsAreAppended | proxy/sink.cpp:163-169 | without control records the open file gains one line for each message, in order and field by field, and no other file changes |
| FileSink.ReferenceFillsOpenFiles | proxy/sink.cpp:171-214 | handled one by one, records make every file gain, field by field and in order, exactly the channel's messages before which the last control record of the channel, obeyed above channel 0 only, has left it open |
| FileSink.MessageAfterRestartIsLost | proxy/sink.cpp:211-212 | in the excluded case a message reaches no file |
| Pipeline.OtherChannelsDoNothing | proxy/sink.cpp:175 | records of other channels leave a sink alone |
| Pipeline.DueHoldsAllRecords | proxy/logger.cpp:160-172 | the batches given to a channel's sink hold all records of the channel, in order |
| Pipeline.ChannelOfSorted | utils/logbuilder.h:73-79 | sorting everything and taking a channel is sorting what the channel got |
| Pipeline.FilesHoldTheSortedRecordsIff | proxy/logger.cpp:143-176 | after any run a sink's files are as if its channel's records had been handled one by one, exactly when no dropped record is missed; and these records are the first of the stable sort of the channel's accepted ones, all of them when the store is empty |
| Delivery.Parts | proxy/log_channel.cpp:54-69 | every run of the whole is a run of client, stream and deframer and a run of the logger |
| Delivery.StepKeepsInv | proxy/log_channel.cpp:54-69 | every step keeps: what the adaptor pushed are the decoded frames, and a channel that only it feeds has accepted just these |
| Delivery.ArrivedAreFirstPushed | proxy/log_channel.cpp:54-69 | what arrives at the logger are the first packages pushed at the client, in order, equal field by field in what their command carries, on their own channels, or on the adaptor's when they have none (-1) |
| Delivery.ForChannelIsRouted | proxy/log_channel.cpp:64-67 | the packages routed to a channel are those that name it and, on the adaptor's own log channel, those that name none |
| Delivery.FromPushToFile | proxy/sink.cpp:161-217 | in every run: a sink's files against the reference on its channel's records, these against the stable sort of what the channel has accepted, and that as a merge of arrivals and the server's own records |
| Sessions.ClientSession | logclient/logclient.cpp:239-257 | a change-file package, messages and a stop package, pushed in their time, are a session, and sorting keeps its ends |
| Sessions.SessionSorted | utils/logbuilder.h:73-79 | the stable sort of a session is a session with the same opening package |
| Sessions.SessionFills | proxy/sink.cpp:161-217 | a session fills its file with one line for each message, in order and field by field, and changes no other file |
| Sessions.SessionNeverRestarts | proxy/sink.cpp:182-202 | in a session no change-file record comes after a stop |
| Delivery.SessionReachesTheFile | proxy/sink.cpp:161-217 | in every run in which the channel has accepted a session: its file has gained, field by field, the messages among the first packages of the session in the order of time |
| Delivery.AcceptedArePushed | proxy/log_channel.cpp:54-69 | a channel that the adaptor alone feeds has accepted the first packages pushed for it, by name or without one, equal in what they carry |
| Delivery.MessagesReachTheFile | logclient/logclient.cpp:59-62 | the same from the client's side, with the file that its change-file package names |
| Delivery.EverythingIsHandled | proxy/sink.cpp:161-217 | at rest, for any packages: all have arrived, the sink has handled the stable sort of all its channel's records, and the files are the reference's exactly when no dropped record is missed |
| Delivery.AllMessagesAreInTheFile | logclient/logclient.cpp:239-257 | at rest, when the packages pushed for the channel are a session: its file has gained exactly one line for each message, field by field, in the stable order of timestamps, and no other file has changed |
| TimerThread.NextPointIsLeast | proxy/thread_pool.cpp:106 | missed periods coalesce to the least later point of the same phase |
| TimerThread.PutBack | proxy/thread_pool.cpp:104-109 | a due job that asks for more goes back as the same timer, with its period and callback, at the least later point of its phase |
| TimerThread.LateJobKeepsPhaseIff | proxy/thread_pool.cpp:79-95 | a periodic job that is overdue when taken over keeps its phase exactly when one period brings it past the present or the present is one of its points |
| TimerThread.PassServesPending | proxy/thread_pool.cpp:100-110 | a pass calls a pending job that is due and keeps one that is not |
| TimerThread.DiscardedIsNeverCalled | proxy/thread_pool.cpp:79-95 | a job without a callback, or a one-shot job that is overdue when taken over, is called in no run |
| TimerThread.OneShotCalledIff | proxy/thread_pool.cpp:73-110 | over every run: a one-shot job has been called, once a pass has come at or after its point, exactly when it was not overdue when taken over |
| TimerThread.FlatMapPermuted | proxy/thread_pool.cpp:96 | what a pass does depends on the jobs only as a multiset, however the sort orders ties |
| TimerThread.TimerPool.SetTimer | proxy/thread_pool.cpp:120-130 | a new timer is queued behind the others |
| TimerThread.TimerPool.Sort | proxy/thread_pool.cpp:108 | sorted by time point, the same jobs |
| TimerThread.TimerPool.Coalesce | proxy/thread_pool.cpp:106 | the do-while loop computes the next point and ends |
| TimerThread.TimerPool.AdmitFirst | proxy/thread_pool.cpp:73-98 | one new job is taken over, moved on or discarded; the queue stays sorted |
| TimerThread.TimerPool.Reschedule | proxy/thread_pool.cpp:104-109 | a job that asks for it and has a period goes back, sorted in: same id, period and callback, whole periods on, past the present by at most one period; otherwise nothing changes |
| TimerThread.TimerPool.CallFront | proxy/thread_pool.cpp:102-109 | the first due job is called and put back or dropped |
| TimerThread.TimerPool.RunDue | proxy/thread_pool.cpp:100-110 | the loop ends; the due jobs are called once each, in the order of their points |
| TimerThread.TimerPool.RunPass | proxy/thread_pool.cpp:51-112 | one iteration of the thread: calls, new pending queue and its order, as the TimerRuns lemmas read it |
| TimerThread.PendingIsFuture | proxy/thread_pool.cpp:100-110 | after a pass every pending job is strictly in the future |
| TimerThread.PassKeepsHistory | proxy/thread_pool.cpp:51-112 | a pass keeps the history of calls in order |
| TimerThread.RunKeepsHistory | proxy/thread_pool.cpp:51-112 | over every run: no call before its time, none after a false or of a one-shot again, no job twice in a pass |
| TimerRuns.PutBackOverAPass | proxy/thread_pool.cpp:100-110 | after a pass in which a due periodic job asked for more, exactly one job with its id is pending: the same timer at the least later point of its phase |
| TimerRuns.TakenOverInARun | proxy/thread_pool.cpp:73-98 | over every run the job taken over is pending alone under its id, with its period and callback, at its own point, one period on, or a period from now |
| TimerRuns.PeriodicGoesOn | proxy/thread_pool.cpp:100-110 | over every run a periodic job stays pending, as the same timer, for as long as its callback asks for more |
| TimerRuns.EveryDuePassCallsIt | proxy/thread_pool.cpp:100-110 | and every pass at or after its present point calls it at the time of the pass, and puts it back when it asks for more |
| WorkQueue.RunKeepsInv | proxy/thread_pool.cpp:133-189 | the accounting invariant holds in every reachable state |
| WorkQueue.Accounting | proxy/thread_pool.cpp:133-176 | threads are long submissions plus the spent allowance; units start in submission order, each at most once |
| WorkQueue.SpentAllowance | proxy/thread_pool.cpp:133-151 | over every run, counted from its events: the spent allowance is the number of short submissions that found the queue nonempty, up to the hardware concurrency (or 3), and the threads are these and the long submissions |
| WorkQueue.EachSubmission | proxy/thread_pool.cpp:138-148 | a submission adds one idle thread exactly when it is long, or finds the queue nonempty with allowance left by that count |
| WorkQueue.WorkerRunsWhatItTook | proxy/thread_pool.cpp:162-181 | over every run a worker is busy exactly from a take until it finishes, and the k-th take gets the k-th unit submitted |
| WorkQueue.AllowanceStaysSpent | proxy/thread_pool.cpp:142-146 | a short unit queued behind another spends allowance for good |
| WorkQueue.ShortUnitsKeepAWorker | proxy/thread_pool.cpp:138-146 | from then on some worker runs no long unit, however the units are taken |
| WorkQueue.NoThreadForQueuedWorkIff | proxy/thread_pool.cpp:142-148 | queued work has no thread at all exactly when one short unit is all that was submitted |
| WorkQueue.ThreadPool.constructor | proxy/thread_pool.cpp:16-25 | the allowance is the hardware concurrency, or 3 |
| WorkQueue.ThreadPool.SetWorkUnit | proxy/thread_pool.cpp:133-151 | queue, threads and allowance after a submission: one more thread for a long unit, or for a short one that finds the queue nonempty with allowance left |
| WorkQueue.ThreadPool.TakeUnit | proxy/thread_pool.cpp:162-176 | the oldest unit goes to the worker |
| LineSplitter.TrimRight | proxy/stream_logger_adapter.cpp:51 | the longest prefix that does not end in white space |
| LineSplitter.LinesAppend | proxy/stream_logger_adapter.cpp:59-81 | the log of a longer stream continues from the unterminated tail |
| LineSplitter.LinesCoverTheStream | proxy/stream_logger_adapter.cpp:47-81 | complete lines and tail make up the stream, and the log is what the lines emit one by one |
| LineSplitter.LogLineByLine | proxy/stream_logger_adapter.cpp:47-81 | one entry for each complete line that is not blank, in order: its bytes before the trailing white space (CR included), and the arrival time of its first byte |
| LineSplitter.CuttingDoesNotMatter | proxy/stream_logger_adapter.cpp:40-83 | however the bytes are cut and whenever they arrive, the texts are the trimmed nonempty lines of the stream |
| LineSplitter.StreamLoggerAdaptor.LogString | proxy/stream_logger_adapter.cpp:47-57 | the first line leaves the buffer and is logged when not blank |
| LineSplitter.StreamLoggerAdaptor.TakeIn | proxy/stream_logger_adapter.cpp:59-74 | a chunk joins the buffer; a line it ends goes out with the older time |
| LineSplitter.StreamLoggerAdaptor.DoLog | proxy/stream_logger_adapter.cpp:40-83 | the log so far is the log of the whole stream seen, the buffer its tail, the time the arrival of the tail's first byte |
| Terminal.ReplacementRemovesCr | proxy/terminal.cpp:188 | the replacement removes exactly the CRs that stand before an LF |
| Terminal.StepKeepsInv | proxy/terminal.cpp:185-235 | every write, completion, failure and reopening keeps the writer's invariant |
| Terminal.WriterTheorem | proxy/terminal.cpp:185-235 | acknowledged plus queued bytes are the messages after replacement, the byte in flight is the first unacknowledged one, and on a working port none waits unstarted unless the port hangs |
| Terminal.HangsExactlyWhen | proxy/terminal.cpp:93-97 | the port starts to hang exactly when it is opened with nothing queued and the flag set |
| Terminal.FlagWithoutBytesExactlyWhen | proxy/terminal.cpp:194-198 | and that comes about exactly by an empty message while the port is down and nothing is queued |
| Terminal.HangsUntilDown | proxy/terminal.cpp:194-198 | a hanging port writes nothing until it goes down |
| Terminal.ReplacementNotEmpty | proxy/terminal.cpp:188 | the replacement makes an empty message of none but the empty one |
| Terminal.NoEmptyMessageNoHang | proxy/terminal.cpp:185-235 | over every run without empty messages no port hangs |
| Terminal.EmptyMessageHangsThePort | proxy/terminal.cpp:185-199 | of DoWrite taken alone: a run with an empty message, after which a message is queued and never written |
| Terminal.BytesLeaveOnCompletion | proxy/terminal.cpp:216-219 | a byte leaves only on its own successful completion |
| Terminal.ReopenResumes | proxy/terminal.cpp:93-99 | a reopening resumes at the first unacknowledged byte |
| Terminal.DownEndsAHang | proxy/terminal.cpp:85-111 | in whatever state, a port that goes down and is opened again does not hang and resumes at the first unacknowledged byte |
| Terminal.RunTells | proxy/terminal.cpp:185-199 | over every run no message is lost, whether the port is up or down |
| Terminal.UartClient.ReplaceAll | proxy/terminal.cpp:188 | one left-to-right pass of the replacement |
| Terminal.UartClient.DoWrite | proxy/terminal.cpp:185-199 | the message is queued and, when idle, writing starts |
| Terminal.UartClient.WriteComplete | proxy/terminal.cpp:212-235 | whole new state after a completion; nothing while the port is down |
| Terminal.UartClient.SetupAsync | proxy/terminal.cpp:108-111 | the port is down and nothing is in progress |
| Terminal.UartClient.Setup | proxy/terminal.cpp:85-97 | the port is open and queued bytes are written again |
| TcpWriter.StepKeepsInv | proxy/tcpserver_child.cpp:39-91 | every submission and completion keeps the writer's invariant |
| TcpWriter.WriterTheorem | proxy/tcpserver_child.cpp:39-91 | a write is outstanding exactly when not idle, idle means an empty queue, the wire holds whole submitted messages then a prefix, and the counts agree |
| TcpWriter.RunTells | proxy/tcpserver_child.cpp:39-52 | over every run the submitted messages are those sent, and crowded means that more than one waited at some time |
| TcpWriter.NewestIsTaken | proxy/tcpserver_child.cpp:74-78 | over every run a completion takes the message submitted last while the oldest waiting one leaves the queue |
| TcpWriter.FifoIffNewestIsOldest | proxy/tcpserver_child.cpp:74-78 | messages go out in submission order exactly when at each completion the newest waiting one equals the oldest |
| TcpWriter.AtMostOneWaitingIsFifo | proxy/tcpserver_child.cpp:39-52 | in particular when at most one message ever waits |
| TcpWriter.DistinctFifoIffNeverCrowded | proxy/tcpserver_child.cpp:74-78 | different messages have all gone out in submission order exactly when two never waited at once |
| TcpWriter.CrowdedRunLosesAMessage | proxy/tcpserver_child.cpp:76-77 | with two waiting, the second is sent twice and the first never |
| TcpWriter.TcpServerChild.SendMessage | proxy/tcpserver_child.cpp:39-52 | queued, or started when idle |
| TcpWriter.TcpServerChild.WriteHandler | proxy/tcpserver_child.cpp:64-91 | whole new state after a completion |

## Left out

- Sockets, serial ports and their drivers: environment steps that deliver or take bytes within the read and write contracts; what a composed read collects from several packets is one completion.
- Data races on unsynchronised flags: each modelled step is atomic. The flags m_loggingMode, m_stopInProgress, bIsOpened and the store's size are read in one step with the code around them.
- Logger.Step: one invocation of the multiplexer runs at a time, because the gate is checked outside the queue's mutex; pushes, finishing jobs and the clock interleave with its steps. Records that the server itself logs are part of the pushes.
- Deframer.Init: the ETF child is modelled with the 12-byte input buffer of its configuration; other sizes make its header reads leave the buffer or miss the header.
- Deframer.DeframingTheorem: an OSCAR frame without a body counts as emitted only when its zero-byte read has completed.
- FlapParser.CalcTlvCount: called only where its loop ends; WalkTerminatesIff says where that is.
- OscarLogger.DoLog: a numeric TLV of the wrong size, which a debug assertion stops, and a read behind the last TLV or outside the frame have the outcome Undefined; frames on which the counting loop does not end are left out.
- LogClient.Step: console mode and the waiting loops of Stop; the request counter's 32-bit wrap shows only in the four bytes stored, and debug builds start it at 111 (oscar/flap_builder.cpp:16-24).
- Timestamps.TimestampAdjust: long and time_t have 64 bits.
- FileSink.CFileSink.Write: lines are records, not formatted text; files that cannot be opened and empty files are not modelled; the local time in a name is an oracle for each record, the same for the sink and for its reference.
- Delivery.Step: the adaptor has one log channel without filters, as in proxy.xml:221-230, and passes an emitted frame on in a step of its own; frames that it refuses do not occur in these runs.
- TimerThread.TimerPool.RunPass: the wait for the next time point, and callbacks that set timers themselves, which the held lock excludes; negative periods.
- WorkQueue.Step: units that throw, and shutting down.
- Terminal.Step: Setup is one step; a write outstanding when the port goes down is taken to complete while it is down or with "operation aborted". Reading from the port and its options are left out. An empty message for an idle open port reads the front of an empty queue, which is undefined, and is no step.
- LineSplitter.StreamLoggerAdaptor.DoLog: tag, severity and channel of the packages are the adaptor's constants.
- Telnet and plain stream children, the manager, channels, actors, console, configuration and factories: wiring.
- The regex filters, stack traces and signal handlers: library calls.
- The console sink and the ETF adaptor: they format what they are given.
- CLogMessageBuilder, which pads tags and cuts messages, and tlv_parse, which nothing calls.
