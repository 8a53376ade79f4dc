# A verified model of slogmodem

slogmodem collects the logs of the modem and other subsystems of a phone and saves them.
It is one event loop with a few helper threads. This project models the places where data
or control crosses a boundary (queues, worker threads, framed byte streams, callbacks
that come back into the object that made them) and proves what they promise, for all
inputs, all outcomes of system calls and all interleavings.

| file | part of the program |
|---|---|
| `DiagFraming.dfy`, `DiagStreamParser.dfy` | the framing of diagnosis data, and its resumable parser |
| `VersionFrame.dfy` | the version frame at the head of a modem log, which is later overwritten in place |
| `IoSched.dfy` | the I/O scheduler of a log, its pool of buffers, and the channel to the I/O thread |
| `ConcurrentQueue.dfy` | the queue with one lock for each end |
| `ConveyUnit.dfy`, `ConveyFloor.dfy` | units of convey work; the workers of the workshop with their queues of messages |
| `ConveyClients.dfy`, `ConveyWorkshop.dfy`, `ConveyRuns.dfy` | the workshop's table and the books of the convey transactions; the workshop; runs of it that end badly |
| `ConveyManager.dfy` | the queue of convey transactions |
| `IqProtocol.dfy` | the protocol between the main thread and the storage thread for WCDMA I/Q data |
| `Multiplexer.dfy`, `TimerManager.dfy` | the event loop's dispatchers |
| `StorageManager.dfy`, `MediaStorage.dfy`, `CpDirectory.dfy`, `LogFile.dfy` | the choice of a medium, quotas, trimming, buffered files |
| `Basics.dfy` | a value that may be missing, and bytes |

How it is built. An object whose methods change it is a class. Where an object's state is
more than a few numbers, there is also a datatype of that state with one function for each
operation; each method is proved to do what its function says, and the theorems are lemmas
about the functions. What the system decides (how much a write takes, whether a file can
be removed, what poll finds, when a thread runs) and what clients do in callbacks are
parameters, so the theorems hold for every choice. Threads are state machines over the
steps that they take while they hold a lock or between two messages.

Where the code does not do what is expected of it, the model follows the code, a lemma or
a run shows an input on which it fails, and another result says when it does not: exactly,
but for orders to cancel that come too late and for raw units that are overlooked, where it
is a condition at the step in question that rules the failure out:

- The region reserved for the version (418 bytes) is never filled: with the clamp at 200
  bytes the longest frame has 410, because of the header only the low byte of the length
  can need escaping, and it does not at the length of the longest text
  (`VersionFrame.ClampedVersionFits`).
- The I/O scheduler asks for an empty batch, which it cannot tell from no batch, if the
  commit threshold is zero or there is only one buffer (`IoSched.NoEmptyBatch`). A flush
  asks for one, too, if every queued buffer goes to an offset; nothing is given up by it
  (`IoSched.EmptyFlushExactly`).
- Two ways of conveying use the pointer to the destination after the event that resets it:
  a copy exactly if in one of its turns the medium of an automatic destination vanishes,
  while the turns before it went on (`ConveyUnits.CopyLosesDestExactly`,
  `ConveyUnits.CloseWithoutDest`).
- A callback of the workshop that changes the current storage hands other units back
  before it returns. The slot of the callback stays the transaction's exactly if not all
  its other units come back for good meanwhile
  (`ConveyWorkshop.ConveyWorkshop.ItemDoneChanging`, `ConveyRuns.NestedChangeLosesSlot`);
  the slot of a last unit can be erased or taken (`ConveyClients.NestedDoneErases`,
  `ConveyClients.NestedAttachTakes`).
- The order to cancel a tag may reach a worker when the tag belongs to somebody else, and
  the unit it stops does not count as failed (`ConveyRuns.StaleCancelSucceeds`). As long as
  no such order waits when its tag is given to a new client, no transaction is told that a
  unit was cancelled (`ConveyWorkshop.ConveyWorkshop.RunEvents`); what success means is
  said by `ConveyClients.FinishedTells`.
- A raw unit that is not concerned by a media event or a cancellation goes back to the raw
  queue, and no worker is told. If all had looked there meanwhile, it waits for the next
  request (`ConveyRuns.RawUnitIsOverlooked`); as long as no unit goes back while a worker
  has stopped looking, each worker comes to what is raw
  (`ConveyWorkshop.ConveyWorkshop.RunEvents`, `ConveyFloor.AwakeWorks`).
- A transaction that finds no room in the workshop executes until it is cancelled, since
  the result of `attach_request` is not looked at (`ConveyRuns.NoRoomLeft`,
  `ConveyWorkshop.ConveyWorkshop.RunEvents`).
- Two convey transactions execute at once if the only one ends and its client starts
  two when it is told (`ConveyManager.AtMostOneExecutes`).
- Stopping I/Q saving during a save or a pause leaves the device registered but not
  polled. No data is seen then, over any number of starts and stops, until a pause is
  resumed from, as around a clear of the logs (`IqProtocol.DataIsSeenExactly`,
  `IqProtocol.UnseenUntilResume`, `IqProtocol.RestartAfterPauseSeesNothing`).
- Giving a timer an earlier due time can break the order of the list
  (`TimerManager.DeferOrdered`).
- `trim` may delete the log that is being written, against its documentation
  (`CpDirectory.TrimDeletes`). `check_cp_quota` asks each directory for the whole request
  again (`MediaStorage.TrimsTooMuch`); that deletes no more than asking for the rest exactly
  if the directory that meets the request needs no more files for the whole of it
  (`MediaStorage.TrimsNoMoreExactly`).
- A flush that is cut short keeps the whole buffer (`LogFile.KeptBufferRepeats`). The
  documentation of `simple_write` says the opposite of the code: the directory grows
  exactly when the flag is set. `write` returns 0, not -1, when an unbuffered write fails
  at once.

## Model

| member | source | states |
|---|---|---|
| DiagFraming.ChunksAreTheStream | diag_stream_parser.cpp:20-81 | feeding a stream chunk by chunk gives the frames and the parser that the whole stream gives |
| DiagFraming.CutsDoNotMatter | diag_stream_parser.cpp:20-81 | two ways of cutting one stream, even behind an escape byte, give the same frames and the same parser |
| DiagFraming.FramesAreNonempty | diag_stream_parser.cpp:34-75 | from a consistent parser every frame of every stream is nonempty, and the parser stays consistent |
| DiagFraming.FrameShape | diag_stream_parser.cpp:83-159 | no flag occurs inside a frame, and its length is at most twice the content plus two |
| DiagFraming.DecodeFrame | diag_stream_parser.cpp:20-159 | parsing undoes framing for every content, between frames |
| DiagFraming.MessageReadsBack | diag_stream_parser.cpp:129-159 | a reader finds serial number, type, subtype and payload of a message at their places, and its length exactly if sixteen bits hold it |
| DiagFraming.DecodeStream | diag_stream_parser.cpp:20-159 | any row of frames, with flag-free garbage and any number of flags before each, decodes to exactly their contents and leaves the parser in its initial state |
| DiagFraming.FrameResynchronises | diag_stream_parser.cpp:20-81 | whatever the parser has seen, one whole frame brings it back between frames |
| DiagStreamParsing.ScanThenRest | trans_dump_rcv.cpp:201-214 | calling unescape again and again on the rest gives the frames and the parser of reading byte by byte |
| DiagStreamParsing.DiagStreamParser.Unescape | diag_stream_parser.cpp:20-81 | the in-place parser finds the first frame that the byte-by-byte meaning finds, uses as many bytes, and stays within its 64 KiB pool |
| DiagStreamParsing.DiagStreamParser.Reset | diag_stream_parser.cpp:15-18 | the parser is as new |
| DiagStreamParsing.Escape | diag_stream_parser.cpp:83-103 | writes exactly the escaped form at its place and nothing else |
| DiagStreamParsing.Frame | diag_stream_parser.cpp:129-159 | builds the frame of header and payload within a buffer of 2*(payload+8)+2 bytes |
| DiagStreamParsing.CommandFrame | diag_stream_parser.cpp:105-127 | the same for a command without serial number, with or without a payload |
| DiagStreamParsing.CheckEnding | trans_dump_rcv.cpp:192-216 | is true exactly if some frame that the received bytes complete carries the end mark, wherever the stream was cut before |
| VersionFrame.ClampedVersionFits | wan_modem_log.cpp:494-570 | a clamped version never needs more than 410 of the 418 reserved bytes, and one needs 410 |
| VersionFrame.UnclampedVersionMayNotFit | wan_modem_log.cpp:529-546 | a text of 205 flags is refused for the region |
| VersionFrame.ReservedRegionDecodes | wan_modem_log.cpp:494-513 | before the patch the file decodes to the place holder and the frames of the log |
| VersionFrame.AmendedRegionDecodes | wan_modem_log.cpp:572-607 | after it, to the version and the same frames, however much shorter the new frame is |
| VersionFrame.AmendedPacketKeepsHeaders | wan_modem_log.cpp:547-569 | with separate devices the patch keeps the length and both headers |
| VersionFrame.OneFold | wan_modem_log.cpp:461-478 | folding the carry once gives a right check sum except for one sum |
| VersionFrame.SmpCheckSum | wan_modem_log.cpp:461-478 | the words of a packet header add up to zero modulo 65535 for the channel and type in use; for a length above sixteen bits exactly if the fold carries and the rest is one |
| VersionFrame.SmpPacketReadsBack | wan_modem_log.cpp:547-569 | a reader of the packet finds the length of what follows the flags, channel and type, and behind them a message whose own length covers the text and the spaces |
| VersionFrame.AmendmentFits | wan_modem_log.cpp:572-607 | the patch for a file written without a version always exists and stays in the region |
| VersionFrame.WanModemLogHandler.FrameNoversionAndReserve | wan_modem_log.cpp:494-527 | fills the buffer with exactly the place holder region |
| VersionFrame.WanModemLogHandler.FrameVersionInfo | wan_modem_log.cpp:529-570 | frames a version, or refuses one that is longer than what is reserved |
| VersionFrame.WanModemLogHandler.OnNewLogFile | wan_modem_log.cpp:665-692 | what a new file begins with; the length remembered is that of its region if it waits for its version |
| VersionFrame.WanModemLogHandler.CorrectVerInfo | wan_modem_log.cpp:572-607 | the patch of the current file; one that waits for it gets it exactly if a buffer is free, and it stays inside the region |
| VersionFrame.WanModemLogHandler.ModemVerResult | wan_modem_log.cpp:434-459 | a version that arrives while a file is saved patches that file exactly if it waits for it and a buffer is free; the patch overwrites a part of the place holder region of that file and nothing else |
| IoSched.NoEmptyBatch | io_sched.cpp:131-145 | an empty queue is left alone exactly with a positive threshold and at least two buffers |
| IoSched.EmptyFlushExactly | io_sched.cpp:159-196 | a flush of a nonempty queue asks for an empty batch exactly if every queued buffer goes to an offset, and gives nothing up by it |
| IoSched.SortedOut | io_sched.cpp:112-129 | writes at an offset take their buffers to the free stack and leave the bytes to append, and what is appended, as they were |
| IoSched.UnfinishedBytes | io_sched.cpp:228-255 | the buffers that go back to the queue after n bytes carry exactly the bytes from n on |
| IoSched.UnfinishedBuffers | io_sched.cpp:228-255 | every buffer of a batch is either freed or goes back |
| IoSched.WholeBatchFinishes | io_sched.cpp:237-255 | nothing goes back exactly if the whole batch is written |
| IoSched.SettleKeepsCore | io_sched.cpp:228-268 | for every number of bytes written, each buffer stays in exactly one place and the stream loses nothing, except the whole batch when nothing was written |
| IoSched.WholeWriteSettles | io_sched.cpp:228-268 | after a whole write only the queue is left to write |
| IoSched.CommitKeepsCore | io_sched.cpp:131-157 | committing moves no byte of the stream and no buffer to a second place, and makes a batch of all there is to append exactly if that has the bytes of the threshold or half of the buffers |
| IoSched.EnqueueKeepsCore | io_sched.cpp:103-110 | an enqueued buffer moves from the client to the end of the stream |
| IoSched.TakeKeepsCore | io_sched.cpp:207-220 | a buffer taken from the stack was not in the client's hands, and is there only |
| IoSched.GiveBackKeepsCore | io_sched.cpp:222-226 | a buffer given back is on the stack only |
| IoSched.ThreadWroteKeepsCore | io_chan.cpp:201-232 | whatever prefix the thread writes, disk, rest of the batch and queue are the stream |
| IoSched.DiscardKeepsCore | io_sched.cpp:174-179 | discarding gives up the end of the stream and loses no buffer |
| IoSched.NoFreeBufferMeansWriting | io_sched.cpp:139-157 | if an idle channel leaves less than half of the buffers queued and the client holds at most half, then no free buffer means that a write is in flight |
| IoSched.AnswerKeeps | io_sched.cpp:270-291 | taking the thread's answer keeps buffers and stream, whatever the client flushes, closes, opens or discards meanwhile; bytes are given up only by a batch that failed whole, a flush in the callback that did, or a discard |
| IoSched.WholeFlush | io_sched.cpp:181-205 | if no write falls short, a flush leaves the whole stream on the disk |
| IoSched.StepKeeps | io_sched.cpp:87-291 | every event keeps each buffer in one place and the stream whole, and enqueues what it says |
| IoSched.StepRests | io_sched.cpp:103-291 | after a buffer was enqueued or an answer taken with a file open, an idle channel leaves fewer bytes queued than the threshold and less than half of the buffers |
| IoSched.RunConserves | io_sched.cpp:87-291 | in every run of takes, enqueues, thread writes, answers, flushes, closes, opens and discards in which nothing is given up, however short the writes, the bytes on the disk, then the rest of the batch, then the queue are what was enqueued, in order |
| IoSched.RunPatches | io_sched.cpp:112-129 | in every run in which nothing is discarded, even if writes fail, the writes at an offset that were made, then those still queued, are those that were enqueued, in order |
| IoSched.RunRests | io_sched.cpp:103-291 | without flushes and closes, an idle channel leaves fewer bytes queued than the threshold and less than half of the buffers after every run |
| IoSched.InitBuffer | io_sched.cpp:66-75 | as many clean buffers as asked for, all different |
| IoSched.IoChannel.Request | io_chan.cpp:114-141 | refused and without effect if the channel is busy; refused, and the channel stays idle, if the thread cannot be woken; else accepted |
| IoSched.IoChannel.DoIo | io_chan.cpp:201-232 | appends a prefix of the batch to the file and reports its length or the error |
| IoSched.IoChannel.WaitIo | io_chan.cpp:234-268 | the channel is idle, and the batch was written once, before or now |
| IoSched.IoChannel.OnIoDone | io_chan.cpp:270-282 | the channel is idle and the request is handed on |
| IoSched.IoScheduler.ProcessWriteOffset | io_sched.cpp:112-129 | with no batch in flight, every queued buffer with an offset is written there and freed, in order, and the others stay |
| IoSched.IoScheduler.CommitData | io_sched.cpp:131-157 | the queue becomes the batch exactly if what it has to append has the bytes of the threshold or half of the buffers; the request is never refused |
| IoSched.IoScheduler.CommitAllData | io_sched.cpp:159-172 | the whole queue becomes the batch |
| IoSched.IoScheduler.GetFreeBuffer | io_sched.cpp:207-220 | hands out the top of the stack, or notes the want; the channel is busy then if the client holds at most half |
| IoSched.IoScheduler.GiveBackBuffer | io_sched.cpp:222-226 | the buffer is reset and free again |
| IoSched.IoScheduler.Enqueue | io_sched.cpp:103-110 | the buffer is last in the queue, which is committed if no batch is in flight |
| IoSched.IoScheduler.ThreadStep | io_chan.cpp:201-232 | the I/O thread's step keeps the scheduler's invariant for every outcome |
| IoSched.IoScheduler.ProcessIoResult | io_sched.cpp:228-268 | settles a batch as the specification says |
| IoSched.IoScheduler.Discard | io_sched.cpp:174-179 | the queue is empty and its buffers are free |
| IoSched.IoScheduler.IoResultCallback | io_sched.cpp:270-291 | settles the batch, reports it, commits more if a file is open, after whatever the client flushed, closed, opened or discarded, and reports a free buffer once if one was wanted |
| IoSched.IoScheduler.Flush | io_sched.cpp:181-205 | if no write falls short the whole stream is on the disk and the queue is empty |
| IoSched.IoScheduler.Close | io_sched.cpp:92-101 | waits for the batch, writes what goes to an offset, and closes |
| ConcurrentQueue.StepRefines | concurrent_queue.h:28-146 | each step under the locks keeps the invariant and changes the content as a sequence: push at the end, pop at the front, move all, or nothing |
| ConcurrentQueue.RunKeeps | concurrent_queue.h:28-146 | the invariant in every run of every interleaving |
| ConcurrentQueue.FirstInFirstOut | concurrent_queue.h:52-76 | in every interleaving, what was pushed is what was popped or moved, followed by the content |
| ConcurrentQueue.PushAndPopApart | concurrent_queue.h:119-146 | push and pop never touch the same node |
| ConcurrentQueue.OwnedItemIsStable | concurrent_queue.h:69-76 | an item that was popped is out of reach of the other threads |
| ConcurrentQueue.EmptyIsSeenRight | concurrent_queue.h:129-138 | a pop finds nothing exactly if the queue was empty when it read the tail |
| ConcurrentQueue.MoveAllStep | concurrent_queue.h:28-36 | moving hands over the whole content in order and leaves an empty queue |
| ConcurrentQueue.LocksMakeProgress | concurrent_queue.h:28-146 | while a lock is held some holder can take a step |
| ConveyUnits.CopyAllEnds | copy_dir_to_dir.cpp:140-224 | copying a directory ends in a state the worker handles: Done exactly if every file is there whole and nothing interrupted, Failed exactly if some file broke and nothing interrupted |
| ConveyUnits.CopyTurnsExactly | copy_dir_to_dir.cpp:180-203 | a file is whole exactly if some read finds its end and all turns before wrote what they read and met nothing that stops them; it is broken exactly if after such turns one cannot read or not write all |
| ConveyUnits.CopySizedExactly | copy_to_log_file.cpp:160-208 | a copy is whole exactly if some turn writes the last of the bytes, those before it went through, and nothing stops that turn either |
| ConveyUnits.JudgeIsHandled | convey_unit.cpp:29-83 | an event that stops a unit leaves it in a state the worker handles, and not as done or failed |
| ConveyUnits.CopyLosesDestExactly | copy_to_log_file.cpp:160-208 | a copy ends without a destination exactly if in some turn its medium vanishes, the turns before went on, and the file was not complete |
| ConveyUnits.CloseWithoutDest | copy_to_log_file.cpp:160-208 | a copy of two bytes that closes a destination it has no pointer to |
| ConveyUnits.NullDestExactly | convey_unit.cpp:61-70 | the pointer to the destination is reset exactly by the loss of the medium of a destination that was chosen automatically, if the source is elsewhere |
| ConveyUnits.ConveyUnit.InspectEventCheck | convey_unit.cpp:29-83 | the verdict on every event word, and that the unit is untouched if it goes on |
| ConveyUnits.ConveyUnit.CopyDirToDir | copy_dir_to_dir.cpp:140-224 | the loops with their counters end in the state that the directory's copy means |
| ConveyUnits.ConveyUnit.CopyToLogFile | copy_to_log_file.cpp:160-208 | ends in a handled state, Done exactly if all bytes were copied uninterrupted; closes a null destination exactly if in some turn the medium vanishes after turns that went on |
| ConveyUnits.ConveyUnit.WriteToLogFile | write_to_log_file.cpp:128-144 | the same for a single write |
| ConveyFloor.MovesKeepMarks | convey_workshop.cpp:240-315 | whatever the workers do, no unit is lost, made or passed to another owner |
| ConveyFloor.MovesKeepErrands | convey_workshop.cpp:240-315 | whatever the workers do, every unit keeps its tag, its owner, its source and its destination |
| ConveyFloor.CopyIsMoves | copy_to_log_file.cpp:160-208 | a copy is a row of the worker's steps: the unit is passed on in the state in which the copy with the messages it met ends |
| ConveyFloor.MovesKeepOrder | convey_workshop.cpp:240-315 | while no order to quit or to clean is sent, every product is in a state that its events explain, a unit stopped as cancelled had the order for its tag, and what is raw or at work has its destination |
| ConveyFloor.MovesStayAwake | convey_workshop.cpp:253-301 | while each worker is at the raw material or will read that there is some, it stays so whatever they do |
| ConveyFloor.AwakeWorks | convey_workshop.cpp:253-301 | then each worker can take a step while there is raw material |
| ConveyFloor.PushedAddsMarks | convey_workshop.cpp:165-169 | pushing the units of a request while the workers move adds exactly these units |
| ConveyClients.CountedUnitHasSlot | convey_workshop.cpp:209-214 | a unit in any queue has a slot with requests that is its owner's, so that the branch without a client is never taken |
| ConveyClients.FreeTagIsUnused | convey_workshop.cpp:129-163 | a slot is reused or added only for a tag that no unit carries |
| ConveyClients.TrimErases | convey_workshop.cpp:217-236 | a slot is erased exactly if neither it nor a later one has requests |
| ConveyClients.CountIsLiveUnits | convey_workshop.h:100-121 | between two steps of the main thread an attached transaction's count is its slot's and the number of its units anywhere; one that has ended or found no room has none |
| ConveyClients.HandBackKeeps | trans_log_convey.cpp:91-142 | handing a unit back, queued again or not, keeps counts and books together, also while another unit of a transaction is in hand |
| ConveyClients.AccountsAfterHandBack | trans_log_convey.cpp:91-142 | a transaction finishes exactly when its last unit, with those queued again, is back |
| ConveyClients.FinishedTells | trans_log_convey.cpp:133-141 | a finished transaction got all its units back, and reports success exactly if it had any and each was done, queued again or cancelled |
| ConveyClients.SlotLeft | convey_workshop.cpp:217-236 | giving up a slot, and the empty ones at the end, keeps every count |
| ConveyClients.BeginKeeps | trans_log_convey.cpp:48-60 | beginning a transaction keeps all counts and books, with or without room |
| ConveyClients.AnswersGrow | convey_workshop.cpp:339-391 | each hand-back is told to the unit's owner alone |
| ConveyClients.RawAndAtWork | convey_workshop.cpp:317-392 | a medium that goes stops a raw unit exactly as its message stops one at work; a new current medium concerns exactly the raw units that are auto-destined, those on it are done, and at work it stops those of them that do not go to it |
| ConveyClients.MediaFailures | convey_workshop.cpp:359-392 | by a media event each transaction counts as failed exactly its raw units whose source is gone, or whose destination is gone or not current any more and not replaced |
| ConveyClients.LostExactly | convey_workshop.cpp:317-392 | the units that come back for good are those that fail, and with a new current medium those that are on it already |
| ConveyClients.ClearAttach | convey_workshop.cpp:129-163 | giving out a tag that no waiting order cancels leaves every client out of reach of the orders that wait |
| ConveyClients.ClearCancel | convey_workshop.cpp:440-497 | cancelling a client sends an order that means nobody who still has a slot |
| ConveyClients.NestedDoneErases | convey_workshop.cpp:209-238 | a hand-back inside the callback of another erases the slot of the outer one exactly if its unit is of the last slot and, when its callback returns, no slot from the outer one on has requests |
| ConveyClients.NestedAttachTakes | convey_workshop.cpp:129-150 | the slot of a callback whose unit was the last of its transaction is given to one that is started meanwhile, exactly if no slot before it is free |
| ConveyClients.LentStays | convey_workshop.cpp:317-357 | after the raw units were handed back inside a callback, its transaction still executes, and has a slot, exactly if not all its other units came back for good |
| ConveyClients.SoundCounts | convey_workshop.cpp:114-392 | the invariant says of every attached transaction that its count, its slot's and the number of its live units are the same, and that a finished one has no unit left |
| ConveyWorkshop.ConveyWorkshop.RunEvents | convey_workshop.cpp:87-497 | in every run of worker steps, executions, drains, media changes, lost media and cancellations: all counts agree, transactions that ended stay so, one without a slot executes until it is cancelled, nobody is told of a cancelled unit unless a tag was given out while an order to cancel it waited, the workers come to what is raw unless a raw unit went back unnoticed, and every raw unit and every unit at work has its destination |
| ConveyWorkshop.ConveyWorkshop.ItemDoneChanging | trans_log_convey.cpp:114-142 | a callback that changes the current storage keeps its slot exactly if not all other units of its transaction come back for good meanwhile; then all counts and books are right, and otherwise the transaction has ended with a unit in hand |
| ConveyWorkshop.ConveyWorkshop.Workers | convey_workshop.cpp:240-315 | the queues, the workers and their messages after the workers' steps |
| ConveyWorkshop.ConveyWorkshop.ReadMessage | convey_workshop.cpp:253-314 | what a waiting worker does with its next message |
| ConveyWorkshop.ConveyWorkshop.LookForEvent | convey_workshop.cpp:241-250 | a message met during the work stops the unit exactly as the unit judges it |
| ConveyWorkshop.ConveyWorkshop.Notify | convey_workshop.cpp:171-176 | every worker gets the message, behind those that wait |
| ConveyWorkshop.ConveyWorkshop.PushAll | convey_workshop.cpp:165-169 | the queues after a request was pushed, at any interleaving |
| ConveyWorkshop.ConveyWorkshop.AttachRequest | convey_workshop.cpp:114-179 | succeeds exactly with units, a client and room; takes the first free slot, all units go to work while workers are busy, and every worker is told |
| ConveyWorkshop.ConveyWorkshop.AddNewUnit | convey_workshop.cpp:181-207 | succeeds exactly for a client in the table, counts the unit there, and tells every worker |
| ConveyWorkshop.ConveyWorkshop.ItemDone | convey_workshop.cpp:209-238 | the owner of the unit, and nobody else, books it, unless it was cancelled; the unit is on the floor again exactly if it is queued again, with its new destination; the transactions that follow a finished one have begun, and nobody else changed; all counts agree |
| ConveyWorkshop.ConveyWorkshop.EraseFrom | convey_workshop.cpp:220-230 | the loop erases exactly the slots at the end without requests |
| ConveyWorkshop.ConveyWorkshop.Execute | trans_log_convey.cpp:48-60 | starts exactly if there are units; attached exactly if there was room |
| ConveyWorkshop.ConveyWorkshop.UnitFinish | trans_log_convey.cpp:91-142 | the books after a hand-back, what is on the floor, and that after the last unit the given transactions, and no others, have begun |
| ConveyWorkshop.ConveyWorkshop.QueueAgain | trans_log_convey.cpp:104-130 | which states count as failed, when a unit is queued again, and that it then goes to work with the new destination while the floor stays as it is otherwise |
| ConveyWorkshop.RequeueSendsUnit | trans_log_convey.cpp:119-121 | queueing again adds exactly the errand from the unit's source to the new destination, for the same owner and tag, the destination is set, and every worker comes to it |
| ConveyWorkshop.ConveyWorkshop.Process | convey_workshop.cpp:87-112 | draining the products keeps all counts and books in every interleaving |
| ConveyWorkshop.ConveyWorkshop.CurrentMediaChanged | convey_workshop.cpp:317-357 | each transaction is told about exactly its own raw units that are auto-destined, in order, and counts those that fail |
| ConveyWorkshop.ConveyWorkshop.MediaInactive | convey_workshop.cpp:359-392 | each transaction is told about exactly its own raw units from or to the medium, in order, and counts those that fail: losing the destination counts nothing for an auto-destined unit that is elsewhere and finds another; if no unit is concerned, the raw units go back in order |
| ConveyWorkshop.ConveyWorkshop.Cancel | trans_log_convey.cpp:83-89 | the transaction is cancelled, its raw units are dropped and every count is right; nobody else notices |
| ConveyWorkshop.ConveyWorkshop.CancelClient | convey_workshop.cpp:440-497 | the table without the client, its raw units uncounted, the others back in order, and the order to cancel its tag behind every worker's messages |
| ConveyRuns.StaleCancelSucceeds | convey_workshop.cpp:454-460 | attach, cancel, reuse of the tag, and a worker that still has the old order: success is reported for a unit that was not conveyed |
| ConveyRuns.NestedChangeLosesSlot | trans_log_convey.cpp:114-125 | two units, one handed back in the callback of the other: the slot is lost |
| ConveyRuns.RawUnitIsOverlooked | convey_workshop.cpp:359-391 | a unit is raw, no worker can take a step, and none will be told |
| ConveyRuns.NoRoomLeft | trans_log_convey.cpp:48-60 | the 256th transaction executes without a slot |
| ConveyManager.TransFinishedKeeps | cp_convey_mgr.cpp:39-61 | the end of a transaction keeps submission order and an executing head, whatever the clients start |
| ConveyManager.AtMostOneExecutes | cp_convey_mgr.cpp:39-61 | at most one executes after the end of the only one, exactly unless nobody waited and its client started one and then more that the loop starts, too |
| ConveyManager.OneAtATimeIsSafe | cp_convey_mgr.cpp:39-61 | with clients that start at most one, at most one executes |
| ConveyManager.TwoMayExecute | cp_convey_mgr.cpp:39-61 | a client that starts two makes two execute |
| ConveyManager.CancelKeeps | trans_mgr.cpp:18-43 | cancelling keeps submission order and an executing head, and starts no second one |
| ConveyManager.StartHeadTells | trans_mgr.cpp:26-43 | after a cancellation the clients of those at the head that end at once are told, in order, and nobody else if the loop comes to one that starts |
| ConveyManager.FinishTells | cp_convey_mgr.cpp:39-61 | the client of a finished transaction is told first, then those of the waiting ones that end at once, in order |
| ConveyManager.SweepStartsOne | cp_convey_mgr.cpp:42-60 | behind executing transactions the loop starts exactly one more, or none |
| ConveyManager.RunKeeps | cp_convey_mgr.cpp:21-61 | in every run transactions begin in submission order and a queue at rest has an executing head; at most one executes while no end falls under the exception |
| ConveyManager.ConveyManager.StartTrans | cp_convey_mgr.cpp:21-37 | waits behind others, or executes at once and stays only if it started |
| ConveyManager.ConveyManager.TransFinished | cp_convey_mgr.cpp:39-61 | the loop over the list that callbacks extend does what the specification says |
| ConveyManager.ConveyManager.CancelTrans | trans_mgr.cpp:18-24 | removes the transaction and starts the next |
| ConveyManager.ConveyManager.OnTransCanceled | trans_mgr.cpp:26-43 | starts the head, telling the clients of those that end at once |
| IqProtocol.StepKeeps | wcdma_iq_mgr.cpp:78-454 | the invariant over both threads, both channels, the mutex and the sizes survives every step |
| IqProtocol.ProtocolIsSafe | wcdma_iq_mgr.cpp:78-454 | in every interleaving no response comes in a wrong state, each pause has exactly one answer, the channels stay short, and the sizes counted, then that of the file at hand, are those of the files that were begun and not cleared, each with the bytes that its writes took |
| IqProtocol.CountedWhenDone | wcdma_iq_mgr.cpp:78-352 | the end of a save, an answered pause and the end of the thread count the file at hand with what was written, and no other step counts |
| IqProtocol.SavesAllExactly | wcdma_iq_mgr.cpp:354-418 | of the size that the device tells all is saved exactly if no write fell short, the file did not go, and no command came before the last block |
| IqProtocol.PauseReturnsQuiet | wcdma_iq_mgr.cpp:463-482 | pause and clear_iq_files return with both channels empty and the storage thread idle |
| IqProtocol.WaitingIsNeverStuck | wcdma_iq_mgr.cpp:125-156 | while the main thread waits one of the threads can take a step |
| IqProtocol.WaitingEnds | wcdma_iq_mgr.cpp:354-454 | each such step brings the end of the wait closer, whatever the size of the data |
| IqProtocol.StopInSaveLosesData | wcdma_iq_mgr.cpp:78-109 | of all steps only the end of a stop during a save or a pause makes the data go unseen |
| IqProtocol.DataIsSeenExactly | wcdma_iq_mgr.cpp:50-123 | in every run, while the manager waits for data the device is polled exactly if each stop during a save or a pause was followed by a resume from a pause |
| IqProtocol.StopsWhileWaitingLoseNothing | wcdma_iq_mgr.cpp:78-109 | a run whose stops all end while data is waited for leaves the device polled |
| IqProtocol.UnseenUntilResume | wcdma_iq_mgr.cpp:50-123 | after a stop during a save or a pause the device is not polled, however the run goes on, until a pause is resumed from; then it is |
| IqProtocol.RestartAfterPauseSeesNothing | wcdma_iq_mgr.cpp:50-76 | start, pause, stop, start ends waiting for data that is not polled for |
| Multiplexer.UnregisterKeeps | multiplexer.cpp:58-78 | an unregistered handler has no entry and no slot, and every other slot stays a registered handler's |
| Multiplexer.DelEventsKeeps | multiplexer.cpp:97-122 | events that are taken away are gone from what poll found |
| Multiplexer.WantedAfter | multiplexer.cpp:40-122 | a handler is registered with the events given, gets exactly those added and loses exactly those taken away, and keeps its own whatever is done to others |
| Multiplexer.PrepareKeeps | multiplexer.cpp:124-167 | in every round, whether or not the dirty flag makes it fill the arrays, poll is given exactly the registered handlers with events, each once, with the events it wants |
| Multiplexer.DispatchCalls | multiplexer.cpp:178-188 | the loop calls handlers one slot after the other, each while it is registered, with events still in its slot |
| Multiplexer.RoundCalls | multiplexer.cpp:169-189 | in one round each handler is called at most once, only with events that poll found and that neither a timer nor a handler called before took away from it, and only while it is registered |
| Multiplexer.TakenIsNotSeen | multiplexer.cpp:97-122 | no handler is called with events that one called before it in the round took away |
| Multiplexer.GoneIsNotCalled | multiplexer.cpp:69-78 | a handler unregistered in a round is not called in the rest of it, even if registered again |
| Multiplexer.Multiplexer.RegisterFd | multiplexer.cpp:40-56 | a handler is registered at most once |
| Multiplexer.Multiplexer.UnregisterFd | multiplexer.cpp:58-78 | the arrays and the list forget the handler |
| Multiplexer.Multiplexer.AddEventsTo | multiplexer.cpp:80-95 | adds events of a registered handler |
| Multiplexer.Multiplexer.DelEventsOf | multiplexer.cpp:97-122 | takes events away, from the current round, too |
| Multiplexer.Multiplexer.Enlarge | multiplexer.cpp:124-139 | the arrays are large enough and grow in steps of 32 |
| Multiplexer.Multiplexer.PreparePollingArray | multiplexer.cpp:124-157 | fills the arrays from the list |
| Multiplexer.Multiplexer.Round | multiplexer.cpp:159-192 | one turn of the event loop polls for exactly what is wanted and makes exactly the calls of the specification |
| TimerManager.PlusIsExact | timer_mgr.cpp:175-190 | the sum of a time and an interval is exact and normalised exactly below 2^31 ms |
| TimerManager.BeforeIsOrder | timer_mgr.cpp:218-221 | comparing normalised times is comparing nanoseconds |
| TimerManager.MinusIsNear | timer_mgr.cpp:201-206 | the difference in milliseconds is off by less than one |
| TimerManager.InsertOrdered | timer_mgr.cpp:59-69 | inserting keeps the list sorted, first come first among equals |
| TimerManager.DeferOrdered | timer_mgr.cpp:99-121 | a new due time keeps the order exactly if the predecessor is not due later; deferring always does |
| TimerManager.AddLists | timer_mgr.cpp:24-69 | an added timer is in the list, once, with its callback and due when the interval is over; the others stay |
| TimerManager.DeferLists | timer_mgr.cpp:99-121 | a deferred timer keeps its callback and is due when the new interval is over; the others stay |
| TimerManager.DueInSameRun | timer_mgr.cpp:152-173 | a timer set by a callback is due in the same run exactly if it is set for no time and the clock has not moved |
| TimerManager.ApplyDue | timer_mgr.cpp:24-129 | what a callback does leaves exactly those due timers that it does not delete or put off |
| TimerManager.RunFires | timer_mgr.cpp:152-173 | a run ends, fires exactly the due timers not deleted or put off by earlier callbacks, in order, and leaves none that is due |
| TimerManager.TimerManager.InsertTimer | timer_mgr.cpp:59-69 | puts the timer before the first that is due later |
| TimerManager.TimerManager.SetNewDueTime | timer_mgr.cpp:99-121 | moves a timer of the list, looking from its old place on |
| TimerManager.TimerManager.DelTimersOf | timer_mgr.cpp:71-84 | no timer of the callback is left, the others keep their order |
| TimerManager.TimerManager.NextTime | timer_mgr.cpp:131-150 | the time to the first timer to less than a millisecond, never negative |
| TimerManager.TimerManager.RunTimers | timer_mgr.cpp:152-173 | the loop over the list that callbacks change fires what the specification says |
| StorageManager.InUseIsReadyOrVanished | media_stor_check.cpp:112-168 | a medium in use is only ever seen as ready or vanished |
| StorageManager.NotInUseIsReadyOrNot | media_stor_check.cpp:112-168 | one that is not in use is never seen as vanished; it is ready exactly if its path is known and accessible, its device was not removed, and an external one is past the delay |
| StorageManager.PickIsFirst | stor_mgr.cpp:373-384 | the choice is the first that qualifies in descending priority, or none if none does |
| StorageManager.StorageManager.GetState | media_stor_check.cpp:112-168 | the state a medium is seen in, and what the look changes |
| StorageManager.StorageManager.MediaDeterminer | stor_mgr.cpp:208-282 | a medium is chosen exactly if ready, permitted and current, synchronised or now synchronised; the one chosen is the only one in use; what becomes of the medium in every case |
| StorageManager.StorageManager.CheckMediaChange | stor_mgr.cpp:373-392 | afterwards the current storage is exactly the first that qualifies, alone in use, permitted, accessible and not removed, and a change is reported exactly if there is one |
| StorageManager.StorageManager.EnableMedia | stor_mgr.cpp:284-309 | all media of the type are permitted or not, and a forbidden one is not current |
| StorageManager.StorageManager.OnUevent | media_stor_check.cpp:55-82 | removal of the device is remembered until a device is added |
| LogFile.TakenAll | log_file.cpp:411-421 | how much a run of write calls takes |
| LogFile.KeptBufferRepeats | log_file.cpp:383-398 | keeping the buffer after a write repeats what was written, unless nothing was |
| LogFile.LogFile.WriteData | log_file.cpp:400-422 | the file grows by exactly the part reported |
| LogFile.LogFile.Write | log_file.cpp:127-185 | whatever the calls return, file and buffer together grow by exactly the part reported, and so do the sizes; a block that does not fit reaches the file, behind the buffered data, exactly as far as the calls take both; the buffer never overfills |
| LogFile.LogFile.Gather | log_file.cpp:144-167 | the file grows by exactly the part of buffer and block that the gathering write takes, and reported is what that has of the block |
| LogFile.LogFile.MoveDown | log_file.cpp:161-167 | the rest of the buffer moves to its front |
| LogFile.LogFile.Flush | log_file.cpp:383-398 | the file gets what the calls take of the buffer; nothing is lost or repeated exactly if all or none was written |
| LogFile.LogFile.Close | log_file.cpp:104-125 | the file gets what the calls take of the buffer; nothing is lost exactly if the last write takes all |
| CpDirectory.TrimConserves | cp_dir.cpp:356-385 | what trimming leaves and what it frees add up, and no other file goes |
| CpDirectory.TrimIsShortest | cp_dir.cpp:356-385 | without failures a trim deletes exactly the shortest row of overwritable files that frees the request, or all of them, and returns their bytes |
| CpDirectory.NeededIsLeast | cp_dir.cpp:372-379 | so many files suffice, and one less does not |
| CpDirectory.TrimMeetsRequest | cp_dir.cpp:356-385 | the request is met exactly if so much may be overwritten |
| CpDirectory.TrimDeletes | cp_dir.cpp:356-380 | a file goes exactly if it is overwritable and those before it do not free enough |
| CpDirectory.TrimMayDeleteCurrentLog | cp_dir.cpp:356-385 | the only, current log is deleted |
| CpDirectory.InsertKeepsOrder | cp_dir.cpp:74-84 | an ascending list stays ascending |
| CpDirectory.InsertAdds | cp_dir.cpp:74-89 | the list has the file in addition, and its size |
| CpDirectory.CpDirectory.TrimFiles | cp_dir.cpp:356-385 | the loop trims as specified, and the directory's size stays the sum of its files |
| CpDirectory.CpDirectory.AddSize | log_file.cpp:232-235 | a growing file keeps the directory's size the sum |
| CpDirectory.CpDirectory.AddLogFile | cp_dir.cpp:86-89 | the size stays the sum and the list stays ascending |
| CpDirectory.CpDirectory.RmOldestLogFile | cp_dir.cpp:293-312 | removes exactly the first overwritable file that can be removed, with its size |
| MediaStorage.TrimSetsConserves | media_stor.cpp:236-249 | what all directories lose is what is reported as freed |
| MediaStorage.TrimSetsMeet | media_stor.cpp:236-249 | the request is met exactly if so much may be overwritten in all directories |
| MediaStorage.TrimsTooMuch | media_stor.cpp:238-247 | 190 bytes are deleted for a request of 100, where asking for the rest deletes 100 |
| MediaStorage.MetAtReaches | media_stor.cpp:238-247 | what may be overwritten in the directories before the one that meets the request is less than the request, and with it at least as much |
| MediaStorage.TrimsNoMoreExactly | media_stor.cpp:238-247 | asking each directory for the whole request deletes the files that asking for the rest deletes exactly if the one that meets it needs as many files for the whole request as for the rest |
| MediaStorage.MediaStorage.CheckCpQuota | media_stor.cpp:194-257 | with overwriting, room on the medium and a limit, 0 is returned exactly if the total is at most the limit; without overwriting, exactly if the medium is not full and the total is below the limit |

## Left out

- Sockets, poll, pthread, file system calls, clocks and properties: their results are parameters.
- Client commands, AT commands, the HIDL service, `mlogservice`, configuration text, the waiting of modem transactions in `wan_modem_log.cpp`: table lookups and plumbing.
- IoSched.IoScheduler.constructor: a positive threshold and two buffers at least, as `log_pipe_hdl.cpp` sets them for each kind of log; `NoEmptyBatch` says what happens otherwise.
- IoSched.IoScheduler.ProcessIoResult: buffers are values told apart by a number, not objects updated in place; that no two places hold one buffer is the partition that is proved. The size of the file is counted in `CpDirectory.CpDirectory.AddSize`.
- IoSched.IoScheduler.RequestWrite: the byte that wakes the thread is always sent; a scheduler whose request was refused for that would keep a batch that nobody writes.
- IoSched.IoScheduler.IoResultCallback: the client flushes, closes, opens or discards in its callback, as `cp_stor.cpp` does; it does not enqueue there, since `on_new_log_file` writes the head of a file directly.
- IoSched.IoScheduler.Flush: after a short write the rest waits in the queue of an idle channel until the next buffer comes. Buffers for an offset that outlive their file are written to the next one.
- IoSched.RunPatches: says which writes at an offset were made, not to which file; one whose buffer outlives its file goes to the next.
- IoSched.RunConserves: a file is opened while no batch is in flight, and buffers are enqueued while a file is open, as `cp_stor.cpp` does.
- ConcurrentQueue.StepRefines: nodes are numbered cells and threads are steps, not methods. Wake-ups of the condition variable are not modelled: a blocked pop is one that has not begun.
- IqProtocol.StepKeeps: the two threads are steps of one state machine, not methods. Mapping the memory of the device and naming files are outcomes.
- ConveyWorkshop.ConveyWorkshop.Workers: a worker's looks at its messages during a unit are steps of their own, any number of them; the queues are instances of the queue above. `clear`, the end of the workers and the subscriptions to media events are not modelled.
- ConveyWorkshop.ConveyWorkshop.Process: as many turns as reactions are given, which is a prefix of a drain that goes on.
- ConveyWorkshop.ConveyWorkshop.ItemDone: callbacks queue units again and execute transactions. One that changes the current storage is `ItemDoneChanging`.
- ConveyWorkshop.ConveyWorkshop.ItemDoneChanging: the transaction has other units; for a last unit, what can happen to its slot is said of the table by `NestedDoneErases` and `NestedAttachTakes`. A change inside the change, for which the new medium would have to go meanwhile, is not modelled, nor what the program does with an erased slot.
- ConveyWorkshop.ConveyWorkshop.RunEvents: no callback of a run changes the current storage; priorities of media are below 65536, as `stor_mgr.cpp` makes them.
- ConveyWorkshop.ConveyWorkshop.AttachRequest: the units have their destinations, as `validation_check` in `trans_log_convey.cpp` makes sure before a transaction takes them.
- ConveyWorkshop.ConveyWorkshop.Execute: transactions are values in a table of the workshop's clients; what they were built from is not modelled.
- ConveyUnits.ConveyUnit.CopyDirToDir: the files' contents and the removal of results are not modelled, nor is moving instead of copying.
- ConveyManager.ConveyManager.TransFinished: callbacks start transactions and do not cancel any.
- Multiplexer.Multiplexer.Round: the timers' effect on handlers is a list of operations; the loop over rounds is not a method.
- TimerManager.TimerManager.RunTimers: callbacks set timers for positive intervals below 2^31 ms and do not bring a timer forward; with others the list may not stay sorted or the loop may not end. Seconds do not overflow.
- StorageManager.StorageManager.CheckMediaChange: those who are told of a change do not check again from within; synchronising and the stopping of subsystems are outcomes.
- LogFile.LogFile.Write: a file whose buffer could not be allocated is not modelled.
- CpDirectory.CpDirectory.AddSize: sizes of the parent set and of the medium are left out, and files filled by `copy` or `write` without the flag, which the directory does not count.
- MediaStorage.MediaStorage.CheckCpQuota: directories are values; whether the medium is full is looked up before anything is deleted, as in the code.
