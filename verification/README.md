# A verified model of the messaging core of the referee box

The referee box talks to its robots over ZeroMQ 2.2.0, whose sources it carries along. This project models
the parts of that library whose correctness rests on an argument rather than on one function: the message
swap on disk, the lock-free pipe and the mailbox on top of it, flow control and shutdown of message pipes,
ownership and termination of objects, the wire codec, the subscription trie, fair queueing, fan-out,
shared message contents, the chunked queue and the shutdown of a context. The printer and parser of BMT
task lists is the one part of the referee box itself.

Code that works by updating fields is a class whose methods do the same steps in the same order; what
each method does to the state is a function on values, and the theorems are about those functions. Where
threads or objects interact, the functions are the steps of a transition system, `Run` gives the state
after any list of steps, and the theorems hold for every run.

| module | what it is about |
|---|---|
| `Bytes`, `Digits`, `Wrappers` | bytes, messages, numbers as bytes; options |
| `Swap`, `SwapRollback` | the circular file with two block buffers, refining a FIFO of messages; when a rollback is right |
| `YPipe`, `YQueue` | the pipe with one writer and one reader; the queue of chunks it is stored in |
| `Mailbox` | commands and signals with any number of senders |
| `MessagePipe`, `PipeEnds` | both ends of a message pipe: as a transition system, and as the two objects, over `YPipe` and `Swap` |
| `PipeFlow` | how much a pipe accepts, when a writer waits, and that a connection can always be ended |
| `SkippedFlush` | which messages are lost for ever when a flush is skipped |
| `Own`, `OwnProgress` | the tree of owned objects and its termination: what every run keeps, and that it comes to rest |
| `Ctx` | slots of sockets, the reaper and the end of a context |
| `Wire`, `WireLanguage` | frames and the byte parser; what the parser accepts and rejects |
| `Encoder`, `Decoder`, `Engine` | the two resumable state machines, and both over a stream that is cut anywhere |
| `Trie`, `XSub` | subscriptions as a multiset of words; filtering of whole messages |
| `PipeArray`, `FairQueue`, `Departures`, `Dist` | the array that knows its items' places; reading in turn; which pipes leave; writing to all |
| `MsgContent`, `MsgValues` | messages sharing a content, through copying and fan-out; that the sharing does not show |
| `Bmt` | text of BMT task lists |

## What the code does not do

In some places the code does not keep what it or its comments promise. The model follows the code, and
each case is a theorem with the condition under which all is well, except where only a comment is wrong.

- `writer_t::flush` does nothing while swapping (`pipe.cpp:267-272`). A message written and not yet flushed
  when the next one overflows is then published only by the drain of the swap, which waits for the reader to
  confirm messages. It is never published, whatever happens next, exactly when no such news is on its way and
  none of the parts that the reader can still get ends a multiple of the low watermark
  (`SkippedFlush.LostExactlyWhenStarved`, an equivalence; `SkippedFlush.FlushSkippedForever` is such a run).
  Flushing each message before the next overflows excludes it (`SkippedFlush.FlushingInTimeIsEnough`).
- `swap_t::rollback` takes the offset of the commit position in its block for an address in the file, from
  which it loads the block and to which the block is saved later; and in the block of the reader it takes the
  buffer of the reader (`swap.cpp:175-182`). That is harmless when reader and writer end up in one buffer, as
  they do in the first block of a new swap. It loses bytes when the commit is in a block that neither of them
  is in, or in the block of the reader and behind it while two buffers are in use; except at the start of the
  file or, in the second case, of a file of one block (`SwapRollback.RollsBackExactlyWhen`, an equivalence;
  `SwapRollback.FetchAfterRollbackIsWrong` is such a run).
- `own_t::process_term_req` takes a request from an object that is not owned for one that was granted before
  (`own.cpp:111-114`). An object that asks to be terminated before its launcher has sent `own` is not told, and
  lives on (`OwnProgress.RequestHandled`, an equivalence; `OwnProgress.RequestIsLost` is such a run).
- A long message copied to itself is closed before it is copied (`MsgContent.CopyKeeps`, an equivalence,
  `MsgContent.CopyGivesTwo`, `MsgContent.CopyTouchesLive`).
- The decoder takes over bit 7 of the flags byte, which means a shared content (`MsgContent.ReceivedKeeps`,
  an equivalence).
- The store after `check_write` asserts success, but only later overflowing parts are checked against
  the swap, not the first (`MessagePipe.StoreFailsWhen`, an equivalence, and `MessagePipe.StoreCanFail`).
- When at least two pipes are written to and all of them refuse, `dist_t::distribute` subtracts the last
  reference of a long message and frees nothing (`MsgContent.DistributeCounts`, an equivalence, and
  `MsgContent.LeakHappens`).
- `dist_t::terminated` lets the last pipe of the array take the place of the one that goes, which can carry
  a pipe into another zone (`Dist.TerminatedKeepsZones`, an equivalence, and `Dist.TerminatedBreaksMessage`).
- A BMT list with a space or a delimiter in a name, or an empty final place, is not restored
  (`Bmt.RoundTrip`, an equivalence).
- Two comments are not what the code does: in `fq.cpp:147-150` the cursor is 0, not its original value,
  after a search without result; and `encoder.cpp` sets `beginning` for the last part of a message, not the
  first (see below).

## Model

| member | source | states |
|---|---|---|
| Swap.Swap.constructor | zeromq-2.2.0/src/swap.cpp:44-119 | the empty swap for every file size and block size, file shorter than one block and partial last block included |
| Swap.Swap.Store | zeromq-2.2.0/src/swap.cpp:121-139 | a message is stored exactly when its 9-byte header and body take strictly less than the free space; it is then the newest of the FIFO, with body and MORE flag; otherwise the FIFO is unchanged |
| Swap.Swap.Fetch | zeromq-2.2.0/src/swap.cpp:141-158 | returns and removes the oldest message of the FIFO, body and MORE flag intact |
| Swap.Swap.Fits | zeromq-2.2.0/src/swap.cpp:199-207 | answers whether a record fits, exactly as the store decides |
| Swap.Swap.Empty | zeromq-2.2.0/src/swap.cpp:186-189 | equal read and write positions mean that no message is stored, never that the file is full |
| Swap.Swap.BufferSpace | zeromq-2.2.0/src/swap.cpp:317-323 | the circular difference of the positions is the file size less the bytes stored |
| Swap.Swap.StoreRecord | zeromq-2.2.0/src/swap.cpp:130-136 | size, flags and body are appended behind the stored bytes as one record |
| Swap.Swap.FetchRecord | zeromq-2.2.0/src/swap.cpp:146-157 | the record at the front gives back size, flags and body, and exactly the record is consumed |
| Swap.Swap.CopyToFile | zeromq-2.2.0/src/swap.cpp:233-260 | across any number of blocks the bytes are appended to those stored and nothing stored is disturbed |
| Swap.Swap.WriteChunk | zeromq-2.2.0/src/swap.cpp:240-259 | one run up to a block boundary is appended to the stored bytes |
| Swap.Swap.LeaveBlock | zeromq-2.2.0/src/swap.cpp:248-257 | a filled block is saved at its place and writing goes on in the buffer the reader does not use |
| Swap.Swap.CopyFromFile | zeromq-2.2.0/src/swap.cpp:209-231 | the oldest bytes come out, across any number of blocks; the others stay |
| Swap.Swap.ReadChunk | zeromq-2.2.0/src/swap.cpp:214-231 | one run up to a block boundary is taken from the front of the stored bytes |
| Swap.Swap.EnterBlock | zeromq-2.2.0/src/swap.cpp:221-228 | the reader shares the buffer of the writer exactly when it enters the block of the writer, else it loads the block from the file |
| Swap.Swap.FillBuf | zeromq-2.2.0/src/swap.cpp:262-287 | loads the block whatever short reads occur, only the partial length for the last block |
| Swap.Swap.SaveWriteBuf | zeromq-2.2.0/src/swap.cpp:289-315 | writes the block to its place, whatever short writes occur, and touches no other byte of the file |
| Swap.ReadKeepsCoherent | zeromq-2.2.0/src/swap.cpp:209-231 | after reading a run every stored byte is still where the reader will look for it; when positions share a block the buffers are shared iff reading is behind writing |
| Swap.WriteKeepsCoherent | zeromq-2.2.0/src/swap.cpp:233-260 | the same after writing a run: every block strictly between the two positions is complete in the file |
| Swap.NextBlockSaved | zeromq-2.2.0/src/swap.cpp:221-228 | a block the reader enters behind the writer was saved before |
| Swap.ReadToEndAt | zeromq-2.2.0/src/swap.cpp:214-231 | when the reader leaves a block no stored byte is left only in the buffer it gives up |
| Swap.WriteHolds | zeromq-2.2.0/src/swap.cpp:233-260 | each byte, old or new, is found at its position after the writer moved on to the next block |
| Swap.Swap.Commit | zeromq-2.2.0/src/swap.cpp:160-163 | a later rollback is to the position right after all messages stored so far |
| Swap.Swap.Rollback | zeromq-2.2.0/src/swap.cpp:165-184 | the storage changes as the rollback function says; when `MayRollBack` holds, the swap is again the FIFO of exactly the messages up to the commit, for all later stores and fetches |
| Swap.RollbackKeepsCoherent | zeromq-2.2.0/src/swap.cpp:165-184 | when `MayRollBack` holds every byte stored before the commit is still where the reader will look for it, and the rest is dropped |
| Swap.MayRollBackReloads | zeromq-2.2.0/src/swap.cpp:179-181 | then a block that is loaded again is in the file |
| SwapRollback.RollsBackExactlyWhen | zeromq-2.2.0/src/swap.cpp:165-184 | after a rollback the bytes up to the commit and those stored later come out in order, whatever the bytes are and in every continuation of copies to and from the file, if and only if there is nothing to drop; or the commit is outside the block of the reader, and in the block of the writer or at the very start of the file; or it is in the block of the reader, and not behind it, or with one buffer in use, or at the start of a file of one block |
| SwapRollback.RollbackIsQueue | zeromq-2.2.0/src/swap.cpp:165-184 | in those cases every continuation of reads and writes is a FIFO that starts with the bytes kept |
| SwapRollback.CoherentFollows | zeromq-2.2.0/src/swap.cpp:209-260 | a storage that holds its bytes gives out exactly these and what is stored later, in order, across any mix of reads and writes |
| SwapRollback.RollbackElsewhere | zeromq-2.2.0/src/swap.cpp:179-182 | with the commit in a block of its own, not at the start of the file, some continuation gives a wrong byte, whatever was stored |
| SwapRollback.RollbackBehind | zeromq-2.2.0/src/swap.cpp:175-178 | with the commit behind the reader in its block, two buffers in use, and not at the start of a file of one block, some contents and continuation give a wrong byte |
| SwapRollback.FetchAfterRollbackIsWrong | zeromq-2.2.0/src/swap.cpp:121-184 | it happens: with blocks of nine bytes, one message is stored and committed, an empty one is stored and rolled back, and the first one is fetched with a wrong byte |
| Swap.RecordsAppend | zeromq-2.2.0/src/swap.cpp:130-136 | the bytes of a list of records followed by one more are the bytes of the longer list |
| Swap.RecordLength | zeromq-2.2.0/src/swap.cpp:130-136 | a record is nine bytes of header, flags without the shared bit in the last, and the body |
| Bytes.LERoundTrip | zeromq-2.2.0/src/swap.cpp:131-150 | a size stored in memory order is read back unchanged |
| Digits.LEByte | zeromq-2.2.0/src/swap.cpp:131-150 | in memory the least significant byte of the size comes first, as on the machines the code is built for |
| YPipe.EveryRunIsSafe | zeromq-2.2.0/src/ypipe.hpp:73-164 | in every interleaving: `c` is NULL or the published position; what the reader got is a prefix of the flushed items in write order; no part of an incomplete message is visible; sleeps and flushes that returned false match one to one |
| YPipe.StepKeepsInv | zeromq-2.2.0/src/ypipe.hpp:73-164 | every atomic step of writer or reader keeps the inductive invariant |
| YPipe.EveryRunKeepsInv | zeromq-2.2.0/src/ypipe.hpp:73-164 | the invariant holds in every run, and the items are the log of the writes less those taken back |
| YPipe.StoreOverwritesNothing | zeromq-2.2.0/src/ypipe.hpp:109-118 | between the failed compare-and-swap and the plain store no reader step changes `c` or takes an item |
| YPipe.CheckReadSeesFlushed | zeromq-2.2.0/src/ypipe.hpp:128-149 | an item is found exactly when a flushed one is unread, and the reader falls asleep exactly when there is none |
| YPipe.FlushAnswer | zeromq-2.2.0/src/ypipe.hpp:102-125 | the flush takes the plain store, and so answers false, exactly when the reader sleeps and something is to be published |
| YPipe.YPipe.Write | zeromq-2.2.0/src/ypipe.hpp:73-82 | the newest item is added; only a complete one moves the flush position |
| YPipe.YPipe.Unwrite | zeromq-2.2.0/src/ypipe.hpp:90-97 | takes back the newest item exactly when it belongs to an unfinished message |
| YPipe.YPipe.TryPublish | zeromq-2.2.0/src/ypipe.hpp:102-112 | first half of `flush`: the compare-and-swap, undecided exactly when it found NULL |
| YPipe.YPipe.Store | zeromq-2.2.0/src/ypipe.hpp:112-124 | second half of `flush`: the plain store and the answer false |
| YPipe.YPipe.CheckRead | zeromq-2.2.0/src/ypipe.hpp:128-149 | true exactly when a flushed item is unread |
| YPipe.YPipe.Read | zeromq-2.2.0/src/ypipe.hpp:153-164 | takes the oldest flushed item, if there is one |
| Mailbox.NoLostWakeUp | zeromq-2.2.0/src/mailbox.cpp:50-86 | for any number of senders, bytes in the socket plus signals owed are one while the pipe is awake (`c` not NULL), and one more while the receiver is between its failed read and the drain; so draining finds a byte, the read after a wait succeeds, and an unread flushed command never faces a sleeping receiver with no signal coming |
| Mailbox.EveryRunKeepsInv | zeromq-2.2.0/src/mailbox.cpp:50-86 | conservation of signals, the lock discipline of the senders and the invariant of the pipe hold in every run |
| Mailbox.CommandsArriveInOrder | zeromq-2.2.0/src/mailbox.cpp:50-86 | the receiver gets a prefix of the flushed commands in the order they were written |
| Mailbox.AtRest | zeromq-2.2.0/src/mailbox.cpp:60-86 | with the senders at rest a waiting receiver can be woken exactly when a command is unread |
| Mailbox.CommandComesThrough | zeromq-2.2.0/src/mailbox.cpp:50-86 | from every state that can be reached, a published command that is unread gets through to the receiver by its own steps and by what senders still have to do after their unlock |
| Mailbox.SendFacts | zeromq-2.2.0/src/mailbox.cpp:50-58 | a whole send puts one command behind the unread ones and a signal exactly when the reader slept |
| Mailbox.ReadFacts | zeromq-2.2.0/src/mailbox.cpp:60-86 | a read takes the oldest command or puts the pipe to sleep |
| Mailbox.Mailbox.constructor | zeromq-2.2.0/src/mailbox.cpp:25-33 | the mailbox starts passive and its pipe asleep |
| Mailbox.Mailbox.Send | zeromq-2.2.0/src/mailbox.cpp:50-58 | the unread commands grow by the one sent, at the end |
| Mailbox.Mailbox.Recv | zeromq-2.2.0/src/mailbox.cpp:60-86 | answers EAGAIN exactly when there is no unread command, or when the mailbox was passive and the wait was interrupted; otherwise yields the oldest one; it is active afterwards exactly when it got one |
| Own.WholeTreeGone | zeromq-2.2.0/src/own.cpp:56-208 | when a root terminates and no command or launch is in flight, every object of its tree has been destroyed |
| Own.QuietMeansDone | zeromq-2.2.0/src/own.cpp:156-208 | with nothing in flight no live object is still waiting for acknowledgements or counted commands |
| Own.DestroyedLast | zeromq-2.2.0/src/own.cpp:156-208 | in every run each object is told to terminate at most once, is destroyed after all its children, and then has an empty mailbox; a live object has a live owner |
| Own.DestroyedOnce | zeromq-2.2.0/src/own.cpp:192-213 | no step ever changes or reaches a destroyed object, so it is destroyed once |
| Own.AssertionsHold | zeromq-2.2.0/src/own.cpp:101-208 | in every run the assertions of the next handler hold: no second `term`, no unexpected acknowledgement, no seqnum overrun |
| Own.EveryRunKeepsInv | zeromq-2.2.0/src/own.cpp:56-208 | the invariant of all objects and mailboxes holds in every run |
| Own.StepKeepsInv | zeromq-2.2.0/src/own.cpp:56-208 | launching in two posts, commands counted for any live object, terminating or not, requests, terminations and every handled command keep the invariant |
| Own.HandlerAssertions | zeromq-2.2.0/src/own.cpp:101-208 | a command at the head of a mailbox meets the assertions of its handler |
| Own.Concerned | zeromq-2.2.0/src/own.cpp:101-190 | a handled command names children of the handler only, and nobody is told to terminate twice |
| Own.WaitingOfHandler | zeromq-2.2.0/src/own.cpp:173-190 | `term_acks` moves with the children told and not yet acknowledged |
| Own.ChildrenDone | zeromq-2.2.0/src/own.cpp:192-208 | when the counters allow an object to finish, each of its children has been destroyed and acknowledged |
| Own.MailboxEmpty | zeromq-2.2.0/src/own.cpp:192-208 | when the counters allow an object to finish, its mailbox is empty and no command is promised to it, the uncounted requests included |
| Own.OwnObject.CheckTermAcks | zeromq-2.2.0/src/own.cpp:192-208 | acknowledges to the owner and destroys exactly when terminating, all counted commands are processed and no acknowledgement is missing |
| Own.OwnObject.TellAll | zeromq-2.2.0/src/own.cpp:165-168 | one `term` to each owned object and to nobody else |
| Own.OwnObject.StartTermination | zeromq-2.2.0/src/own.cpp:156-171 | all owned objects are told, waited for and disowned |
| Own.OwnObject.ProcessCommand | zeromq-2.2.0/src/own.cpp:62-208 | the fields change as the handler function says, exactly the children concerned are told, and the object finishes exactly when it may |
| Own.OwnObject.Terminate | zeromq-2.2.0/src/own.cpp:138-154 | a root terminates itself, another asks its owner, a second call does nothing |
| OwnProgress.TerminationCompletes | zeromq-2.2.0/src/own.cpp:71-208 | after a live root was terminated, whatever was launched, promised or requested at the time, handling what is in flight comes to an end with every object of its tree destroyed |
| OwnProgress.ComesToRest | zeromq-2.2.0/src/own.cpp:71-208 | from every state that can be reached, commands can be handled and launches ended until nothing is in flight |
| OwnProgress.SettlingIsBounded | zeromq-2.2.0/src/own.cpp:71-208 | however it is scheduled, that takes a bounded number of steps |
| OwnProgress.AtRestChildrenAreOwned | zeromq-2.2.0/src/own.cpp:71-136 | with nothing in flight a living object owns exactly its living children |
| OwnProgress.OwnedRequestCompletes | zeromq-2.2.0/src/own.cpp:101-154 | an object that its owner has taken note of is destroyed after it asked to be terminated, with all that it owns |
| OwnProgress.RequestHandled | zeromq-2.2.0/src/own.cpp:101-122 | when a request comes to be handled the child is told if and only if it is owned; a child that was told before is not told again, and the request of one that is still being launched is lost |
| OwnProgress.RequestIsLost | zeromq-2.2.0/src/own.cpp:71-136 | it happens: a child runs and asks to be terminated before `own` is sent; in the end nothing is in flight and it is alive |
| OwnProgress.TerminateActs | zeromq-2.2.0/src/own.cpp:138-154 | a root is terminating afterwards; any other object has asked its owner, unless it is terminating already |
| OwnProgress.LaunchActs | zeromq-2.2.0/src/own.cpp:71-99 | a launched object has `plug` as its first command, and its owner is the launcher or the owner of the launcher |
| OwnProgress.RunIsLater | zeromq-2.2.0/src/own.cpp:101-213 | in every run termination is for good, owners do not change and nobody comes back |
| Wire.BERoundTrip | zeromq-2.2.0/src/wire.hpp:72-95 | every 64-bit length is read back from its eight bytes |
| Wire.BEUnique | zeromq-2.2.0/src/wire.hpp:84-95 | eight bytes are the encoding of the number read from them |
| Wire.PutUint64 | zeromq-2.2.0/src/wire.hpp:72-82 | eight bytes, most significant first, and no other byte of the buffer |
| Digits.BEByte | zeromq-2.2.0/src/wire.hpp:72-82 | on the wire the most significant byte comes first |
| Wire.FeedConcat | zeromq-2.2.0/src/decoder.hpp:93-140 | parsing does not depend on where the bytes are cut |
| Wire.FeedHeader | zeromq-2.2.0/src/decoder.cpp:49-118 | the header of any message, short form up to 254 and 0xff escape from 255 on, leads to its body being read |
| Wire.FeedFrame | zeromq-2.2.0/src/decoder.cpp:49-129 | parsing the frame of a message delivers that message |
| Wire.RoundTrip | zeromq-2.2.0/src/decoder.cpp:49-129 | parsing the frames of any list of messages delivers the list, in order |
| Wire.PrefixDelivered | zeromq-2.2.0/src/decoder.cpp:49-129 | any beginning of a valid stream delivers a beginning of the messages and is never an error; the whole stream delivers all |
| Wire.ReceivedKeeps | zeromq-2.2.0/src/encoder.cpp:53-90 | what is received has the body and the MORE flag of what was sent |
| WireLanguage.EveryStreamIsFrames | zeromq-2.2.0/src/decoder.cpp:49-129 | whatever bytes come in, they are frames, each length in either form, of which exactly the messages were delivered, and the beginning of a frame or a length of zero |
| WireLanguage.FailsExactlyAtZeroLength | zeromq-2.2.0/src/decoder.cpp:49-100 | the parser fails if and only if some frames are followed by a length of zero, in the short or in the escaped form |
| WireLanguage.FramesAreAccepted | zeromq-2.2.0/src/decoder.cpp:49-129 | every list of frames, short lengths escaped or not and with any flags byte, is parsed to the list of its messages |
| WireLanguage.FlagsTaken | zeromq-2.2.0/src/decoder.cpp:110-118 | bits 0 and 7 of the flags byte are taken over and the others set |
| WireLanguage.HeaderForm | zeromq-2.2.0/src/encoder.cpp:64-90 | a frame has the short form if and only if flags and body are less than 255 bytes, else the escape and eight bytes that say how many; only the MORE bit goes out |
| Encoder.Encoder.Supply | zeromq-2.2.0/src/encoder.cpp:61-66 | a message made available is sent behind everything before it |
| Encoder.Encoder.MessageReadyStep | zeromq-2.2.0/src/encoder.cpp:53-90 | fetching a message and scheduling its header keeps the bytes still to be sent; false exactly when the source is empty |
| Encoder.Encoder.WriteHeader | zeromq-2.2.0/src/encoder.cpp:68-87 | length, escape and flags bytes for every length |
| Encoder.Encoder.SizeReadyStep | zeromq-2.2.0/src/encoder.cpp:45-51 | scheduling the body keeps the bytes still to be sent |
| Encoder.Encoder.GetData | zeromq-2.2.0/src/encoder.hpp:64-125 | what is returned and what remains is what there was, for every buffer size, supplied or own; a short batch means that nothing remains |
| Encoder.Encoder.FillBatch | zeromq-2.2.0/src/encoder.hpp:64-125 | the batching loop, zero-copy or not |
| Encoder.Encoder.TakeChunk | zeromq-2.2.0/src/encoder.hpp:95-111 | zero-copy hands out exactly the chunk |
| Encoder.Encoder.CopyChunk | zeromq-2.2.0/src/encoder.hpp:113-124 | copying moves bytes from the chunk to the batch and loses none |
| Decoder.Decoder.Act | zeromq-2.2.0/src/decoder.cpp:49-129 | each state, run on its complete bytes, agrees with the parser; a complete message is delivered if and only if the destination has room, and otherwise stays to be offered again |
| Decoder.Decoder.GetUint64 | zeromq-2.2.0/src/wire.hpp:84-95 | the length read from the eight bytes |
| Decoder.Decoder.Advance | zeromq-2.2.0/src/decoder.hpp:106-108 | runs states until bytes are needed; stops only for an error or a destination without room |
| Decoder.Decoder.GetBuffer | zeromq-2.2.0/src/decoder.hpp:69-87 | a read in place is for exactly the rest of the field in progress, so it cannot run into the next one; the buffer offered otherwise takes more than that rest |
| Decoder.Decoder.ProcessDirect | zeromq-2.2.0/src/decoder.hpp:99-114 | the zero-copy path parses exactly the bytes read in place; a message is left over only without room for it |
| Decoder.Decoder.ProcessCopy | zeromq-2.2.0/src/decoder.hpp:116-140 | exactly the bytes reported as processed were parsed; fewer than all, and a message left over, only without room for it |
| Decoder.FailedStays | zeromq-2.2.0/src/decoder.hpp:160-163 | an error is final |
| Engine.NoError | zeromq-2.2.0/src/decoder.hpp:93-140 | no part of an encoded stream makes the decoder fail |
| Engine.Push | zeromq-2.2.0/src/zmq_engine.cpp:125-131 | the bytes given to the decoder are those parsed and those left to present again |
| Engine.InEvent | zeromq-2.2.0/src/zmq_engine.cpp:105-157 | one read event loses no byte, whether bytes are read or presented again, and with bytes there parses some unless the destination has no room |
| Engine.Round | zeromq-2.2.0/src/zmq_engine.cpp:105-193 | an event on each side keeps sender and receiver in step, and with room for all messages parses more until everything is parsed |
| Engine.Send | zeromq-2.2.0/src/zmq_engine.cpp:159-186 | a batch is fetched exactly when nothing is left to write, no byte is lost, and nothing is left on the wire only when nothing remains |
| Engine.Receive | zeromq-2.2.0/src/zmq_engine.cpp:105-157 | what the read event parses, keeps and leaves in the stream is what there was, the decoder does not fail, and with room for all messages it parses more |
| Engine.Transfer | zeromq-2.2.0/src/zmq_engine.cpp:105-193 | for all buffer sizes, cuts of the stream, refusals and in-place reads: what is delivered is a prefix of the messages sent; all of them once nothing is underway or refused, which is so at the latest after as many rounds with room as there are bytes |
| Engine.DeliveredIsParsed | zeromq-2.2.0/src/decoder.cpp:120-129 | messages parsed and delivered differ by the one being refused only |
| Engine.RoomForAll | zeromq-2.2.0/src/decoder.cpp:120-129 | a destination with room for all messages refuses none |
| Trie.Node.Add | zeromq-2.2.0/src/trie.cpp:58-132 | one copy of the word is added and no other word is affected |
| Trie.Node.AddBelow | zeromq-2.2.0/src/trie.cpp:115-131 | the same through the child for the first character |
| Trie.Node.Extend | zeromq-2.2.0/src/trie.cpp:67-113 | in every case the table is made to cover the character and every child keeps its character |
| Trie.Node.CreateChild | zeromq-2.2.0/src/trie.cpp:115-131 | a missing child is created empty and counted |
| Trie.Node.Rm | zeromq-2.2.0/src/trie.cpp:134-167 | true exactly when a copy exists; then one copy is removed and nothing else; otherwise no node changes |
| Trie.Node.RmBelow | zeromq-2.2.0/src/trie.cpp:147-166 | the same through the child for the first character |
| Trie.Node.Prune | zeromq-2.2.0/src/trie.cpp:155-164 | a child that became redundant is dropped, no word is lost, and live_nodes counts the non-null children |
| Trie.Node.Check | zeromq-2.2.0/src/trie.cpp:169-201 | true exactly when some stored word is a prefix of the data |
| Trie.Node.RedundantIsEmpty | zeromq-2.2.0/src/trie.cpp:203-206 | a redundant node holds no word |
| Trie.Node.UsefulHoldsWord | zeromq-2.2.0/src/trie.cpp:203-206 | a node that is not redundant holds some word, so no dead branch is kept |
| MessagePipe.OrderKept | zeromq-2.2.0/src/pipe.cpp:105-349 | parts taken, unread in the pipe and in the swap are in this order the parts accepted; not swapping means an empty swap; only whole messages are visible |
| MessagePipe.NeverOverfull | zeromq-2.2.0/src/pipe.cpp:204-249 | the pipe never holds more than hwm complete unread messages |
| MessagePipe.NoStall | zeromq-2.2.0/src/pipe.cpp:303-371 | a waiting writer faces an unread message or an `activate_writer` underway with a larger count |
| MessagePipe.NoLostWakeUp | zeromq-2.2.0/src/pipe.cpp:79-149 | a sleeping reader with no command underway has taken everything flushed |
| MessagePipe.QuietMeansUnflushed | zeromq-2.2.0/src/pipe.cpp:204-349 | the only way to be at rest with a waiting writer is to have complete messages that were not flushed |
| MessagePipe.WaterMarks | zeromq-2.2.0/src/pipe.cpp:396-397 | lwm is below hwm by half of it, but by no more than 1024; so 1 <= lwm <= hwm for every hwm above 0 |
| MessagePipe.NextMultiple | zeromq-2.2.0/src/pipe.cpp:125-126 | counts between two multiples of lwm have the same last multiple |
| MessagePipe.ReadKeepsCredits | zeromq-2.2.0/src/pipe.cpp:122-128 | reading keeps the writer informed of the last multiple of lwm, by a confirmed count or one underway |
| MessagePipe.StoreFailsWhen | zeromq-2.2.0/src/pipe.cpp:231-249 | the assertion on the store fails exactly when the part is the first to overflow and its record does not fit an empty swap |
| MessagePipe.NoRefusalInsideMessage | zeromq-2.2.0/src/pipe.cpp:204-249 | without swap a message accepted in part is accepted to its end |
| MessagePipe.DelimiterComesLast | zeromq-2.2.0/src/pipe.cpp:105-117 | with the delimiter the reader has got exactly the accepted parts, all of whole messages |
| MessagePipe.LogAfterStop | zeromq-2.2.0/src/pipe.cpp:251-301 | terminating drops the unfinished message and nothing else; nothing is accepted or dropped afterwards |
| MessagePipe.FreedOnce | zeromq-2.2.0/src/pipe.cpp:133-163 | an endpoint that was freed gets no command, and the pipe is freed after the writer dropped it |
| MessagePipe.ShutdownCompletes | zeromq-2.2.0/src/pipe.cpp:133-366 | at rest after either side terminated both ends are freed, or unflushed messages hold up a swapping writer |
| MessagePipe.StoreCanFail | zeromq-2.2.0/src/pipe.cpp:231-249 | a message fills the pipe and the next one does not fit an empty swap |
| SkippedFlush.LostExactlyWhenStarved | zeromq-2.2.0/src/pipe.cpp:267-349 | messages that a skipped flush left unpublished are never published, in any continuation, if and only if no news for the writer is on its way and no published part still to be read ends a multiple of lwm messages |
| SkippedFlush.StarvedForever | zeromq-2.2.0/src/pipe.cpp:267-349 | a starved connection stays so, or the reader terminates, and nothing more is published |
| SkippedFlush.StepKeepsStarved | zeromq-2.2.0/src/pipe.cpp:79-366 | every call of either end keeps that |
| SkippedFlush.StarvedMessagesNeverArrive | zeromq-2.2.0/src/pipe.cpp:105-131 | whatever follows, the reader gets a prefix of what was published before |
| SkippedFlush.NotStarvedPublishes | zeromq-2.2.0/src/pipe.cpp:303-320 | otherwise reads and commands alone lead to the drain that publishes everything complete |
| SkippedFlush.ReadTowardsCredit | zeromq-2.2.0/src/pipe.cpp:105-131 | a read sends the count that is due or brings it nearer |
| SkippedFlush.DrainPublishes | zeromq-2.2.0/src/pipe.cpp:303-320 | news of any count publishes everything complete, even if it frees no place in the pipe |
| SkippedFlush.DrainedIsFlushed | zeromq-2.2.0/src/pipe.cpp:312-320 | after the drain nothing complete is unpublished |
| SkippedFlush.FlushSkippedForever | zeromq-2.2.0/src/pipe.cpp:267-272 | it happens: two messages written and then flushed, with room for one |
| SkippedFlush.SwappingIsFlushed | zeromq-2.2.0/src/pipe.cpp:204-272 | a writer that flushes each message before the next one overflows never has anything unpublished while swapping |
| SkippedFlush.FlushingInTimeIsEnough | zeromq-2.2.0/src/pipe.cpp:204-349 | and its pipe never rests with messages in the swap |
| MessagePipe.DropIncomplete | zeromq-2.2.0/src/pipe.cpp:251-265 | removing the items of an unfinished message is removing its parts |
| MessagePipe.DrainKeeps | zeromq-2.2.0/src/pipe.cpp:312-318 | draining any number of parts from the swap keeps order, counts and the bound |
| MessagePipe.StepKeepsInv | zeromq-2.2.0/src/pipe.cpp:79-366 | every call of either end keeps the invariant of the connection |
| MessagePipe.EveryRunKeepsInv | zeromq-2.2.0/src/pipe.cpp:79-366 | the invariant holds in every run |
| MessagePipe.NoWakeUpAfterDelimiter | zeromq-2.2.0/src/pipe.cpp:79-149 | in every run a reader that took the delimiter is asleep and no wake-up is on its way to it |
| PipeFlow.WaitsOnlyWhenFull | zeromq-2.2.0/src/pipe.cpp:204-229 | in every run a writer that is not terminating is inactive, or swapping outside a drain, only with exactly hwm messages written and not confirmed |
| PipeFlow.PipeFillsUp | zeromq-2.2.0/src/pipe.cpp:204-249 | with nothing read at all, messages of any number of parts are accepted into the pipe until hwm of them are complete, and without limit if hwm is 0 |
| PipeFlow.SwapFillsUp | zeromq-2.2.0/src/pipe.cpp:204-249 | then parts are accepted into the swap as long as their records leave a byte of it free |
| PipeFlow.AcceptedExactlyWhen | zeromq-2.2.0/src/pipe.cpp:204-249 | a part is accepted, and then is the newest one, if and only if the writer is active and there is room in the pipe, or a swap not in use yet, or room for its record in the swap in use |
| PipeFlow.CheckAnswers | zeromq-2.2.0/src/pipe.cpp:204-229 | the answer is yes exactly when the writer is active and has room in the pipe, or a swap not in use yet, or room for the record in the swap in use; the swap is used from the first part that finds hwm messages unconfirmed |
| PipeFlow.CountIsTaken | zeromq-2.2.0/src/pipe.cpp:303-320 | the count is stored; a writer that uses its swap drains it until it is empty or the pipe is full, any other is active again |
| PipeFlow.DrainIsFinished | zeromq-2.2.0/src/pipe.cpp:322-349 | the swapping mode is left exactly when the swap is empty; a writer that goes on is active, one that is terminating has then published its delimiter |
| PipeFlow.CleanKeeps | zeromq-2.2.0/src/pipe.cpp:235-240 | a part loses nothing but the bit that says its content is shared |
| PipeFlow.DrainGoesOn | zeromq-2.2.0/src/pipe.cpp:312-318 | the drain moves the oldest parts and ends with an empty swap or with hwm messages not confirmed |
| PipeFlow.FlushPublishes | zeromq-2.2.0/src/pipe.cpp:267-272 | after a flush outside the swapping mode every complete message is published, and a reader that slept gets one wake-up |
| PipeFlow.LongestFinished | zeromq-2.2.0/src/pipe.cpp:251-265 | what a rollback leaves of the parts is their longest beginning of whole messages |
| PipeFlow.OnlyMultiplesAreSent | zeromq-2.2.0/src/pipe.cpp:125-131 | in every run the writer is told of multiples of lwm only |
| PipeFlow.ReaderCanAlwaysStop | zeromq-2.2.0/src/pipe.cpp:133-366 | in whatever state the connection is, the reader can stop, and the commands underway can be handled until both ends are freed |
| PipeFlow.CommandsFreeBoth | zeromq-2.2.0/src/pipe.cpp:303-366 | once the reader is terminating, the commands underway can be handled until both ends are freed |
| PipeFlow.ReaderStops | zeromq-2.2.0/src/pipe.cpp:133-142 | a reader that stops is not active and has told the writer once |
| PipeFlow.WriterStops | zeromq-2.2.0/src/pipe.cpp:274-301 | a writer that stops accepts nothing more; what it leaves ends in a published delimiter, or will when its swap is empty |
| PipeEnds.ReaderEnd.CheckRead | zeromq-2.2.0/src/pipe.cpp:79-103 | true exactly when an active reader has an unread part; a delimiter starts the shutdown |
| PipeEnds.ReaderEnd.Read | zeromq-2.2.0/src/pipe.cpp:105-131 | the oldest part, never the delimiter; a last part is counted, and the writer told exactly when the count is a multiple of lwm |
| PipeEnds.ReaderEnd.Terminate | zeromq-2.2.0/src/pipe.cpp:133-142 | asks the writer once to terminate |
| PipeEnds.WriterEnd.Check | zeromq-2.2.0/src/pipe.cpp:204-229 | answers and changes its mode as `PipeFlow.CheckAnswers` says |
| PipeEnds.WriterEnd.Write | zeromq-2.2.0/src/pipe.cpp:231-249 | the part goes to the pipe or the swap as decided, and only a last part is counted |
| PipeEnds.WriterEnd.Rollback | zeromq-2.2.0/src/pipe.cpp:251-265 | the parts of an unfinished message leave the pipe |
| PipeEnds.WriterEnd.Flush | zeromq-2.2.0/src/pipe.cpp:267-272 | publishes everything complete and wakes the reader exactly when it sleeps and there is something; does nothing while swapping |
| PipeEnds.WriterEnd.Terminate | zeromq-2.2.0/src/pipe.cpp:274-301 | rolls back, accepts nothing more and publishes the delimiter, at once or when the swap has been emptied |
| PipeEnds.WriterEnd.PutDelimiter | zeromq-2.2.0/src/pipe.cpp:286-300 | the delimiter is written as a complete item and flushed |
| PipeEnds.WriterEnd.Drain | zeromq-2.2.0/src/pipe.cpp:312-318 | moves parts until the pipe is full or the swap is empty |
| PipeEnds.WriterEnd.Activate | zeromq-2.2.0/src/pipe.cpp:303-320 | takes the count, drains and flushes as `PipeFlow.CountIsTaken` says |
| PipeEnds.WriterEnd.FinishActivation | zeromq-2.2.0/src/pipe.cpp:322-349 | leaves the swapping mode exactly when the swap is empty, and then sends the delimiter that was waiting or is active |
| PipeEnds.StoreIn | zeromq-2.2.0/src/swap.cpp:121-139 | a part that fits is appended to the swap of the pipe |
| PipeEnds.FetchFrom | zeromq-2.2.0/src/swap.cpp:141-158 | the oldest part leaves the swap of the pipe |
| PipeArray.PipeArray.PushBack | zeromq-2.2.0/src/array.hpp:99-104 | the item becomes the last and knows its index |
| PipeArray.PipeArray.Index | zeromq-2.2.0/src/array.hpp:131-134 | the stored index is where the item is |
| PipeArray.PipeArray.Erase | zeromq-2.2.0/src/array.hpp:106-115 | the last item takes the place of the erased one and all indexes stay right |
| PipeArray.PipeArray.Swap | zeromq-2.2.0/src/array.hpp:117-124 | two items change places and all indexes stay right |
| PipeArray.SwappedMembers | zeromq-2.2.0/src/array.hpp:117-124 | swapping keeps the members, each once |
| PipeArray.ErasedMembers | zeromq-2.2.0/src/array.hpp:106-115 | erasing removes one member and keeps the others, each once |
| PipeArray.SwappedPlaces | zeromq-2.2.0/src/array.hpp:117-124 | only the two places are touched, and swapping again is no change |
| PipeArray.ErasedPlaces | zeromq-2.2.0/src/array.hpp:106-115 | every item that stays is where it was, but for the last one, which fills the gap |
| FairQueue.BoundedWait | zeromq-2.2.0/src/fq.cpp:97-163 | with n pipes and none attached, a ready pipe not yet served has waited for at most n - 1 complete messages of others, across activations, deactivations, terminations and wraps of the cursor |
| FairQueue.AttachedIsServed | zeromq-2.2.0/src/fq.cpp:42-163 | a pipe attached with a message to read waits for at most one complete message of each pipe that was there |
| FairQueue.ActivatedIsServed | zeromq-2.2.0/src/fq.cpp:90-163 | so does a pipe that is activated with a message to read |
| FairQueue.ServedAtLast | zeromq-2.2.0/src/fq.cpp:97-163 | while a pipe is ready each receive hands out a part, and of n complete messages one is its own |
| FairQueue.AttachedActive | zeromq-2.2.0/src/fq.cpp:42-55 | a new pipe is active from the start, and nobody else changes between active and passive |
| FairQueue.ActivatedActive | zeromq-2.2.0/src/fq.cpp:90-95 | a pipe that is activated is active, and nobody else changes between active and passive |
| FairQueue.StepWaits | zeromq-2.2.0/src/fq.cpp:57-163 | each step serves the pipe or brings its turn nearer by the messages it hands out |
| FairQueue.MoreIsThere | zeromq-2.2.0/src/fq.cpp:109-112 | the assertion inside a message cannot fail |
| FairQueue.LookFinds | zeromq-2.2.0/src/fq.cpp:101-131 | a message is found exactly when an active pipe has one, and only empty pipes are deactivated |
| FairQueue.EveryRunKeepsInv | zeromq-2.2.0/src/fq.cpp:42-163 | in every run parts of different pipes are never interleaved inside a message |
| FairQueue.Conserved | zeromq-2.2.0/src/fq.cpp:97-139 | what was handed out from a pipe and what it still holds is what it held and what arrived, in order |
| FairQueue.FairQueue.Attach | zeromq-2.2.0/src/fq.cpp:42-55 | the pipe becomes the last active one |
| Departures.DeparturesArePassive | zeromq-2.2.0/src/fq.cpp:57-88 | in every run, while the queue is not terminating, a pipe that goes is passive and read to its end, so the assertion that it is not the pipe of a message in progress holds |
| Departures.EndedPipeGoes | zeromq-2.2.0/src/fq.cpp:97-139 | a pipe that has ended is read to its delimiter by a receive that finds nothing, and then it may go |
| Departures.NeverInterleaved | zeromq-2.2.0/src/fq.cpp:57-163 | in every run, terminating or not, parts of different pipes are never interleaved inside a message |
| Departures.RunOfQueue | zeromq-2.2.0/src/fq.cpp:42-163 | until it terminates the queue makes a run in which only passive pipes go, so that what `FairQueue` proves of such runs holds |
| Departures.StepKeepsInv | zeromq-2.2.0/src/fq.cpp:42-163 | every read, arrival, end, activation, attachment, termination and departure keeps pipes whose delimiter was read passive and empty |
| Departures.EveryRunKeepsInv | zeromq-2.2.0/src/fq.cpp:42-163 | so it is in every run |
| Departures.LookOnlyDeactivates | zeromq-2.2.0/src/fq.cpp:101-131 | looking for a message makes no pipe active, and passive only pipes with nothing to read |
| FairQueue.TerminatedKeepsInv | zeromq-2.2.0/src/fq.cpp:57-74 | what the departure of any pipe would do: a message in progress stays with the current pipe if and only if the one that goes is passive, or is another pipe while the current one is not the last active one or is moved to the first place |
| FairQueue.TerminatedKeepsActive | zeromq-2.2.0/src/fq.cpp:57-74 | what the departure of any pipe would do: the others stay active or passive if and only if it is passive or the last active one, or no pipe is passive |
| FairQueue.FairQueue.Terminated | zeromq-2.2.0/src/fq.cpp:57-74 | any pipe may leave, also an active one; the last pipe takes its place and zone and cursor are adjusted |
| FairQueue.FairQueue.Activated | zeromq-2.2.0/src/fq.cpp:90-95 | the pipe becomes active at the end of the active prefix |
| FairQueue.FairQueue.Deactivate | zeromq-2.2.0/src/fq.cpp:126-131 | the current pipe goes behind the active prefix and the cursor stays in range |
| FairQueue.FairQueue.Serve | zeromq-2.2.0/src/fq.cpp:116-124 | one part of the current pipe; the cursor moves on, with wrap, after the last part only |
| FairQueue.FairQueue.Recv | zeromq-2.2.0/src/fq.cpp:97-139 | the next part in turn; nothing exactly when no active pipe has a message |
| FairQueue.FairQueue.HasIn | zeromq-2.2.0/src/fq.cpp:141-163 | true exactly when an active pipe has a message or one is in progress |
| Dist.EveryRunKeepsInv | zeromq-2.2.0/src/dist.cpp:44-200 | in every run no pipe gets a part without all earlier parts of the message, and the active zone is the eligible zone between messages |
| Dist.SendKeepsInv | zeromq-2.2.0/src/dist.cpp:107-122 | sending a part, whichever pipes refuse it, keeps that |
| Dist.SentLog | zeromq-2.2.0/src/dist.cpp:107-181 | an active pipe that accepts stays up to date with the message |
| Dist.LoopTriesEachOnce | zeromq-2.2.0/src/dist.cpp:136-200 | in spite of the swaps in the loop each pipe that was active is written to exactly once and no other is |
| Dist.LoopZones | zeromq-2.2.0/src/dist.cpp:136-200 | a pipe that refuses becomes passive, every other pipe stays in its zone |
| Dist.LoopLogs | zeromq-2.2.0/src/dist.cpp:136-200 | exactly the active pipes that accept are given the part |
| Dist.LoopParts | zeromq-2.2.0/src/dist.cpp:136-200 | they receive it behind what they have |
| Dist.WillingGetsAll | zeromq-2.2.0/src/dist.cpp:47-200 | a pipe that accepts what is written to it gets every part sent since it became active, in order and once, or if it came in the middle of a message, every part from the next message on; whatever the other pipes do |
| Dist.SentZones | zeromq-2.2.0/src/dist.cpp:107-200 | after a part exactly the active pipes that accepted it are active, after a last part the waiting ones too |
| Dist.SentParts | zeromq-2.2.0/src/dist.cpp:107-200 | exactly the active pipes that accept get the part |
| Dist.AttachedZones | zeromq-2.2.0/src/dist.cpp:47-69 | a new pipe is active, or in the middle of a message waits for the next one; nobody else changes its zone |
| Dist.ActivatedZones | zeromq-2.2.0/src/dist.cpp:93-105 | so is a passive pipe that can be written to again |
| Dist.TerminatedKeepsZones | zeromq-2.2.0/src/dist.cpp:79-91 | a pipe going away leaves the others in their zones if and only if it stands in one of the places named by `MayGo` |
| Dist.TerminatedBreaksMessage | zeromq-2.2.0/src/dist.cpp:79-91 | elsewhere the next part can reach a pipe that did not get the first: shown for a run from the empty fan-out |
| Dist.LateComerIsReached | zeromq-2.2.0/src/dist.cpp:44-67 | that run: two pipes attached, a first part sent, a third pipe attached |
| Dist.Dist.Attach | zeromq-2.2.0/src/dist.cpp:44-67 | a new pipe is eligible, and active unless a message is in progress |
| Dist.Dist.Terminated | zeromq-2.2.0/src/dist.cpp:79-91 | any pipe may leave and the zones shrink; messages and zones stay right when it stood in one of those places |
| Dist.Dist.Activated | zeromq-2.2.0/src/dist.cpp:93-105 | a passive pipe is eligible again, and active unless a message is in progress |
| Dist.Dist.Write | zeromq-2.2.0/src/dist.cpp:188-200 | a pipe that refuses is put behind the eligible ones by two swaps |
| Dist.Dist.Distribute | zeromq-2.2.0/src/dist.cpp:124-181 | array and reference counts change as the loop function and the message model say |
| Dist.Dist.Send | zeromq-2.2.0/src/dist.cpp:107-122 | one part to the active pipes; after the last part all eligible pipes are active |
| MsgContent.CountsAreRight | zeromq-2.2.0/src/zmq.cpp:81-207 | after any operations the count of each shared content is the number of its holders; it is freed once, with its last holder, not before |
| MsgContent.CloseKeeps | zeromq-2.2.0/src/zmq.cpp:130-161 | closing gives up one reference, frees with the last, invalidates the handle and touches no other |
| MsgContent.MoveKeeps | zeromq-2.2.0/src/zmq.cpp:163-177 | the destination gets the handle of the source and gives up its own, the source is an empty message, no other handle changes, and each content has as many holders as before but for the one given up; a message moved to itself is given up |
| MsgContent.CopyKeeps | zeromq-2.2.0/src/zmq.cpp:179-207 | copying adds exactly the new holder, also for the first copy of an unshared content, and keeps the counts right if and only if it is not a long message copied to itself whose content has neither one nor three holders |
| MsgContent.CopyGivesTwo | zeromq-2.2.0/src/zmq.cpp:179-207 | both handles are valid and hold the same content if and only if they are different; a message copied to itself is lost |
| MsgContent.CopyTouchesLive | zeromq-2.2.0/src/zmq.cpp:179-207 | the content counted is not freed if and only if it is not copied to itself by its only holder |
| MsgContent.ReceivedKeeps | zeromq-2.2.0/src/decoder.cpp:109-118 | taking over the flags byte of a received long message keeps the counts right if and only if its bit 7 is clear, which an encoder makes sure of |
| MsgContent.ReceivedSharedLeaks | zeromq-2.2.0/src/decoder.cpp:109-118 | with bit 7 set, closing the message does not free its content |
| MsgContent.LeakHappens | zeromq-2.2.0/src/dist.cpp:158-181 | the leaking case happens: one long message and two pipes that refuse it |
| MsgContent.DistributeCounts | zeromq-2.2.0/src/dist.cpp:124-181 | the content ends with as many holders as pipes accepted, and the counts are right exactly when it is not the leaking case |
| MsgContent.DistributeSmall | zeromq-2.2.0/src/dist.cpp:136-143 | copies of a small message share nothing |
| MsgContent.HandedOver | zeromq-2.2.0/src/dist.cpp:145-156 | to a single pipe the reference is handed over |
| MsgContent.Messages.InitSize | zeromq-2.2.0/src/zmq.cpp:89-113 | up to 30 bytes are kept in the message, more in a new content of its own |
| MsgContent.Messages.Sub | zeromq-2.2.0/src/zmq.cpp:142-150 | subtracts one; false when no reference is left |
| MsgContent.Messages.Close | zeromq-2.2.0/src/zmq.cpp:130-161 | changes the store as `Closed` says; fails on an invalid message |
| MsgContent.Messages.Move | zeromq-2.2.0/src/zmq.cpp:163-177 | the destination holds what the source held, and the source is empty |
| MsgContent.Messages.Copy | zeromq-2.2.0/src/zmq.cpp:179-207 | changes the store as `Copied` says, a message copied to itself included; fails on invalid messages |
| MsgContent.Messages.Share | zeromq-2.2.0/src/dist.cpp:158-166 | adds the references of the handles to come |
| MsgValues.SharingDoesNotShow | zeromq-2.2.0/src/zmq.cpp:81-207 | after any operations each message has the bytes and the MORE flag it would have if every message had bytes of its own, and the content of a valid message has not been freed |
| MsgValues.StepValues | zeromq-2.2.0/src/zmq.cpp:81-207 | each operation does to the bytes of the messages what it does when nothing is shared |
| MsgValues.DistributeValues | zeromq-2.2.0/src/dist.cpp:136-200 | exactly the pipes that accept get a message with the bytes and the flag of the one handed out, the sender keeps an empty one, and no other message changes |
| YQueue.YQueue.constructor | zeromq-2.2.0/src/yqueue.hpp:51-60 | the empty queue on one chunk |
| YQueue.YQueue.Push | zeromq-2.2.0/src/yqueue.hpp:95-114 | the elements keep their addresses and one is added at the end; chunks stay partitioned into live, spare and freed once |
| YQueue.YQueue.Unpush | zeromq-2.2.0/src/yqueue.hpp:123-145 | the newest element goes, the others keep addresses and values |
| YQueue.YQueue.Pop | zeromq-2.2.0/src/yqueue.hpp:148-163 | the oldest element goes; an emptied chunk becomes the spare and the old spare is freed |
| YQueue.YQueue.Front | zeromq-2.2.0/src/yqueue.hpp:82-85 | the oldest element |
| YQueue.YQueue.SetBack | zeromq-2.2.0/src/yqueue.hpp:89-92 | writes the newest element and no other |
| YQueue.YQueue.Destroy | zeromq-2.2.0/src/yqueue.hpp:63-78 | every chunk allocated has been freed, once |
| YQueue.SlotsDistinct | zeromq-2.2.0/src/yqueue.hpp:51-163 | no two elements have the same address |
| YQueue.SlotsPush | zeromq-2.2.0/src/yqueue.hpp:95-114 | moving the end on adds one address |
| YQueue.SlotsPop | zeromq-2.2.0/src/yqueue.hpp:148-163 | moving the beginning on, across chunks too, removes the first address |
| YQueue.SlotsShrink | zeromq-2.2.0/src/yqueue.hpp:123-145 | moving the end back into the chunk before removes the last address |
| Ctx.ShutdownOnce | zeromq-2.2.0/src/ctx.cpp:115-216 | in every interleaving `stop` is sent once, when the context terminates and the last socket is gone; `done` is sent at most once, after every socket was destroyed |
| Ctx.SlotsAreUnique | zeromq-2.2.0/src/ctx.cpp:161-216 | live sockets have different slots, disjoint from the empty ones, and the total is constant |
| Ctx.NeverStuck | zeromq-2.2.0/src/reaper.cpp:86-121 | a terminating context whose reaper has not finished always has something to do or a socket to be closed or destroyed |
| Ctx.TerminateCompletes | zeromq-2.2.0/src/ctx.cpp:115-216 | from every state that can be reached, whatever sockets are open and however often the wait was interrupted, `terminate` can be brought to its end by closing and destroying sockets, and then every socket was destroyed |
| Ctx.FinishedForGood | zeromq-2.2.0/src/reaper.cpp:110-121 | after `done` nothing changes any more but the terminating thread |
| Ctx.DoneMeansEmpty | zeromq-2.2.0/src/reaper.cpp:86-121 | when the reaper finishes no command is left for it |
| Ctx.EveryRunKeepsInv | zeromq-2.2.0/src/ctx.cpp:115-216 | slots, reaps, the socket count of the reaper and stops stay consistent in every run |
| Ctx.InitIsFine | zeromq-2.2.0/src/ctx.cpp:70-81 | a new context meets the invariant |
| Ctx.Ctx.CreateSocket | zeromq-2.2.0/src/ctx.cpp:161-196 | a socket is given if and only if the context is not terminating, a slot is free and the type exists: it takes a free slot; ETERM and EMFILE are reported exactly in their cases, and otherwise nothing changes |
| Ctx.Ctx.DestroySocket | zeromq-2.2.0/src/ctx.cpp:198-216 | the slot is free again, and the reaper is stopped exactly when this was the last socket of a terminating context |
| Ctx.Ctx.SetTerminating | zeromq-2.2.0/src/ctx.cpp:123-140 | stops the reaper exactly when no socket is left |
| Ctx.ReaperThread.ProcessStop | zeromq-2.2.0/src/reaper.cpp:86-96 | finishes exactly when nothing is being reaped |
| Ctx.ReaperThread.ProcessReaped | zeromq-2.2.0/src/reaper.cpp:110-121 | one socket less; finishes exactly when it was the last and the reaper was told to stop |
| XSub.WholeMessages | zeromq-2.2.0/src/xsub.cpp:88-166 | for any mix of polls and receives the parts delivered, with the one prefetched, are the parts let through in order; none lost or doubled; all parts of a message share its fate |
| XSub.FilteredByFirstPart | zeromq-2.2.0/src/xsub.cpp:88-172 | with fixed subscriptions a message is let through exactly when its first part matches |
| XSub.RecvKeepsInv | zeromq-2.2.0/src/xsub.cpp:88-126 | a receive keeps that and loses no part of the input |
| XSub.HasInKeepsInv | zeromq-2.2.0/src/xsub.cpp:128-166 | a poll keeps that and loses no part of the input |
| XSub.PollKeepsItsWord | zeromq-2.2.0/src/xsub.cpp:88-166 | after a poll that said yes the next receive gets a part, whatever the subscriptions have become; after one that said no all input was used up |
| XSub.XSub.Match | zeromq-2.2.0/src/xsub.cpp:168-172 | true exactly when a subscription is a prefix of the body |
| XSub.XSub.Send | zeromq-2.2.0/src/xsub.cpp:58-80 | first byte 1 adds one copy of the rest, 0 takes one back if there is one, anything else is dropped |
| XSub.XSub.NextMatching | zeromq-2.2.0/src/xsub.cpp:101-125 | whole messages are skipped up to the first that matches |
| XSub.XSub.Recv | zeromq-2.2.0/src/xsub.cpp:88-126 | the next part let through; nothing only when the input is used up |
| XSub.XSub.HasIn | zeromq-2.2.0/src/xsub.cpp:128-166 | true exactly when the next receive gets a part |
| Bmt.RoundTrip | RefereePkg/src/model/TaskSpec.java:603-629 | for every list with at least one object, of any length, the text restores the four places, the configuration and the objects in order if and only if no name has a space or one of `<>,()` and the final place is not empty |
| Bmt.RoundTripEmpty | RefereePkg/src/model/TaskSpec.java:603-629 | an empty list is restored as empty and the shared places stay as they were |
| Bmt.TokensPrinted | RefereePkg/src/model/TaskSpec.java:1164-1203 | what the parser sees of a printed list |
| Bmt.ReadIsPrintable | RefereePkg/src/model/TaskSpec.java:1164-1203 | whatever the text, the names read from it are printable |
| Bmt.PrintedIsUnique | RefereePkg/src/model/TaskSpec.java:603-629 | the text is the only one that has these names between these delimiters |
| Bmt.MarksPrinted | RefereePkg/src/model/TaskSpec.java:603-629 | angle brackets around the whole, commas between the places, and the objects in parentheses with commas |
| Bmt.AllowedNames | RefereePkg/src/model/TaskSpec.java:1187-1188 | a name is allowed if and only if it has no space and none of the five delimiters |
| Bmt.TaskSpec.RemoveSpaces | RefereePkg/src/model/TaskSpec.java:37-44 | all spaces go and everything else stays in order |
| Bmt.TaskSpec.GetTaskSpecString | RefereePkg/src/model/TaskSpec.java:603-629 | the text of the list; `BMT<>` for an empty one |
| Bmt.TaskSpec.ParseTaskSpecString | RefereePkg/src/model/TaskSpec.java:1164-1203 | for every text the objects are the names from the sixth to the third last, in order, and the places the names around them; with fewer than eight names there is no object and the places stay |

## Left out

- PipeEnds.WriterEnd.Rollback: excludes an unfinished message in the swap; what `swap_t::rollback` does then is the subject of `SwapRollback.RollsBackExactlyWhen`, and parts of the message that were moved to the pipe already would stay there.
- PipeEnds.WriterEnd.Terminate: excludes an unfinished message in the swap for the same reason.
- MessagePipe.ShutdownCompletes: sinks are taken to stop reading after `terminate`, as the code needs; `process_activate_reader` would make a terminating reader active again.
- MessagePipe.EveryRunKeepsInv: a flush and the command it sends are one step, as is every other call of an endpoint except `process_activate_writer`; interleavings inside the underlying pipe are those of `YPipe.EveryRunIsSafe`.
- MessagePipe.FreedOnce: the messages still in a pipe when it is freed are not followed to their contents; events to the sinks are not modelled.
- MessagePipe.OrderKept: counts of messages are unbounded where the code has 64 bits.
- Own.WholeTreeGone: counters are unbounded, so fewer than 2^32 counted commands per object are assumed.
- Own.StepKeepsInv: incrementing `sent_seqnum` and posting `plug` or `own` is one step, and extra acknowledgements that derived classes register (`register_term_acks`) are not modelled. 
- YQueue.YQueue.Push: `push`, `pop` and the others run one at a time; that the two threads of `YPipe` touch different elements is not stated on the heap, nor is the atomic exchange of the spare chunk.
- Mailbox.Mailbox.Recv: waiting ends with a command, a timeout or an interruption; how long it takes is not modelled. The signaler is a counter of bytes.
- Encoder.Encoder.GetData: the offset of the first message in a batch is left out; `beginning` marks the last part of a message.
- Wire.RoundTrip: lengths stay below 2^64 - 1, as a frame needs; the limits of `size_t` and failing allocations are left out.
- Wire.FeedFrame: only body and MORE flag are claimed; for bit 7 of the flags byte see `MsgContent.ReceivedKeeps`.
- Trie.Node.Add: reference counts of words are unbounded where the code has 32 bits; walking over all words is left out.
- FairQueue.FairQueue.Terminated: the acknowledgements of termination are left out.
- FairQueue.EveryRunKeepsInv: only passive pipes go, which is what happens until the queue terminates (`Departures.RunOfQueue`).
- Departures.DeparturesArePassive: a terminating queue is taken to be read no more, because its socket is closed; there active pipes go, and the zones need not stay right.
- FairQueue.FairQueue.Terminate: that the pipes are told to terminate is left out.
- FairQueue.BoundedWait: attaching is excluded, because every new pipe adds a turn.
- Dist.EveryRunKeepsInv: pipes terminate only where `Dist.TerminatedKeepsZones` shows that the zones are kept.
- Dist.Dist.Distribute: which pipes refuse is an input, the flow control behind the refusals being that of `PipeEnds`; the delimiter is never distributed.
- MsgContent.CountsAreRight: a message is copied to itself only where `MsgContent.CopyKeeps` shows that the counts stay right; deallocation functions of the user are left out; counts are unbounded.
- Ctx.TerminateCompletes: that applications close their sockets and that sockets get to be destroyed are steps that can be taken, not promises.
- OwnProgress.TerminationCompletes: one schedule is given; by `OwnProgress.SettlingIsBounded` no other one goes on for ever, and `Own.WholeTreeGone` holds where it ends. That threads do run is taken for granted.
- Ctx.ShutdownOnce: one thread terminates the context; stop commands to the sockets, I/O threads and endpoints are left out.
- XSub.XSub.Recv: the fair queue below is a queue of parts of whole messages, which `FairQueue.EveryRunKeepsInv` justifies.
- Bmt.TaskSpec.ParseTaskSpecString: other kinds of lists, `null` configurations, logging and notifications are left out. Texts of BTT and CTT lists are nested and cannot be restored by this parser.
- Load balancing (`lb.cpp`): the same prefix and cursor as in fair queueing, with less to say.
- Options, addresses, pollers, timers, multicast, and everything in Swing: input and output, or facts about one branch.
