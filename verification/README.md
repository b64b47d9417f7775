# Verified model of the byte pipeline

This project models, in Dafny, the byte pipeline that every process of the repository is built on, and
the state machines that sit on top of it, and proves what they promise for every run.

The layers, from the bottom up:

1. **Copy-on-write buffers** (`CowMemory`, `CowHeap`, `WrappedPool`). Backing blocks, reference-count
   cells and handles are explicit; handles share backings and detach before they write. Proved: the
   shared, counted memory behaves as if every handle owned a private array.
2. **Stream buffers** (`Streams`, `ReadBuffers`, `WriteBuffers`). `Streams` gives `read_buffer` and
   `write_buffer` a value semantics and proves that they conserve bytes; the two classes run on the
   copy-on-write memory and are proved to compute exactly that semantics. All later handlers use the values.
3. **Framing** (`Bytes`, `Wire`, `Parsing`). The reference parse of a byte stream into length-prefixed messages,
   and the reading position of a reader in the middle of such a stream.
4. **Logging** (`Loggers`, `InputCxns`, `Bits`, `Collectors`, `LogServers`, `Archives`, `EndToEnd`, `LogSystems`).
   Producers, the log server's fan-out, the archiving client with rotation, crash and repair, and the theorem
   that connects the first to the last. `LogSystems` puts any number of producers, the server, any subscribers
   and the archive together: its steps keep the links between them, so that the theorem holds of every run.
5. **The connector** (`BitcoinHandlers`, `PeerSets`, `Registries`, `CtrlHandlers`). Peer connections,
   the set of active peers, the registered messages and the control channel.
6. **The getaddr client** (`Reconnects`, `GetaddrRounds`). The reconnect machine and the capped senders.

System calls are nondeterministic: a callback is given the answers of `recv` and `write` as a finite
script (any chunking, any partial write, any error), after which the kernel answers EAGAIN. libev is a
set of armed events or a timer, and callbacks that may come in any order. Clocks, random numbers and
nonces are parameters. Integers of 32 bits wrap where the code lets them.

Each class has an invariant `Valid()` that every operation keeps, so what a lemma says of a valid
object it says of every reachable state. In `BitcoinHandlers.NoLostWakeUp`, `BitcoinHandlers.DeafIffEarly`
and `Registries.TicketStands` the invariant is the result: they read it back in the terms of the property,
and the work is in the operations that keep it.

Where the code falls short of what one would expect, the exact condition is proved, and a run or an input
shows the failure:

- A log frame of length 0 stops the log server's input handler for good; it delivers everything
  exactly when no frame received is empty (`InputCxns.Delivered`, `InputCxns.EmptyFrame`). Producers
  never make one: every event they log has a type and a time.
- verbatim takes an empty frame for a disconnect and exits, unless a signal interrupts it just there
  (`Archives.PrintedAll`, `Archives.EmptyFrameExits`).
- A bitcoin connection whose first message has no payload stalls, and only such a connection does
  (`BitcoinHandlers.HandledIsParsed`, `BitcoinHandlers.EmptyFirst`).
- An outbound bitcoin connection for which anything is queued before its version has been flushed
  never reads, and only such a connection does not (`BitcoinHandlers.DeafIffEarly`,
  `BitcoinHandlers.EarlySend`).
- A REGISTER erases the table named by the old registration id although tables are named by handler
  id: exactly that table goes (`CtrlHandlers.Controller.ReceiveHeader`), and it is another handler's when
  that handler's id is the registration id (`CtrlHandlers.ForeignErase`).
- The id 0 is sent back for a valid registration only after the id counter has wrapped
  (`Registries.Registry.Register`), which takes 2^32 - 1 registrations (`Registries.WrapsAround`).
- logtruncate's inner loop stores the second part of a length that arrives in pieces in front of the
  first, so that the length is right whatever was in memory exactly when the first read returns all of
  it (`Archives.LengthIsRight`), and the repair is right for every file exactly when no first read is
  short (`Archives.SafeIffWhole`, `Archives.ShortReadLosesFrame`).
- logtruncate adds 4 to a length in 32 bits: a frame of 2^32 - 4 bytes or more trips its assert, and
  nothing else does (`Archives.CutIsRight`, `Archives.LongFrameAborts`).

## Model

| member | source | states |
|---|---|---|
| `CowMemory.RoundingIsLeast` | shared/src/mmap_buffer.cpp:14-26 | a rounded size is the least non-zero multiple of the page that fits |
| `CowMemory.SharingIsExact` | shared/src/alloc_buffer.cpp:40-84 | in every reachable memory each count cell is the number of live handles on its backing, every backing has a handle, and no two backings share a cell |
| `CowMemory.Attach` | shared/src/alloc_buffer.cpp:22-38 | giving a null handle a new counted backing changes what that handle reads and nothing else |
| `CowMemory.Join` | shared/src/alloc_buffer.cpp:40-49 | a copy that bumps the shared count reads like its source; no other handle changes |
| `CowMemory.HandOver` | shared/src/alloc_buffer.cpp:51-60 | a move leaves the count alone, the destination reads the old bytes and the source nothing |
| `CowMemory.Leave` | shared/src/alloc_buffer.cpp:71-84 | one of several users leaving drops the count by one and releases nothing |
| `CowMemory.Release` | shared/src/alloc_buffer.cpp:71-84 | the last user leaving releases block and cell, and no other handle reads differently |
| `CowMemory.Exchange` | shared/src/alloc_buffer.cpp:62-69 | swapping two handles swaps what they read and keeps every count |
| `CowMemory.Overwrite` | shared/src/alloc_buffer.cpp:131-147 | a write through an unshared handle is seen by that handle only |
| `CowMemory.Regrow` | shared/src/alloc_buffer.cpp:98-111 | moving an unshared block to a new address and size keeps the invariant and every other handle |
| `CowMemory.Detach` | shared/src/alloc_buffer.cpp:131-147 | copying a shared block for one user drops the old count by one and changes nobody's bytes |
| `CowHeap.Heap.Construct` | shared/src/alloc_buffer.cpp:18-38 | a new handle reads zeros of the size its class allocates; all others are unchanged |
| `CowHeap.Heap.CopyConstruct` | shared/src/alloc_buffer.cpp:40-49 | the copy reads the source's bytes as a private array would |
| `CowHeap.Heap.MoveConstruct` | shared/src/alloc_buffer.cpp:51-60 | the new handle reads the source's bytes, the source becomes null |
| `CowHeap.Heap.Assign` | shared/src/alloc_buffer.cpp:62-69 | assignment by copy and swap: the destination reads the source's bytes, its old backing loses one user |
| `CowHeap.Heap.MoveAssign` | shared/src/mmap_buffer.cpp:73-81 | assignment from a moved argument: destination reads the bytes, source becomes null; moved to itself an object stays what it is |
| `CowHeap.Heap.Destroy` | shared/src/alloc_buffer.cpp:71-84 | the handle is gone, every other handle reads what it read; the invariant makes the release exact |
| `CowHeap.Heap.AllocRealloc` | shared/src/alloc_buffer.cpp:86-127 | in the unchanged, null, unshared and shared arms alike: common prefix kept, rest zero, other sharers undisturbed |
| `CowHeap.Heap.MmapRealloc` | shared/src/mmap_buffer.cpp:106-143 | the same for page-rounded mappings |
| `CowHeap.Heap.CowRealloc` | shared/src/alloc_buffer.cpp:114-126 | the temporary-copy arm of a shared realloc resizes one handle's bytes and leaves no trace of the temporary |
| `CowHeap.Heap.Ptr` | shared/src/mmap_buffer.cpp:145-163 | after ptr() the handle is the only user of its backing, and nobody's bytes changed; null is refused |
| `CowHeap.Heap.Write` | shared/src/alloc_buffer.cpp:131-147 | a write patches this handle's bytes and no other's; null is refused without effect |
| `CowHeap.Heap.Run` | shared/src/alloc_buffer.cpp:40-147 | for every legal run of construct, copy, move, assign, realloc, write and destroy over any number of handles, the heap ends where the private-array semantics ends |
| `CowHeap.Isolation` | shared/src/alloc_buffer.cpp:40-147 | a handle that no operation of a run targets reads the same at the end as at the start |
| `CowHeap.AllReleased` | shared/src/mmap_buffer.cpp:83-104 | when the last handle is gone no block and no count cell is left |
| `WrappedPool.Pool.Construct` | shared/src/wrapped_buffer.cpp:20-36 | the representation is chosen by size, the content is zero, at most one representation is non-null |
| `WrappedPool.Pool.CopyConstruct` | shared/src/wrapped_buffer.cpp:38-47 | the copy reads the source's bytes; no other buffer changes |
| `WrappedPool.Pool.MoveConstruct` | shared/src/wrapped_buffer.cpp:49-56 | the new buffer reads the source's bytes, the source becomes null, no other buffer changes |
| `WrappedPool.Pool.Assign` | shared/src/wrapped_buffer.cpp:58-64 | assignment across representations, by copy and swap |
| `WrappedPool.Pool.Destroy` | shared/src/wrapped_buffer.cpp:66-71 | the buffer and its part are gone, all others unchanged |
| `WrappedPool.Pool.Realloc` | shared/src/wrapped_buffer.cpp:73-107 | in all six representation cases: the first min(old, new) bytes are kept, the rest is zero, the size is at least the requested one, no other buffer changes |
| `WrappedPool.Pool.SwitchRepresentation` | shared/src/wrapped_buffer.cpp:73-107 | crossing the threshold in either direction keeps the common prefix and deletes the old part |
| `WrappedPool.Pool.Write` | shared/src/wrapped_buffer.cpp:109-116 | a write through ptr() reaches this buffer only |
| `WrappedPool.AllocSize` | shared/src/wrapped_buffer.cpp:73-107 | the size a request gets is never less than the request |
| `WrappedPool.AllocSizeIsLeast` | shared/src/wrapped_buffer.cpp:20-36 | up to 50000 bytes the size granted is the one asked for, beyond that the least number of whole pages that fits |
| `Streams.DoRead` | shared/src/read_buffer.cpp:10-44 | one read keeps cursor plus to_read, fits the buffer, and reports exactly how far the cursor moved |
| `Streams.DoReadConserves` | shared/src/read_buffer.cpp:10-44 | window followed by staging area afterwards is window followed by staging area before, followed by what recv returned: nothing lost, repeated or reordered |
| `Streams.Fill` | shared/src/read_buffer.cpp:10-48 | the read loop stops with a full window, or with an empty staging area when recv has no data; for every chunking the bytes come in in order |
| `Streams.DoWriteConserves` | shared/src/write_buffer.cpp:13-37 | one write takes exactly the accepted bytes off the front, the running total stays the sum over the queue, and a queue with bytes left is not empty |
| `Streams.AppendQueues` | shared/src/write_buffer.cpp:39-47 | an append adds the buffer's first bytes, as they are now, behind everything pending |
| `Streams.Drain` | shared/src/write_buffer.cpp:10-37 | the write loop computes exactly the loop on values: which bytes leave, how many answers of write() are used, and with which return value it stops |
| `Streams.FlushWrites` | shared/src/write_buffer.cpp:10-37 | the loop on non-empty buffers, tied to the answers: each successful write moves at least one byte and no more than it allows, and the loop stops with bytes left only at an answer that took none |
| `Streams.WrittenAll` | shared/src/write_buffer.cpp:10-37 | as many successful writes as there are bytes empty the queue |
| `ReadBuffers.ReadBuffer.DoRead` | shared/src/read_buffer.cpp:10-48 | on shared memory do_read computes exactly the value semantics and touches no buffer but its own |
| `ReadBuffers.ReadBuffer.Refill` | shared/src/read_buffer.cpp:19-30 | recv is called only when the staging area is exhausted |
| `ReadBuffers.ReadBuffer.ExtractBuffer` | shared/src/read_buffer.cpp:68-70 | the extracted buffer is a new one with the current bytes |
| `ReadBuffers.ReadBuffer.Drive` | shared/src/read_buffer.cpp:10-74 | over every sequence of cursor, to_read, do_read and extract calls the state is that of a private buffer, every buffer handed out on the way still shows what it showed when it was handed out, and no other buffer of the process has changed |
| `WriteBuffers.WriteBuffer.AppendBytes` | shared/src/write_buffer.cpp:39-41 | the bytes are copied into a buffer of their own and queued last; empty data throws |
| `WriteBuffers.WriteBuffer.AppendShared` | shared/src/write_buffer.cpp:43-47 | a shared buffer is queued with its content at append time |
| `WriteBuffers.WriteBuffer.DoWrite` | shared/src/write_buffer.cpp:13-37 | on shared memory do_write computes the value semantics; accepted bytes followed by pending bytes stay everything appended |
| `WriteBuffers.WriteBuffer.OwnerWrites` | shared/includes/write_buffer.hpp:28-44 | whatever the owner later writes to its handle, what is queued does not change |
| `WriteBuffers.DoWriteCases` | shared/src/write_buffer.cpp:25-34 | the front container advances or is popped, exactly when it is used up |
| `Wire.ParseIsExact` | logserver/src/input_cxn.cpp:50-86 | the reference parse loses nothing and leaves no whole message over |
| `Wire.ParseIsUnique` | logserver/src/input_cxn.cpp:50-86 | any split of a stream into messages and a rest is the parse: framing does not depend on chunking |
| `Wire.ParseIsMonotone` | logserver/src/input_cxn.cpp:50-86 | more bytes only ever complete more messages |
| `Wire.PrefixIsRight` | shared/src/logger.cpp:90-92 | a length prefix equals the bytes that follow it exactly when the body is shorter than 2^32 |
| `Wire.DecodeEncode` | logclient/verbatim.cpp:103-140 | reading back the frames of a written log gives the bodies, then whatever follows them |
| `Wire.EncodeDecode` | tools/src/logtruncate.cpp:96-142 | writing out the frames of a stream gives back the stream's frame-aligned prefix |
| `Wire.PrefixFrames` | logclient/verbatim.cpp:103-140 | a prefix of a framed stream parses to a prefix of its frames |
| `Bytes.ByteOrders` | shared/includes/bitcoin.hpp:21-34 | the network order is the number with the most significant byte first, the bitcoin order the one with the least significant byte first |
| `Wire.LengthField` | shared/includes/bitcoin.hpp:26-34 | where each of the three headers has its length, and in which byte order |
| `Wire.BitcoinRoundTrip` | shared/includes/bitcoin.hpp:26-34 | a message built of magic, command, length, checksum and payload is one message, its fields read back, and the parse of any stream that starts with it finds it first |
| `Parsing.ParsedAll` | connector/src/command_handler.cpp:292-327 | a reader with nothing staged that still wants bytes has done exactly the parse of everything received |
| `Parsing.MessageParsed` | connector/src/command_handler.cpp:286-288 | a full payload window is exactly one message, and the reader stands at the next header |
| `Loggers.PrintAll` | shared/includes/logger.hpp:131-157 | the arguments are printed in order with their separators behind what was there, whatever the buffer grows to |
| `Loggers.StatusReadBack` | shared/src/logger.cpp:72-131 | type, time, handle, update, addresses, text length and text of a connection event are where its format puts them |
| `Loggers.MessageReadBack` | shared/src/logger.cpp:133-177 | type, time, id, direction and message of a message event are where its format puts them |
| `Loggers.TextBodyReadBack` | shared/includes/logger.hpp:159-192 | a text event starts with its type and its time |
| `Loggers.TextReadBack` | shared/includes/logger.hpp:131-157 | every argument of a text event stands in its place, a blank behind each but the last, a NUL behind that |
| `Loggers.Logger.LogStatus` | shared/src/logger.cpp:72-131 | one framed connection event is added at the end of the stream; the cursor stays inside the store |
| `Loggers.Logger.LogMessage` | shared/src/logger.cpp:133-177 | one framed message event is added at the end of the stream |
| `Loggers.Logger.LogText` | shared/includes/logger.hpp:159-192 | a text event comes after everything stored before it, although it does not go through the store |
| `Loggers.Logger.Reserve` | shared/src/logger.cpp:78-84 | a store without room is handed over whole, in order, and replaced by one with room |
| `Loggers.Logger.IoCallback` | shared/src/logger.cpp:38-57 | the write loop, tied to the answers: what the socket took is added to what was sent also if the connection then fails, it fails exactly at a failed write, and WRITE stays armed exactly while bytes are pending |
| `Collectors.Collector.Append` | logserver/src/collector.cpp:10-38 | exactly the interested consumers get the record, exactly those it would push over the limit are gone, every survivor's queue is otherwise untouched, and no consumer's history changes |
| `Collectors.SparedMeans` | logserver/src/collector.cpp:19-37 | a consumer that does not ask for a record is left alone; one that does gets it as its newest, and goes if and only if it is then over the limit |
| `Collectors.StaysIffFits` | logserver/src/collector.cpp:19-37 | over any records a consumer stays if and only if what it asked for fits on top of what is queued for it |
| `Collectors.Collector.Offer` | logserver/src/collector.cpp:19-31 | the first loop pushes to the interested, arms WRITE and collects exactly the oversized |
| `Collectors.Collector.Disconnect` | logserver/src/collector.cpp:33-37 | the second loop deletes exactly the collected ones |
| `Collectors.Collector.AddConsumer` | logserver/src/collector.cpp:55-58 | a new consumer, with a name no consumer ever had, starts with nothing, from the records yet to come; all others stay as they are |
| `Collectors.Collector.Retire` | logserver/src/collector.cpp:60-62 | only this consumer goes, and the collector stays in order |
| `Collectors.Collector.IoCallback` | logserver/src/output_cxn.cpp:86-123 | every other consumer is untouched; this one is deleted exactly if the write loop stopped at a failed write or one that took nothing, and otherwise is what Service makes of it; what its socket took is recorded in either case |
| `Collectors.Service` | logserver/src/output_cxn.cpp:86-123 | the write loop, tied to the answers, then the next record framed or WRITE disarmed; bytes sent, then pending, then the encoded queue stay the encoding of all interesting records since it joined |
| `Collectors.ServedProgress` | logserver/src/output_cxn.cpp:86-123 | a callback whose writes succeed sends everything pending; then the oldest record is framed as its only pending bytes and leaves the queue, or with none left WRITE is disarmed |
| `Collectors.ServeAll` | logserver/src/output_cxn.cpp:86-123 | progress: after one such callback more than there are records in its queue, a consumer was sent the frames of every record it asked for since it joined; no other consumer is touched |
| `Collectors.PopOk` | logserver/src/collector.cpp:40-53 | popping takes the oldest record and frames it as length + 4, source id, data, keeping order and total_size |
| `Collectors.TaggedReadBack` | logserver/src/output_cxn.cpp:109-115 | the source id, in network order, and the record are read back from a body |
| `Collectors.PushOk` | logserver/src/collector.cpp:19-31 | queueing a wanted record keeps conservation, total_size and the bound |
| `Collectors.TakenOk` | logserver/src/output_cxn.cpp:86-123 | whatever the socket of a consumer took, also before it died, is a first part of the frames of the wanted records since it joined |
| `Collectors.KeptAllAppend` | logserver/src/collector.cpp:10-38 | who is evicted, and how much is queued for the others, depends on the records in their order and not on how the callbacks divide them |
| `Collectors.KeptAreThere` | logserver/src/collector.cpp:10-38 | whatever arrives, every consumer that stays was there before and has the interests it had |
| `Collectors.AllTakesEverything` | logserver/src/main.cpp:66-67 | the interest mask of `all` overlaps every non-zero record type |
| `Bits.OverlapIffBit` | logserver/includes/output_cxn.hpp:26 | the bitwise and of two numbers is not 0 if and only if they have a bit in common |
| `Collectors.InterestedIffBit` | logserver/includes/output_cxn.hpp:26 | a consumer is interested in a record if and only if the record's type has a bit of its mask |
| `Collectors.ChannelGets` | logserver/src/main.cpp:48-61 | a channel of one type gets exactly the records whose type has that bit |
| `InputCxns.Delivered` | logserver/src/input_cxn.cpp:50-86 | for every chunking: delivered records are the complete frames before the first empty one, and the handler is stuck exactly when there is an empty one |
| `InputCxns.PickId` | logserver/src/input_cxn.cpp:37-48 | the first clock reading that was never an id before |
| `InputCxns.InputHandler.IoCallback` | logserver/src/input_cxn.cpp:50-86 | exactly the handler's new records arrive at the collector, in order, under its id: exactly the subscribers they are too much for are gone, the others keep their interests and histories; all data offered is consumed unless the handler is stuck, none stays staged, and the connection ends exactly at a fatal answer |
| `InputCxns.UpToEmptyIsAll` | logserver/src/input_cxn.cpp:65-81 | everything is delivered if and only if no frame is empty |
| `InputCxns.EmptyFrame` | logserver/src/input_cxn.cpp:65-81 | a concrete run: behind an empty frame the next one is never delivered, although the socket stays open |
| `LogServers.LogServer.AcceptInput` | logserver/src/input_cxn.cpp:37-48 | the id given is one no handler, alive or dead, ever had |
| `LogServers.LogServer.Receive` | logserver/src/input_cxn.cpp:50-86 | the arrivals of each source remain exactly the frames its handler received; the new ones evict exactly the subscribers they are too much for, and every other subscriber keeps its interests and history |
| `LogServers.LogServer.AcceptOutput` | logserver/src/collector.cpp:55-58 | a subscriber joins at the end of the arrivals with the interests it asked for, under a name never used; the others are untouched |
| `LogServers.LogServer.Send` | logserver/src/output_cxn.cpp:86-123 | serving a subscriber changes no arrival, no input and no other subscriber; it is served as Service does, and goes exactly if its socket is dead |
| `LogServers.FromSourceStamped` | logserver/src/input_cxn.cpp:77-81 | records appended under one id extend that source's sequence and no other's |
| `LogServers.FromSourceAppend` | logserver/src/collector.cpp:10-38 | the records of a source in two stretches of the arrivals are those of the first, then those of the second |
| `Archives.ReadLength` | tools/src/logtruncate.cpp:99-117 | the inner loop, for every way the kernel may cut the reads: where each byte lands, and that a header that ends early is taken for the end of the file |
| `Archives.LengthIsRight` | tools/src/logtruncate.cpp:101-117 | the length read is the file's, whatever was in memory, if and only if the first read returns all four bytes |
| `Archives.TruncationPoint` | tools/src/logtruncate.cpp:96-133 | the outer loop computes exactly the loop on values, lengths as read and the 32-bit sum included |
| `Archives.CutIsRight` | tools/src/logtruncate.cpp:96-142 | if every header wholly in the file is read whole, the file is cut after its last whole frame if and only if no frame has 2^32 - 4 bytes or more; otherwise the assert fails |
| `Archives.SafeIffWhole` | tools/src/logtruncate.cpp:101-117 | a kernel that cuts the reads in a given way has every such file repaired, whatever was in memory, if and only if no first read of a header is short |
| `Archives.ShortReadLosesFrame` | tools/src/logtruncate.cpp:101-117 | a failing input: k + 1 empty frames of which a short read of the last header loses the last |
| `Archives.LongFrameAborts` | tools/src/logtruncate.cpp:131-132 | a failing input: one whole frame of 2^32 - 4 bytes or more trips the assert |
| `Archives.RepairKeeps` | tools/src/logtruncate.cpp:136-142 | no complete frame at the start of the file is dropped |
| `Archives.RepairIsExact` | tools/src/logtruncate.cpp:136-142 | the repaired file is a whole number of frames, it is the greatest such prefix, and repairing again changes nothing |
| `Archives.CrashKeeps` | logclient/verbatim_service/run:3-4 | after a crash that leaves any prefix of the file, repair restores the frames written that fit into it |
| `Archives.PrintedAll` | logclient/verbatim.cpp:103-140 | for every chunking, a running verbatim with nothing staged has printed the complete frames received, except for an empty frame that came last; without an interrupt it has printed them all if and only if none is empty |
| `Archives.EmptyFrameExits` | logclient/verbatim.cpp:103-140 | a concrete run: an empty frame, then any other, and verbatim exits as if disconnected, printing neither |
| `Archives.Verbatim.Turn` | logclient/verbatim.cpp:103-140 | one round of the main loop: exactly when it goes on, what it leaves staged, at most one more frame at the end of the file, rotation only when asked; a full window never waits |
| `Archives.Verbatim.Rotate` | logclient/verbatim.cpp:116-126 | rotation moves whole frames to a closed file and loses none |
| `Archives.Verbatim.Settle` | logclient/verbatim.cpp:128-139 | a frame goes to the file whole, with its length, exactly when it is complete |
| `Archives.Verbatim.CrashAndRestart` | logclient/verbatim_service/run:3-4 | over any interleaving of writes, rotations, crashes and restarts with a right repair each file is whole frames, every frame that was completely on disk survives, and what is left of each earlier session is a first part of it |
| `EndToEnd.SourceIsLogged` | shared/src/logger.cpp:63-177 | the records of one input handler are a prefix of what its producer logged, in call order, also after the producer lost its connection |
| `EndToEnd.ArrivalsFollowProducer` | logserver/src/input_cxn.cpp:50-86 | the arrivals of one source are a prefix of its producer's events, for every chunking of its socket |
| `EndToEnd.ArchiveFollowsArrivals` | logserver/src/output_cxn.cpp:86-123 | an `all` subscriber, connected or evicted, prints, frame for frame, the arrivals since it joined, each behind its source id |
| `EndToEnd.ArchiveIsTheLog` | logclient/verbatim.cpp:99-140 | whenever the subscriber joined, what it printed is a frame-aligned stretch of the arrival-ordered log, and restricted to one source it is that producer's next events in logging order, behind those that arrived before |
| `EndToEnd.FilesAreTheLog` | logclient/verbatim.cpp:48-73 | the bytes of the rotated files and the current one are, over all restarts, the frames of the sessions, each a stretch of the arrivals from where it joined |
| `EndToEnd.StretchesSurvive` | logclient/verbatim_service/run:3-4 | a crash and a restart keep that: what is left of every session is still a stretch of the arrivals |
| `LogSystems.LogSystem.NewProducer` | logserver/src/input_cxn.cpp:37-48 | a producer connects and is accepted: one more linked pair, everything else as it was |
| `LogSystems.LogSystem.Log` | shared/src/logger.cpp:63-177 | a call of g_log adds its event to its producer's log and keeps all links |
| `LogSystems.LogSystem.Write` | shared/src/logger.cpp:38-57 | a producer's write loop, tied to the answers of write, sends more of its stream and keeps all links |
| `LogSystems.LogSystem.Receive` | logserver/src/input_cxn.cpp:50-86 | bytes that a producer sent arrive in any chunking: exactly its new records arrive at the collector, and the archive's subscription and sessions stand, evicted or not |
| `LogSystems.LogSystem.Subscribe` | logserver/src/collector.cpp:55-58 | any other subscriber joins without disturbing the archive's subscription |
| `LogSystems.LogSystem.Send` | logserver/src/output_cxn.cpp:86-123 | one subscriber is served or gone, the others and the links are untouched |
| `LogSystems.LogSystem.ArchiveTurn` | logclient/verbatim.cpp:103-140 | a turn of the archive on bytes sent to its subscription, as far as they go, with rotation only when asked, keeps its sessions stretches of the arrivals |
| `LogSystems.LogSystem.Restart` | logclient/verbatim_service/run:3-4 | a crash at any byte, a right repair and a new subscription: what is left of the session becomes an earlier one, and the new one joins behind all that arrived |
| `LogSystems.SessionsFound` | logclient/verbatim.cpp:48-73 | the frames of sessions that follow each other are records at strictly increasing positions of the arrivals |
| `LogSystems.FilesAreArrivals` | logclient/verbatim.cpp:99-140 | in every state of every run the log files, one after the other, are whole frames, each the source id and the bytes of a record that arrived, in the order of arrival and none twice, over all restarts; what arrived from a source is a first part of its producer's log |
| `LogSystems.SessionsFollowProducers` | logclient/verbatim.cpp:99-140 | in every state of every run each session holds, of each producer, its next events behind those that arrived before the session joined |
| `LogSystems.QuietIsComplete` | logclient/verbatim.cpp:99-140 | when nothing is under way any more nothing is missing: a flushed producer's whole log has arrived, and the session holds every arrival since it joined |
| `BitcoinHandlers.Handler.Connect` | connector/src/bitcoin_handler.cpp:261-287 | an outbound handler starts with its version queued, WRITE armed, not reading |
| `BitcoinHandlers.Handler.Accept` | connector/src/bitcoin_handler.cpp:288-297 | an inbound handler starts with nothing queued, reading a version header |
| `BitcoinHandlers.Handler.AppendForWrite` | connector/src/bitcoin_handler.cpp:427-448 | the message is queued last, the send flag is set, and WRITE is armed unless it already was |
| `BitcoinHandlers.Handler.HandleMessage` | connector/src/bitcoin_handler.cpp:361-392 | a message named ping is answered by itself with an o for the i, one named getblocks by the empty inv, nothing else is answered |
| `BitcoinHandlers.AnswerMeans` | connector/src/bitcoin_handler.cpp:361-392 | the same of the answer on values |
| `BitcoinHandlers.PongIsBitcoin` | connector/src/bitcoin_handler.cpp:361-366 | the answer to a ping is a whole message with the command pong and everything else as in the ping |
| `BitcoinHandlers.Handler.Digest` | connector/src/bitcoin_handler.cpp:486-545 | a full window in any of the six receive states leads to the one receive flag the handshake prescribes; a whole message is passed to handle_message_recv once, and exactly its replies are queued |
| `BitcoinHandlers.Handler.Greet` | connector/src/bitcoin_handler.cpp:529-542 | an inbound handler's first message is handled, its answer queued, then version and verack side by side, and nothing else |
| `BitcoinHandlers.Handler.DoRead` | connector/src/bitcoin_handler.cpp:454-549 | all data offered is taken in unless the handler is stalled, nothing is stranded in the staging area, and exactly the replies to the messages handled are queued, in order |
| `BitcoinHandlers.Handler.DoWrite` | connector/src/bitcoin_handler.cpp:551-587 | the write loop, tied to the answers; a complete flush leaves the handler reading, unless something was queued before an outbound version; it dies exactly at a failed write |
| `BitcoinHandlers.Handler.IoCallback` | connector/src/bitcoin_handler.cpp:589-620 | every callback restores the invariant; a reading handler takes all data offered unless it is stalled, exactly the replies to the messages handled in it are queued, what is sent is tied to the answers of write, and the handler dies exactly at a fatal answer of either |
| `BitcoinHandlers.HandledIsParsed` | connector/src/bitcoin_handler.cpp:454-549 | for every chunking the handled messages are exactly the parse of the received bytes, empty ones included, unless the first is empty, which is exactly when the handler is stalled |
| `BitcoinHandlers.EveryMessageAnswered` | connector/src/bitcoin_handler.cpp:361-392 | in every reachable state handle_message_recv was called exactly once with each message of the parse, in order; the answers queued are as many as there are pings and getblocks, and the i-th is the pong or the inv for the i-th of them; a stalled handler has called it never |
| `BitcoinHandlers.RepliedTwice` | connector/src/bitcoin_handler.cpp:454-549 | the replies of two stretches of messages are those of both together: how the messages are divided among callbacks does not matter |
| `BitcoinHandlers.NoLostWakeUp` | connector/src/bitcoin_handler.cpp:427-448 | WRITE is armed iff a send flag is set iff bytes are pending; sent followed by pending is everything queued, one after the other |
| `BitcoinHandlers.OutboundSpeaksFirst` | connector/src/bitcoin_handler.cpp:274-287 | an outbound handler's first bytes are its version, queued once, and nothing is received while that is pending |
| `BitcoinHandlers.InboundGreetsOnce` | connector/src/bitcoin_handler.cpp:529-542 | an inbound handler sends version and verack adjacent, exactly once, after its first handled message and not before |
| `BitcoinHandlers.DeafIffEarly` | connector/src/bitcoin_handler.cpp:566-584 | once its version is flushed an outbound handler reads if and only if nothing was queued before; otherwise it never receives anything |
| `BitcoinHandlers.EarlySend` | connector/src/bitcoin_handler.cpp:566-584 | a concrete run into that state: a message queued right after connecting, both flushed, and no event is armed any more |
| `BitcoinHandlers.EmptyFirst` | connector/src/bitcoin_handler.cpp:525-533 | a concrete run into a stall: a first message without payload, and the whole message behind it is never handled |
| `PeerSets.Peers.SendTo` | connector/src/command_handler.cpp:94-112 | every active peer gets the exact message once per listing, or once on a broadcast, behind what was queued for it; nothing else about any peer changes |
| `PeerSets.DeliveredCopies` | connector/src/command_handler.cpp:102-110 | sending to a list of targets gives each peer as many copies as it is listed times; unknown targets are skipped |
| `PeerSets.CountsTheListed` | connector/src/command_handler.cpp:102-110 | a peer gets a copy if and only if it is listed |
| `PeerSets.CountIsMultiplicity` | connector/src/command_handler.cpp:102-110 | how often a target is listed is its multiplicity in the list |
| `PeerSets.Peers.Disconnect` | connector/src/command_handler.cpp:151-155 | exactly the listed peers leave the active set, and the queues and histories of the others stay as they are |
| `PeerSets.Peers.Infos` | connector/src/command_handler.cpp:117-139 | the listing holds every active peer exactly once, with its id and addresses |
| `PeerSets.ListsThem` | connector/src/command_handler.cpp:117-139 | a listing holds exactly the connection_infos of the active peers, each once |
| `PeerSets.Peers.Callback` | connector/src/bitcoin_handler.cpp:589-620 | an event on one peer does to it what its callback does, tied to the answers of recv and write, and leaves all other peers alone; the peer leaves the active set exactly when it dies |
| `Registries.Registry.Register` | connector/src/command_handler.cpp:211-233 | the length check admits exactly whole bitcoin messages; the id is 0 exactly for invalid payloads, a counter at 0 or an id still held; otherwise the payload is stored under it and no other table changes; before wrap-around ids are 1, 2, 3, … over all handlers |
| `Registries.RegisteringOk` | connector/src/command_handler.cpp:211-233 | a registration keeps every earlier grant, and before wrap-around its id is the next one, never given before |
| `Registries.Registry.Insert` | connector/src/command_handler.cpp:220-229 | an id that is taken keeps its message and 0 is sent back, a free one gets it; no other table changes |
| `Registries.Registry.Find` | connector/src/command_handler.cpp:141-146 | the message under the id, if there is one, and it is a whole bitcoin message, which discharges the size assert of the shared append; looking makes an empty table and changes no other |
| `Registries.Registry.Erase` | connector/src/command_handler.cpp:85-92 | exactly one table goes |
| `Registries.TicketStands` | connector/src/command_handler.cpp:140-150 | in every reachable state an id granted to a handler whose table was not erased stands for the exact bytes it was granted for |
| `Registries.WrapsAround` | connector/src/command_handler.cpp:220-229 | a concrete run: after 2^32 - 1 registrations the next one, just as valid, gets the id 0 |
| `CtrlHandlers.CommandRoundTrip` | shared/includes/command_structures.hpp:63-72 | a command read from its wire form has the fields it was written with, and is a broadcast exactly for the single target 0xFFFFFFFF |
| `CtrlHandlers.CtrlRoundTrip` | shared/includes/command_structures.hpp:41-46 | version, length in network order, type and payload make exactly one control message |
| `CtrlHandlers.ReplyReadBack` | connector/src/command_handler.cpp:117-139 | an id is read back from its reply in network order; a listing has its length in front and every entry in its place |
| `CtrlHandlers.SendMeans` | connector/src/command_handler.cpp:94-150 | a SEND_MSG on the wire gives every active peer the registered bytes as often as it is listed, or once on a broadcast, behind what was queued for it; an unknown id gives nobody anything |
| `CtrlHandlers.HangupMeans` | connector/src/command_handler.cpp:151-155 | a DISCONNECT on the wire removes exactly the peers listed, or all on a broadcast, and nothing happens to the others |
| `CtrlHandlers.ListingMeans` | connector/src/command_handler.cpp:117-139 | a GET_CXN is told the connection_info of each active peer once, and changes nothing |
| `CtrlHandlers.RegistrationMeans` | connector/src/command_handler.cpp:211-233 | a whole bitcoin message takes the next id, is stored under it for its owner and told it, unless the owner holds a message there; everything else is told 0 and changes nothing that is stored |
| `CtrlHandlers.RegisteredIsSent` | connector/src/command_handler.cpp:140-150 | what is registered is what is sent: a registration and a SEND_MSG with the id it was told give the targets exactly the payload |
| `CtrlHandlers.RegisterDoes` | connector/src/command_handler.cpp:163-197 | a REGISTER on the wire removes the table named by the old regid, draws a new one and is told it |
| `CtrlHandlers.Controller.SendRegistered` | connector/src/command_handler.cpp:140-150 | SEND_MSG gives every peer its copies of the registered bytes, an unknown id reaches nobody |
| `CtrlHandlers.Controller.HandleCommand` | connector/src/command_handler.cpp:114-159 | SEND_MSG reaches its targets, DISCONNECT removes them, GET_CXN is told every connection once, anything else does nothing; peers and tables afterwards are exactly those of the command on values |
| `CtrlHandlers.Controller.Obey` | connector/src/command_handler.cpp:201-285 | peers, tables, counter and reply are exactly what the message does on values; a registration is answered by a fresh id before wrap-around |
| `CtrlHandlers.Controller.ReceiveHeader` | connector/src/command_handler.cpp:163-197 | a message without payload is done at once; REGISTER erases exactly the table named by the old regid and is told the new one |
| `CtrlHandlers.Controller.ReceivePayload` | connector/src/command_handler.cpp:201-290 | the window is one whole message, it takes its effect on peers, tables and replies once, and the next header is wanted |
| `CtrlHandlers.Controller.DoRead` | connector/src/command_handler.cpp:292-327 | all data offered is taken in, nothing stays staged, something is wanted; peers, tables and replies are the fold of what the messages handled do, one after the other |
| `CtrlHandlers.Controller.DoWrite` | connector/src/command_handler.cpp:342-358 | the write loop, tied to the answers; the send flag stays on exactly while bytes are pending; any error but EAGAIN ends the handler |
| `CtrlHandlers.Controller.IoCallback` | connector/src/command_handler.cpp:360-384 | both asserts hold whatever arrives, armed events agree with the state although they are set only when it changed; peers, tables, counter, regid and replies are the fold of what the messages handled in the callback do; what is sent and when the handler dies is tied to the answers of recv and write |
| `CtrlHandlers.RanOnce` | connector/src/command_handler.cpp:292-327 | one more message handled is one more step of the fold, in the order of arrival |
| `CtrlHandlers.Arrive` | connector/src/command_handler.cpp:292-327 | one whole message, in any chunks, takes exactly its effect |
| `CtrlHandlers.SendByWire` | connector/src/command_handler.cpp:94-150 | a SEND_MSG that arrives in any chunks: every active peer of the live object has its copies of the registered bytes behind what was queued, and nothing else |
| `CtrlHandlers.HangupByWire` | connector/src/command_handler.cpp:151-155 | a DISCONNECT that arrives in any chunks: exactly the peers meant are gone, the others as they were |
| `CtrlHandlers.HandledIsParsed` | connector/src/command_handler.cpp:292-327 | for every chunking the processed messages are exactly the parse into 6-byte headers and payloads, the i-th reply answers the i-th message that asks for one, and sent followed by pending is the replies one after the other |
| `CtrlHandlers.PairedNext` | connector/src/command_handler.cpp:231-232 | a message adds a reply of its own kind exactly if it asks for one |
| `CtrlHandlers.ForeignErase` | connector/src/command_handler.cpp:163-197 | a concrete run: handler 1 holds an id, another handler whose regid is 1 sends a REGISTER, and the table of handler 1 is gone |
| `Reconnects.DelayBound` | clients/getaddr.cpp:294-300 | no reconnect delay exceeds 81915 s |
| `Reconnects.DelaysGrow` | clients/getaddr.cpp:294-300 | the delays are 0 s, 5 s, 15 s, 35 s and so on: each twice the one before and 5 s more |
| `Reconnects.CxnHandler.Advance` | clients/getaddr.cpp:255-292 | a connect is written exactly when disconnected or pending for more than 900 s; CONNECTING iff a connect is pending, so the arm with the assert is dead; the timer is set to the drawn delay, to the end of the 900 s, to 10 s, or not at all |
| `Reconnects.CxnHandler.TimerFired` | clients/getaddr.cpp:255-292 | a firing connects, re-arms or unwinds one fail; at most 14 fails |
| `Reconnects.CxnHandler.Notify` | clients/getaddr.cpp:235-243 | a notification sets the state, clears the pending connect and never leaves a disconnected handler without a timer |
| `Reconnects.ConnectsApart` | clients/getaddr.cpp:255-292 | in every run any two connects are separated by a notification or by more than 900 s |
| `GetaddrRounds.HidHandler.TimerFired` | clients/getaddr.cpp:158-175 | a push happens exactly after 10 s of quiet, in the current round, below the cap; too early a firing waits for the rest |
| `GetaddrRounds.HidHandler.Enqueue` | clients/getaddr.cpp:184-191 | the waiting period restarts, and a timer that was not armed is set to its end |
| `GetaddrRounds.HidHandler.SetSequence` | clients/getaddr.cpp:177-182 | a new round resets the count, the same round does not |
| `GetaddrRounds.PoliteRuns` | clients/getaddr.cpp:140-191 | over every run at most 24 pushes in the round, never more pushes than enqueues, each at least 10 s after every earlier enqueue |
| `GetaddrRounds.AtMost24PerRound` | clients/getaddr.cpp:158-182 | any stretch of a run without a new round holds at most 24 pushes |
| `GetaddrRounds.Client.Fire` | clients/getaddr.cpp:158-175 | every known sender being in the current round, only quiet time and cap decide |
| `GetaddrRounds.Client.NextRound` | clients/getaddr.cpp:441-448 | every known sender is in the new round with its count reset |
| `GetaddrRounds.Client.Flush` | clients/getaddr.cpp:118-130 | everything pushed is sent once, in order |
| `GetaddrRounds.Client.Up` | clients/getaddr.cpp:142-152 | a new sender joins the current round, with an enqueue only in the round's first 600 s |

## Left out

- Reallocation to size 0, allocation failure and size_t overflow: allocation succeeds and sizes are positive, as the callers here arrange.
- Raw pointers kept from ptr() across other operations: a write goes through ptr() each time.
- do_read(fd, size) and do_write(fd, size) with a size other than to_read or to_write: no caller uses one.
- recv and write scripts are finite and then answer EAGAIN, so that a callback ends; a socket that never runs dry is left out.
- Handlers hold the value form of their queues; update in place and sharing are proved one layer down, in ReadBuffers and WriteBuffers.
- Collectors.Collector.Append: asks for a record of at least one byte, which is all that the input handler passes.
- EndToEnd.ArchiveIsTheLog: asks for max_buffer + 4 below 2^32 and for events handed over that are shorter than 2^32, so that every length fits its prefix (Wire.PrefixIsRight); LogSystems keeps that along every run.
- LogSystems.LogSystem.Receive: sockets deliver, in order, bytes that were sent; a step takes in no others.
- LogSystems.LogSystem.Restart: asks for a right repair, which Archives.CutIsRight and Archives.SafeIffWhole decide; output handlers have names that are not reused, unlike their addresses.
- Archives.Verbatim.CrashAndRestart: promises whole frames only if the repair is right, which Archives.CutIsRight decides; after a wrong one verbatim appends to what is there.
- Archives.ReadLength: a byte stored in front of netlen hits other memory; what that breaks is left out, and a failing read ends logtruncate whenever it comes.
- A crash leaves an arbitrary prefix of the current file; unordered writes by the file system are left out.
- After a handler has closed its socket the rest of its callback still runs; the model lets its writes fail.
- The addresses in log records are bytes: writer and readers disagree on the address structure.
- tor_connect_handler, connect_handler, blacklist and address formatting: socket plumbing and layout.
- CONNECT commands: starting a connection is outside the control handler; a connection made is PeerSets.Peers.Join.
- CtrlHandlers.Controller.Hangup: a broadcast DISCONNECT erases from the map it iterates over, which is undefined; the model disconnects everyone.
- Bytes behind a command that is shorter than its target count says: read as arbitrary bytes.
- Ping timers of a bitcoin handler: their messages are among the messages queued from outside.
- Time to the next scheduled round, address sampling and the harvest of addr messages: configuration and easy members.
- The disconnect command that clock_cb sends for outbound connections.
- Perl importers, SQL, plotting, consoles and the other clients.
