# go2cbt: a verified model

go2cbt backs up disks block by block: a kernel driver tracks which 1 MiB blocks were written, a Windows
client reads, hashes, compresses and sends blocks, and a Linux server writes them into image files and
acknowledges each one. This project models that stack in Dafny and proves what it is for.

The centre is the pipelined full backup. `Pipeline.dfy` is a transition system over the client's main thread,
its ACK thread, the server and two FIFO channels, at the code's own granularity: a slot is taken under the lock
but its index is written in a later step, the in-flight counter is raised after the send and lowered after the
slot is freed, and either thread may run between any two steps. `Network.dfy` is the same system on bytes, with
partial sends, arbitrary receive chunks and partly read ACKs, and is proved to refine it; `Realisation.dfy`
proves the converse, so both levels have the same outcomes. The main theorems hold in every state of every run:
acknowledged means stored, each block in flight owns one slot, the in-flight counter is bounded, and a complete
run with nothing failed leaves the whole source disk on the image. Nothing else on the server changes.
`Records.dfy` proves what the client's own table says in every state: the right hash for every block sent,
exactly the status its ACK called for, an exact counter. `Reachability.dfy` shows that the counter's bounds are
reached for every window size, `Completion.dfy` that from every reachable state in which nothing has gone wrong
the backup can still complete.

| file | what it models |
|---|---|
| Bytes, Protocol | fixed-width integers, message layouts, their encodings |
| MessageParser, ServerModel | framing, handlers and the message loop, as functions |
| RingBuffer, Connection | the server's buffers, send queue, handlers and loops, in place, proved against ServerModel |
| BlockProcessor | checking and storing one block |
| Tiling, Window, Ownership | block arithmetic, the slot window, the slot-ownership invariant |
| Pipeline, Network, Realisation | the whole protocol, on messages and on bytes, with the same outcomes |
| Records | the client's block table over every run, what its messages say, what an error stops |
| Reachability, Completion | runs that reach the counter's bounds; no interleaving is a dead end |
| BlockState | per-block ACK state and per-version counters |
| Adler, StoredZlib | the checksum and the uncompressed zlib writer, with a reader written from the RFCs |
| Manifest, FreeSpace | the manifest format, unallocated disk space |
| Bitmap, Hooks | the driver's changed-block bitmap and write hooks |

SHA-256, the compressor and zlib's inflate enter as a record of functions, `Codec`. What the protocol needs
of them is `Lawful`: a block of up to 1 MiB compresses to at most 2 MiB and inflates back to itself. The
stored-block writer is proved to meet it. How a positioned write ends, what the socket delivers or takes,
whether memory can be had and what opening a disk finds are parameters.

Several properties turn out to need a condition, and the condition is proved to be exact:

- the stored-zlib stream of an empty input holds no block, so it reads back if and only if the input is
  non-empty (`StoredZlib.ZlibRoundTrip`), and the writer stays within its buffer if and only if the input is at
  most 2^32 - 65535 bytes (`StoredZlib.CreateStoredZlib`);
- AckedBlocks counts a version's acknowledged blocks if and only if each time one of them left Acknowledged an
  incremental update of the version came with it or later (`BlockState.RunExactly`);
  `BlockState.ReacknowledgedIsCountedTwice` is a run where it overcounts;
- ChangedBlocks counts the changed blocks after an incremental update if and only if no in-range index was
  passed twice (`BlockState.IncrementalChangedCounter`);
- a manifest reads back if and only if it has at least TotalBlocks entries (`Manifest.ManifestRoundTrip`);
- the driver marks a write before passing it on, so a reset that comes in between loses it:
  `Bitmap.OvertakingResetLoses` is such a run, `Bitmap.UnmarkedIsUnchanged` shows that nothing is lost while
  resets keep clear of writes in flight, and `Bitmap.ChangeShowsExactlyWhen` says byte by byte when a change
  shows.

Where code and documentation disagree, the code is followed: `server/Protocol.h:71` calls the HELLO body 80
bytes long, the structure has 88; `go2cbt/hook.c:100` reports that the disk scan stops at a missing disk, but
only the inner loop ends and the next disk is tried.

`dafny verify dfyconfig.toml` checks the project.

## Model

| member | source | states |
|---|---|---|
| Network.AcknowledgedMeansStoredOnWire | client/BackupEngine.cpp:1036-1099 | In every state of every byte-level run, however the network cuts and delays both streams, a block the client holds as Acknowledged has its exact source bytes on the server image at BlockIndex times 1 MiB |
| Network.CompleteRunOnWire | client/BackupEngine.cpp:1514-1569 | A byte-level run whose loop reached the last block with nothing in flight has sent + skipped = total and acked + failed = total; with nothing failed, the image starts with the whole source disk |
| Network.ServerStaysInStep | server/MessageParser.cpp:7-70 | On the stream such a client produces, the server never sees a bad magic, an invalid type or an oversize block: it never loses its place |
| Network.NothingElseChangesOnWire | server/BlockProcessor.cpp:24-120 | In every state of every byte-level run, other devices' images and the own image from totalSize on are what they were at the start |
| Network.RunRefines | client/NetworkClient.cpp:458-512 | Every byte-level run (partial sends, arbitrary receive chunks, partly read ACKs) is matched state by state by a run of the message-level protocol |
| Network.Simulate | client/NetworkClient.cpp:301-414 | One byte-level step is one message-level step or none, and the two byte streams stay the encodings of what is still unserved and untaken |
| Realisation.SameOutcomes | client/NetworkClient.cpp:458-512 | The refinement is exact: a client and a server with its images end some byte-level run if and only if they end some message-level run |
| Realisation.RunRealised | server/Server.cpp:241-305 | Every message-level run is one the bytes can go through: each message pushed, received and handled, each ACK flushed and read in two pieces |
| Realisation.BackupCanCompleteOnWire | client/BackupEngine.cpp:1514-1569 | Every readable disk the server accepts has a byte-level run that acknowledges every block and leaves the source on the image |
| Pipeline.AcknowledgedMeansStored | client/BackupEngine.cpp:1057-1067 | The same safety property over every run of the message-level transition system |
| Pipeline.CompleteRun | client/BackupEngine.cpp:1514-1569 | The same accounting and whole-image property over every run of the message-level transition system |
| Pipeline.CallbackSeesOnlyBlocks | client/NetworkClient.cpp:142-155 | Every ACK that reaches the callback belongs to a block sent in this run; the HELLO and BYE ACKs, which also carry index 0, never do |
| Pipeline.SlotOwnership | client/BackupEngine.cpp:1975-2008 | While block k is outstanding, ReleaseSlot(k) finds the slot k was sent from; any other slot showing k was just acquired, shows its initial 0 and lies behind it; never more than the window size is outstanding |
| Pipeline.InFlightBounds | client/BackupEngine.cpp:1473-1475 | The in-flight counter stays between -1 and window + 1 under every interleaving; after the send loop it is never negative, and 0 means every sent block has been counted as acked or failed |
| Pipeline.OnlySentBlocksChange | server/BlockProcessor.cpp:24-120 | In every state of every run, other devices' images are what they were at the start, and so is every byte of the own image from totalSize on or in a block that was never sent |
| Reachability.LowerBoundReached | client/BackupEngine.cpp:1473-1475 | The lower bound is real: for every window and every readable, accepted disk some run has the counter at -1, the first ACK overtaking the counting of its send |
| Reachability.UpperBoundReached | client/BackupEngine.cpp:1094-1095 | The upper bound is real: for every window smaller than the disk some run has the counter at window + 1, a freed slot being used again before the counter is lowered |
| Completion.NoDeadEnd | client/BackupEngine.cpp:1125-1569 | No interleaving is a dead end: from every reachable state in which the connection stands, the loop has not been left and nothing has failed or been skipped, some continuation, on a readable disk with writes that complete, acknowledges every block and leaves the source on the image |
| Completion.BackupCanComplete | client/BackupEngine.cpp:1514-1569 | Every readable disk the server accepts has a run that completes with everything acknowledged and nothing failed, its image then being the source |
| Records.SentMeansHashed | client/BackupEngine.cpp:1385-1389 | In every state of every run, every block that was sent has the SHA-256 of its source bytes in the block table |
| Records.EntryIsInOrder | client/BackupEngine.cpp:1385-1389 | In every state of every run, entry k shows index k, its offset, the version of the run, and the SHA-256 of the source bytes of block k or zeros, never anything else |
| Records.StatusIsExact | client/BackupEngine.cpp:1057-1099 | In every state of every run the statuses are exactly what the recorded ACKs say: Acknowledged or Rejected as ACK j was OK or not, Pending while it is unrecorded or the block unsent |
| Records.CounterIsExact | client/BlockStateManager.cpp:278-303 | In every state of every run the AckedBlocks counter of the new version is the number of acknowledged blocks and of OK ACKs recorded, and nothing else of the starting tables has changed |
| Records.CompleteTable | client/BackupEngine.cpp:1514-1569 | A complete run with nothing failed leaves every block Acknowledged with the SHA-256 of its source bytes, and all of them counted |
| Records.SentMeansHashedOnWire | client/BackupEngine.cpp:1385-1439 | In every byte-level run, once the main thread stands behind the send of block k, its entry holds the SHA-256 of its source bytes from then on |
| Records.TableOnWire | client/BackupEngine.cpp:1057-1099 | In every state of every byte-level run each hash is right or zeros, right once the block is acknowledged or rejected, and the counter is the number of acknowledged blocks |
| Records.CompleteTableOnWire | client/BackupEngine.cpp:1514-1569 | The complete table again, at the end of a complete byte-level run |
| Records.SentIsFaithful | client/NetworkClient.cpp:209-254 | Every message of every run: first the HELLO of this disk and version; each block with its index, its size, its hash and a payload that inflates to its source bytes, in ascending order; otherwise a BYE at the end |
| Records.FailuresShow | client/BackupEngine.cpp:1041-1049 | In every run, until the ACK thread is told to stop, a lost connection or an ACK thread that has ended shows as a pipeline error |
| Records.ErrorStopsSending | client/BackupEngine.cpp:1129-1135 | In every run, once an error is flagged, the connection is lost or the ACK thread has ended, no block after the one at hand is ever sent |
| Records.TableKeeps | client/BackupEngine.cpp:1385-1389 | Each step of either thread, the server or the network keeps the hashes, the statuses and the counter of the block table right |
| Pipeline.StepKeeps | client/BackupEngine.cpp:1125-1508 | Each step of the main thread, the ACK thread, the server or the network keeps the protocol invariant |
| Pipeline.RunKeeps | client/BackupEngine.cpp:977-1584 | The invariant holds in every state of every run, from the handshake on |
| Pipeline.LoopKeeps | client/BackupEngine.cpp:1125-1508 | The send-loop steps (acquire, write the index, read, hash, compress, skip, count) keep the invariant at the code's own granularity; hashing block i records the SHA-256 of its source bytes in entry i, and no other step of the loop changes the tables |
| Pipeline.AckKeeps | client/BackupEngine.cpp:1036-1099 | The callback steps (record, tally, release, lower the counter) keep the invariant |
| Pipeline.SendKeeps | client/NetworkClient.cpp:209-254 | Sending a HELLO, a block or a BYE keeps the invariant |
| Pipeline.ServeKeeps | server/Server.cpp:331-402 | The server handling one message keeps the invariant: one ACK per message, OK only once the block is stored |
| Pipeline.DeliverKeeps | client/NetworkClient.cpp:379-410 | Taking one ACK off the socket keeps the invariant |
| Pipeline.ImageIsSource | client/BackupEngine.cpp:387-389 | When every block of the tiling is stored, the first totalSize bytes of the image are the source |
| Pipeline.ProcessFaithful | server/BlockProcessor.cpp:50-119 | A block inside the accepted image is answered OK or WRITE_ERROR, and an OK leaves it stored |
| Pipeline.ProcessElsewhere | server/BlockProcessor.cpp:99-107 | Processing one block never disturbs another block already stored, even when its write fails part way |
| Pipeline.ProcessStaysInPlace | server/BlockProcessor.cpp:99-107 | Processing block k changes no byte outside block k of the backed-up device's image, whether or not its write completes |
| Ownership.ReleaseFindsHolder | client/BackupEngine.cpp:1983-2001 | The first in-use slot showing an outstanding block is the slot it was sent from |
| Ownership.OneOwner | client/BackupEngine.cpp:1285-1287 | The only other slot that can show an outstanding index is the just-acquired one, and then the index is 0 and the owner is slot 0 |
| Ownership.OutstandingBounded | client/BackupEngine.cpp:1926-1963 | Blocks outstanding plus the held slot never exceed the window |
| Ownership.WindowAcquire | client/BackupEngine.cpp:1951-1965 | Taking the lowest free slot keeps slot ownership although the slot still shows a stale index |
| Ownership.WindowFill | client/BackupEngine.cpp:1285-1287 | Writing the index into the held slot keeps slot ownership |
| Ownership.WindowSend | client/BackupEngine.cpp:1431-1439 | Sending turns the held slot into the owner of the new message |
| Ownership.WindowRelease | client/BackupEngine.cpp:1975-2008 | Releasing the oldest outstanding block frees its owner and no other slot |
| Ownership.WindowDrop | client/BackupEngine.cpp:1323-1351 | Skipping a block frees the held slot and no other |
| Window.PipelineWindow.constructor | client/BackupEngine.cpp:1892-1914 | A fresh window: every slot free and showing index 0, counters zero |
| Window.PipelineWindow.ResetPipelineWindow | client/BackupEngine.cpp:1892-1914 | The window and the counters are as new, whatever they were |
| Window.PipelineWindow.AcquireSlot | client/BackupEngine.cpp:1918-1971 | Marks the lowest free slot in use and changes nothing else; -1 exactly on an error or a full window |
| Window.PipelineWindow.ReleaseSlot | client/BackupEngine.cpp:1975-2008 | Frees the first in-use slot showing the index, clears its buffers, and says whether there was one |
| Tiling.TotalIsCeiling | client/BackupEngine.cpp:387-389 | totalBlocks is the exact ceiling, with no 64-bit wrap, up to 2^63 bytes |
| Tiling.BlockFits | client/BackupEngine.cpp:1143-1161 | Every block is non-empty, at most 1 MiB, and ends where the next one starts; the last ends at totalSize |
| Tiling.BlocksTile | client/BackupEngine.cpp:1143-1161 | Every byte of the disk lies in exactly one block, and no block reaches outside it |
| Tiling.HandshakeMakesBlocksValid | server/Server.cpp:437-467 | After an accepted HELLO no block of the backup is answered INVALID_DEV or OUT_OF_RANGE, whatever its payload |
| Bytes.FieldBytes | server/Protocol.h:44-50 | Fields are read least significant byte first, as on the little-endian machines whose structures are copied to the wire |
| Protocol.HeaderRoundTrip | server/Protocol.h:44-50 | Decoding an encoded header gives it back, whatever follows, and each field stands at its offset |
| Protocol.BlockHeaderRoundTrip | server/Protocol.h:53-60 | The same for the 52-byte block header |
| Protocol.AckBodyRoundTrip | server/Protocol.h:63-69 | The same for the 48-byte ACK body |
| Protocol.HelloBodyRoundTrip | server/Protocol.h:73-80 | The same for the 88-byte HELLO body |
| Protocol.HeaderImage | server/Protocol.h:44-50 | Encoding a decoded header gives its 16 bytes back: the layout has no padding and no overlap |
| Protocol.FrameRoundTrip | client/NetworkClient.cpp:219-238 | A HELLO, DATA_BLOCK or BYE turned into a frame is recognised as the same message |
| MessageParser.ParseIsStable | server/MessageParser.cpp:7-70 | Every answer of the parser other than need-more survives the arrival of further bytes |
| MessageParser.AnswerByBytes | server/MessageParser.cpp:7-70 | Which answer a buffer gets, in terms of its bytes, both ways: need-more, bad magic, invalid type, a block claiming more than 2 MiB, or a message, with the values reported |
| MessageParser.ParsedIsFront | server/MessageParser.cpp:64-69 | A parsed message is well-formed and its image is the front of the buffer |
| MessageParser.ParseWhole | server/MessageParser.cpp:28-69 | A well-formed frame at the front of the buffer is exactly what is parsed |
| MessageParser.ParsePartial | server/MessageParser.cpp:14-65 | Any proper prefix of a well-formed frame asks for more |
| MessageParser.NeedMoreIsShort | server/MessageParser.cpp:35-65 | When the parser asks for more, fewer than 16 + 52 + 2 MiB bytes are unread |
| ServerModel.SegmentationIndependence | server/Server.cpp:241-276 | Two ways of cutting the same bytes into receive chunks leave the same dispatched messages, skipped bytes, unread tail, ACKs and images |
| ServerModel.IterateThenArrive | server/Server.cpp:331-402 | One turn of the loop commutes with the arrival of further bytes |
| ServerModel.DrainConserves | server/Server.cpp:331-402 | On every stream, what was dispatched and skipped, in order, followed by the unread tail, is what arrived, or a prefix of it once the connection is closed |
| ServerModel.TailIsShort | server/Server.h:23 | After the loop, an open connection has less than one longest message unread |
| ServerModel.DrainFollowsFraming | server/Server.cpp:331-402 | On every stream, the loop is framing followed by handling: it logs what framing finds, cut behind the event that closes the connection, and leaves the server as handling those events does |
| ServerModel.WireRoundTrip | client/NetworkClient.cpp:122-140 | Any list of client messages, encoded and concatenated, is parsed back into the same list with nothing skipped and nothing left |
| ServerModel.StrayByteIsSkipped | server/Server.cpp:345-359 | On any stream that opens with a wrong magic or an unknown type, the loop skips the first byte, stays open and goes on with the rest |
| ServerModel.JunkIsSkipped | server/Server.cpp:345-359 | Junk in front of a message, none of whose positions looks like a header, is skipped byte by byte, and the loop goes on from the message |
| ServerModel.OversizeCloses | server/Server.cpp:361-367 | A block claiming more than 2 MiB closes the connection, with nothing dispatched or answered |
| ServerModel.ClosesExactly | server/Server.cpp:404-534 | A message closes the connection if and only if it is a BYE, a block before the HELLO, or a first HELLO that is refused; one that is not answered changes nothing else, and only a block changes an image |
| ServerModel.CountersSayWhatWasAnswered | server/Server.cpp:503-508 | On every stream the counters of the connection are the tally of what was answered: blocks, bytes of the blocks answered OK, other blocks |
| ServerModel.OneAckEach | server/Server.cpp:472-563 | On every stream, closed or not: the queued ACKs answer, one for one and in order, the first HELLO (OK if and only if it is accepted, INVALID_DEV for an unknown device, OUT_OF_RANGE for a small image), every DATA_BLOCK dispatched after it (echoing index and hash) and the BYE; nothing else is answered |
| ServerModel.ConversationIsServed | server/Server.cpp:331-402 | An accepted HELLO, any blocks and perhaps a BYE, encoded and cut into chunks in any way: every message is dispatched once and in order, nothing is skipped or left over, each gets its one ACK, and the connection closes exactly on the BYE |
| ServerModel.OneHandlerAnswers | server/Server.cpp:481-521 | One handled message gets its one ACK or none; for a parsed DATA_BLOCK the silent returns of the handler are never taken, and no handler changes the size of an image |
| BlockProcessor.OkMeansStored | server/BlockProcessor.cpp:68-119 | OK means the image holds, at the block's offset, bytes of the announced size that inflate from the payload and have the announced hash |
| BlockProcessor.ProcessFrame | server/BlockProcessor.cpp:24-120 | Nothing but the block's own range of its own image changes, and only under OK or WRITE_ERROR |
| BlockProcessor.ProcessEchoes | server/BlockProcessor.cpp:29-32 | Every answer echoes index, hash and device |
| BlockProcessor.StatusNamesTheFailedCheck | server/BlockProcessor.cpp:40-119 | Each status if and only if its check is the first to fail: unknown device, size or place, inflation, hash; otherwise OK or WRITE_ERROR as the write completes inside the image or not |
| BlockProcessor.OffsetIsPlace | server/BlockProcessor.cpp:59-60 | The 64-bit offset is BlockIndex times 1 MiB if and only if the index is below 2^44 |
| BlockProcessor.GoodBlockStatus | server/BlockProcessor.cpp:50-119 | A well-built block inside the image is answered OK exactly when its write completes, else WRITE_ERROR |
| RingBuffer.RingBuffer.constructor | server/RingBuffer.cpp:7-10 | An empty queue over an array of the given capacity |
| RingBuffer.RingBuffer.ReadableBytes | server/RingBuffer.h:23 | The length of the queue |
| RingBuffer.RingBuffer.WriteFromFd | server/RingBuffer.cpp:12-27 | Appends what the receive delivers, as much as fits; ENOBUFS exactly when the array is full of unread bytes |
| RingBuffer.RingBuffer.WriteFrom | server/RingBuffer.cpp:29-35 | Appends all the data, growing the array when needed, and keeps the read position |
| RingBuffer.RingBuffer.Append | server/RingBuffer.cpp:61-64 | Appends all the data |
| RingBuffer.RingBuffer.Consume | server/RingBuffer.cpp:37-42 | Drops bytes from the front, at most all of them |
| RingBuffer.RingBuffer.Compact | server/RingBuffer.cpp:44-53 | Moves the unread bytes to the start of the array, in place, leaving the queue as it is |
| RingBuffer.RingBuffer.Reset | server/RingBuffer.cpp:55-59 | Empties the queue |
| Connection.BlockStore.ProcessBlock | server/BlockProcessor.cpp:24-120 | The in-place check-then-write computes Process: same answer, same images |
| Connection.BlockStore.PositionedWrite | server/BlockProcessor.cpp:99-107 | A write past the image is refused, a failed one leaves anything in its own range only |
| Connection.Connection.constructor | server/Server.h:27-39 | A fresh connection, nothing read, nothing queued |
| Connection.Connection.EnqueueAck | server/Server.cpp:536-573 | One more ACK; bytes handed to send followed by bytes queued stay the encoded ACKs in order, and the queue is then sent out as far as the socket takes it |
| Connection.Connection.HandleConnWritable | server/Server.cpp:278-305 | Send calls are made, in order, until the queue is empty, one blocks or one fails; what goes out is exactly what they take; the connection is lost if and only if one failed |
| Connection.Connection.SendOnce | server/Server.cpp:280-298 | One send call, answered as the socket says; what it takes leaves the queue from its front |
| Connection.Connection.HandleHello | server/Server.cpp:404-470 | The handler does to the connection what its specification function says, unless a send call failed, which is when the connection is lost |
| Connection.Connection.HandleDataBlock | server/Server.cpp:472-521 | The same for a DATA_BLOCK |
| Connection.Connection.HandleBye | server/Server.cpp:523-534 | The same for a BYE |
| Connection.Connection.DispatchFrame | server/Server.cpp:373-396 | The same for the dispatch on the message type |
| Connection.Connection.OneTurn | server/Server.cpp:335-400 | One turn of the loop is one step of the stream specification, in place |
| Connection.Connection.ProcessMessages | server/Server.cpp:331-402 | The loop terminates and leaves the connection as draining its stream does, with every ACK sent unless the socket blocked; a send failure, and nothing else, stops it early, after as many turns as it logged events |
| Connection.Connection.ReceiveChunk | server/Server.cpp:244-256 | A receive never reports ENOBUFS and appends exactly its chunk; it brings nothing only when the socket has nothing or has ended |
| Connection.Connection.ReceiveAndProcess | server/Server.cpp:244-274 | One receive and its processing feed exactly the chunk to the stream; the last one leaves the connection open only if the socket would block, and closes it otherwise |
| Connection.Connection.HandleConnReadable | server/Server.cpp:241-276 | Whatever the chunks were, the connection ends as if the bytes had come in one piece, also when a send failure loses it, after as many turns as it logged events; an open one returns only when the socket would block, with every ACK sent unless sending blocked; one closed without its stream closing it had a failed send or a socket that ended |
| Connection.DrainIsTurns | server/Server.cpp:331-402 | Turning until the loop stalls is draining |
| Connection.LostInOnePiece | server/Server.cpp:244-256 | A connection lost inside a later chunk stands where as many turns on all the bytes at once, as it logged events, would have put it |
| BlockState.RunIsConsistent | client/BlockStateManager.cpp:72-337 | Over every run, position i holds block i at its offset, every block's version exists, and AckedBlocks(v) covers the acknowledged blocks of v |
| BlockState.ApplyKeeps | client/BlockStateManager.cpp:72-337 | One operation keeps that and never drops or reuses a version id |
| BlockState.ApplyExact | client/BlockStateManager.cpp:278-337 | From an exact counter of v, one operation leaves it exact if and only if no block of v leaves Acknowledged or the operation is an incremental update of v |
| BlockState.ApplyBalances | client/BlockStateManager.cpp:278-337 | One operation moves the counter of v with its acknowledged blocks, except that the counter keeps those that leave; an incremental update of v makes it exact |
| BlockState.CounterIsCountPlusDeparted | client/BlockStateManager.cpp:72-337 | Over any run after the counter was exact, AckedBlocks(v) is the number of acknowledged blocks of v plus those that have left Acknowledged since its last incremental update |
| BlockState.RunExactly | client/BlockStateManager.cpp:72-337 | In every run after a version is created, AckedBlocks is the number of its acknowledged blocks if and only if each time one left Acknowledged an incremental update of the version came with it or later |
| BlockState.ReacknowledgedIsCountedTwice | client/BlockStateManager.cpp:291-300 | A concrete run in which a block acknowledged, rejected and acknowledged again is counted twice |
| BlockState.FreshIsExact | client/BlockStateManager.cpp:72-106 | A version just created, in any run, starts exact |
| BlockState.FullChangedCounter | client/BlockStateManager.cpp:122-142 | After a full initialisation ChangedBlocks is the number of Changed blocks |
| BlockState.IncrementalChangedCounter | client/BlockStateManager.cpp:246-262 | After an incremental update it is, if and only if no in-range index was given twice |
| BlockState.MarkChangedCount | client/BlockStateManager.cpp:246-260 | The update counts at least the changed blocks, exactly them if and only if in-range indices are distinct |
| BlockState.UploadsExactly | client/BlockStateManager.cpp:372-385 | The pending list holds exactly the blocks that need uploading, in block order |
| BlockState.UpdateSetsAsListed | client/BlockStateManager.cpp:236-260 | After an update a listed block has the hash of its last listing and is pending for the version; an unlisted one keeps its hash and version and is skipped |
| BlockState.HashSetOnly | client/BlockStateManager.cpp:198-210 | Recording a hash changes the hash of that block and nothing else |
| BlockState.RangeSetsExactly | client/BlockStateManager.cpp:305-328 | A range sets exactly the blocks from start to start + count that exist; one whose end does not fit 64 bits sets nothing |
| BlockState.AckListSetOnly | client/BlockStateManager.cpp:330-337 | A list sets the status of exactly the blocks it names |
| BlockState.BlockStateManager.constructor | client/BlockStateManager.cpp:20-27 | Empty tables, version ids starting at 0 |
| BlockState.BlockStateManager.CreateVersion | client/BlockStateManager.cpp:72-106 | A new version under the next id, its counters zero; every other table entry stays |
| BlockState.BlockStateManager.InitFullBlocks | client/BlockStateManager.cpp:111-151 | Every block pending and changed with the manifest's hash, or nothing if the version is unknown |
| BlockState.BlockStateManager.InitFullBlocksEmpty | client/BlockStateManager.cpp:157-193 | The same with zero hashes |
| BlockState.BlockStateManager.SetBlockHash | client/BlockStateManager.cpp:198-210 | The block gets exactly the hash passed and nothing else changes; false exactly when out of range |
| BlockState.BlockStateManager.UpdateIncrementalBlocks | client/BlockStateManager.cpp:214-272 | The listed blocks pending under the version, each with the hash of its last listing, all others skipped with hash and version kept; refused on a mismatch, an empty table or an unknown version |
| BlockState.BlockStateManager.SetBlockAck | client/BlockStateManager.cpp:278-303 | That block gets exactly the status passed, and the counter of its version is raised exactly on a move into Acknowledged |
| BlockState.BlockStateManager.SetBlockAckRange | client/BlockStateManager.cpp:305-328 | The same for a range, its end computed with 64-bit wrap |
| BlockState.BlockStateManager.SetBlockAckList | client/BlockStateManager.cpp:330-337 | The same for a list, in order |
| BlockState.BlockStateManager.GetPendingBlocks | client/BlockStateManager.cpp:372-385 | The blocks that need uploading |
| BlockState.BlockStateManager.GetLastAcknowledgedBlock | client/BlockStateManager.cpp:387-405 | The length of the longest prefix of acknowledged or skipped blocks |
| Adler.ComputeAdler32 | client/DataCompressor.cpp:49-58 | The loop computes the checksum as RFC 1950 section 8.2 defines it, with every intermediate inside 32 bits |
| Adler.OneMore | client/DataCompressor.cpp:52-56 | Appending one byte changes both sums as the loop body does |
| Adler.ConcatChecksum | client/DataCompressor.cpp:49-58 | The checksum of a concatenation follows from the checksums and lengths of its parts |
| StoredZlib.ZlibRoundTrip | client/DataCompressor.cpp:65-115 | A decoder written from RFC 1950 section 2.2 and RFC 1951 section 3.2.4 recovers the input if and only if it is non-empty |
| StoredZlib.BlocksRoundTrip | client/DataCompressor.cpp:84-108 | Reading the stored blocks gives the input and stops right behind them: only the last is final |
| StoredZlib.ReadOneBlock | client/DataCompressor.cpp:89-107 | Each block header reads as stored, its LEN as the chunk size and its NLEN as the complement |
| StoredZlib.ZlibSize | client/DataCompressor.cpp:70-74 | The stream is 2 + 5 ceil(n / 65535) + n + 4 bytes long |
| StoredZlib.BufferFits | client/DataCompressor.cpp:72-74 | The computed buffer is that long if and only if n is at most 2^32 - 65535 |
| StoredZlib.CreateStoredZlib | client/DataCompressor.cpp:65-115 | For every 32-bit input size: the writer stays within its buffer if and only if the input is at most 2^32 - 65535 bytes, and then the buffer holds exactly the stream |
| StoredZlib.WriteBlocks | client/DataCompressor.cpp:82-105 | The loop writes exactly the stored blocks behind the header, or stops where a block would not fit, which happens exactly when the buffer is too short |
| StoredZlib.WriteBlock | client/DataCompressor.cpp:89-107 | Writes one stored block at pos and leaves everything before it |
| StoredZlib.WriteChecksum | client/DataCompressor.cpp:107-114 | Writes the checksum, most significant byte first, as the last four bytes |
| StoredZlib.StoredCodecIsLawful | client/DataCompressor.cpp:65-115 | The stored writer with its reader meets everything the protocol assumes of a compressor |
| Manifest.SerializeManifest | client/BlockHasher.cpp:324-351 | Appends the 32-byte header and 40 bytes an entry, in order |
| Manifest.DeserializeManifest | client/BlockHasher.cpp:356-396 | Accepts exactly the buffers with magic, version and room for all announced entries, computed without wrap |
| Manifest.HeaderReads | client/BlockHasher.cpp:336-340 | Magic, version, block size, block count and total size stand at offsets 0, 4, 8, 16 and 24 |
| Manifest.ManifestRoundTrip | client/BlockHasher.cpp:324-396 | A serialized manifest reads back if and only if TotalBlocks does not exceed its entries, with the same sizes, indices and hashes |
| Manifest.AcceptedBufferRewrites | client/BlockHasher.cpp:324-396 | Reserializing any accepted buffer reproduces its first 32 + 40 TotalBlocks bytes |
| FreeSpace.CalculateFreeSpace | client/DiskParser.cpp:473-531 | For partitions inside the disk, in any order, overlapping or empty: a byte is in a free range if and only if it is in no partition; ranges are non-empty, ascending, disjoint |
| FreeSpace.ScanInOrder | client/DiskParser.cpp:502-521 | The loop over the sorted partitions computes the scan specification, ends wrapping at 64 bits |
| FreeSpace.SortByOffset | client/DiskParser.cpp:490-500 | A permutation of the partitions in offset order |
| FreeSpace.FreeOnDisk | client/DiskParser.cpp:473-531 | The complement property for every sorted arrangement of the partitions |
| FreeSpace.FreeIsComplement | client/DiskParser.cpp:502-530 | The same for partitions that reach past the disk, up to the furthest end |
| FreeSpace.FreeProper | client/DiskParser.cpp:502-530 | Free ranges are non-empty, ascending and disjoint |
| FreeSpace.OrderIrrelevant | client/DiskParser.cpp:490-500 | The free ranges depend neither on the input order nor on how the sort orders equal offsets |
| Bitmap.NonEmptyMarksExactly | go2cbt/go2cbt.h:140-179 | A write of at least one byte marks exactly the on-disk blocks it touches, for every disk a signed 64-bit length can describe |
| Bitmap.EmptyMarksExactly | go2cbt/go2cbt.h:159-168 | A zero-length write marks the whole disk at offset 0, its start block when it starts inside one, and nothing on any other boundary |
| Bitmap.CastsAreExact | go2cbt/go2cbt.h:175 | The 32-bit casts lose nothing for every write if and only if the disk has fewer than 2^32 blocks |
| Bitmap.BitsAreExact | go2cbt/go2cbt.h:140-179 | After any run of writes and resets a bit is set if and only if a write since the last reset marks it |
| Bitmap.TouchedIsSet | go2cbt/go2cbt.h:140-179 | Every on-disk block touched by a non-empty write since the last reset is set |
| Bitmap.UnmarkedIsUnchanged | go2cbt/write.c:65-93 | When no reset falls between a write's marking and its landing, a byte in an unmarked block is what it was at the last reset |
| Bitmap.OvertakingResetLoses | go2cbt/write.c:80-93 | A concrete run where a reset overtakes a marked write: the byte changes after the reset and no bit shows it |
| Bitmap.ChangeShowsExactlyWhen | go2cbt/write.c:65-93 | Byte by byte and over every run, no change since the last reset can be missed in the bitmap if and only if any write landing there since comes with one marked on its block since |
| Bitmap.BitsSinceReset | go2cbt/go2cbt.h:140-179 | Of a run that starts clear, the bitmap shows exactly what came after the last reset |
| Bitmap.CbtState.constructor | go2cbt/bitmap.c:38 | A zeroed state tracks nothing |
| Bitmap.CbtState.InitCbtState | go2cbt/bitmap.c:18-63 | One clear bit per started MiB, for any signed 64-bit length; refused on size 0, and tracking nothing when memory is short |
| Bitmap.CbtState.MarkBlockChanged | go2cbt/go2cbt.h:140-179 | The bits afterwards are the old ones and those the write marks, on every disk of fewer than 2^32 blocks |
| Bitmap.CbtState.Reset | go2cbt/go2cbt.h:187-191 | All bits clear; refused when nothing is tracked |
| Bitmap.CbtState.CleanupCbtState | go2cbt/bitmap.c:75-84 | Nothing is tracked any more |
| Hooks.HookTables.FindOrCreateHookEntry | go2cbt/hook.c:20-66 | A hooked driver gains a reference and keeps its saved routine; a new one is saved before it is swapped; a full table refuses |
| Hooks.HookTables.MapDisk | go2cbt/hook.c:119-166 | Mapping one disk keeps the tables valid and the dispatch entries in step with them, and gives the disk a clear bitmap sized to its length, or none when length or memory is missing |
| Hooks.HookTables.TryDisk | go2cbt/hook.c:82-168 | One disk number extends the listing: the disk is mapped if it is there and its driver finds room, and every mapped disk keeps its loaded bitmap |
| Hooks.HookTables.BuildDiskAndHookTables | go2cbt/hook.c:72-171 | Distinct drivers, saved routines equal to the pre-load ones, reference counts equal to the disks referring to them; the map lists, in order, every disk found but those the full table refused, each with a fresh bitmap, clear and sized to its length, or none when length or memory is missing |
| Hooks.HookTables.ForwardWrite | go2cbt/write.c:7-93 | A write to a hooked driver goes to that driver's pre-load routine; exactly the first map entry of its device gets the bits marked, at the translated offset |
| Hooks.HookTables.IssueWrite | go2cbt/write.c:22-93 | After loading, a write to any device ends in one hop in its own driver's pre-load routine, never in the hook itself; exactly the first map entry of the device has the write marked, at the translated offset, and every other bitmap and the tables stay as they were |
| Hooks.HookTables.CbtUnload | go2cbt/go2cbt.c:81-176 | Entries still ours are restored, replaced ones are left alone, bitmaps and tables are emptied |
| Hooks.LoadAndUnload | go2cbt/go2cbt.c:81-176 | Loading and unloading leaves every driver as it was |
| Hooks.RefCountsSum | go2cbt/hook.c:20-66 | Reference counts add up to the size of the disk map |
| Hooks.ReferenceKeeps | go2cbt/hook.c:20-66 | One more reference keeps the hook table and the disk map consistent |
| Hooks.FindHook | go2cbt/hook.c:22-29 | Finds an entry exactly when the driver is hooked |
| Hooks.FindDisk | go2cbt/write.c:22-29 | Finds the first map entry of a device, if it has one |

## Left out

- Sockets, epoll registration, connection setup and real time: a chunk arrives, some bytes are taken, a call would block, a connection closes. Every wait may end at its timeout.
- Freed memory after a connection is closed: a closed connection is a flag.
- Other connections writing the same image while a backup runs: the end-to-end theorems are about one client and one connection.
- VSS, volume mapping, disk queries, privileges, logging, command lines.
- SHA-256, MSZIP and the zlib wrapping of MSZIP output: the functions of `Codec`. The end-to-end theorems hold for every lawful codec, and for any hash function.
- The state file: its record size constant and the bytes written differ (48 and 52), and its header checksum covers different spans on save and on load, so there is no file round trip to prove. Runs of the block state manager are in-memory runs.
- Dry-run mode, which sends nothing.
- The incremental backup end to end: it reads blocks through a manifest whose offsets are never filled. Its block-state update is modelled.
- The client's encoders and receive loop are modelled on values, as message encodings and as the byte-level steps of `Network`, not as methods over structures; what is lost is the order of field assignments inside one structure.
- The main loop and the ACK callback are steps of a transition system rather than methods, because two threads interleave; only the window operations they call, which run under the lock, are methods.
- 64-bit wrap of version ids, block counters and statistics, and allocation failures in the client and the server.
- Two threads writing one memory cell at the same instant: each step of the transition system is atomic.
- The driver's ioctl dispatcher: `Bitmap.CbtState.Reset` is what `go2cbt/ioctl.c` does on a reset request, without the look-up of the disk by number. The query buffer and its bit order are not modelled: the bitmap is an indexed set of bits.
- Bitmap.CbtState.MarkBlockChanged: says nothing about the bits of a disk of 2^32 blocks (4 PiB) or more, because the bitmap's size and the positions passed to it are cut to 32 bits there and the call is outside what the bitmap routine defines; `Bitmap.CastsAreExact` shows that this is exactly where it starts.
- StoredZlib.CreateStoredZlib: ends with `fits` false where the program would write past its buffer, because what happens from there on is not defined.
- Kernel interrupt levels, the spinlock (marking is one step), writes arriving while the hook tables are being built, and two drivers hooking one dispatch entry at the same instant, so a hook always verifies as installed.
- Requests other than writes passed to the hook, which it hands to the driver's own table entry.
- GPT and MBR decoding and file-system detection.
- FreeSpace.SortByOffset: is an insertion sort in place of the library sort; `FreeSpace.OrderIrrelevant` shows that the result does not depend on the choice.
- FreeSpace.CalculateFreeSpace: states the complement for partitions inside the disk; a partition end that wraps at 64 bits is followed by the code and by the model, but no complement is claimed for it.
- Manifest.ManifestRoundTrip: entry offsets are not stored in the format and read back as 0.
- Hooks.HookTables.IssueWrite: assumes that no driver had this driver's routine in its table before loading, as is the case for a freshly loaded image.
