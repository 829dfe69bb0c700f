# A verified model of the Miracast sink

The repository turns a Raspberry Pi into a Wi-Fi display sink. RTP packets carrying an MPEG-2 transport
stream are demultiplexed, assembled into slices, packed into hardware buffers and handed to OpenMAX
components, while a second path does the same for audio. Beside this stand the OpenMAX client library, with
an event pool shared by all components, and a compiler that turns glyph outlines into OpenVG paths.

This project models these parts and proves properties of them for all inputs, all runs and all
interleavings. `dafny verify dfyconfig.toml` checks all of it.

| file | what it models |
|---|---|
| `Sequences.dfy`, `Options.dfy`, `Words.dfy` | operations on sequences, optional values, the size of a word |
| `LinkedChain.dfy` | linked lists on the heap, shared by the queue and the buffer lists |
| `SxQueue.dfy` | the packet queue: head, tail and a 32-bit length |
| `OmxEvents.dfy`, `EventPool.dfy` | events and their lists; the pool of 100 event slots threaded through them |
| `WaitProtocol.dfy` | waiting for a command against event handlers, as a state machine of small steps |
| `PortBuffers.dfy` | the list of idle port buffers, on the heap and shared by several threads |
| `Clocks.dfy`, `TsPacket.dfy`, `Demux.dfy` | time stamps, the byte layout of packets, routing |
| `Multiplex.dfy`, `VideoMultiplex.dfy`, `AudioMultiplex.dfy` | the sender's packets, and what the sink makes of them from end to end |
| `VideoDecoder.dfy` | slice assembly and loss detection |
| `SlicePacking.dfy` | copying a slice into bounded hardware buffers |
| `VideoPipeline.dfy` | demultiplexer, decoder, packing and presenting threads running concurrently |
| `AudioDecoder.dfy` | slice assembly by RTP sequence number and byte count |
| `AudioScheduler.dfy` | the copy into audio buffers, the playback backlog, the list of buffers in use |
| `Outline.dfy` | glyph outlines, OpenVG path data, and the compiler between them |

Code that changes objects step by step is a class with methods proved against functions on sequences; what
those functions mean is stated by lemmas. Threads are state machines whose steps are single queue
operations, buffer operations or flag operations, so that every interleaving is covered. A pointer-linked
list of event slots is a list of indices into the client's array of slots.

## What came out

These properties hold as one would hope:

- No wakeup for the completion of a command is lost between a waiter's list check and its flag wait, whatever
  steps the handlers interleave and whatever events any thread removes. The same holds for terminating errors
  under the conditions below.
- The bytes that reach the video hardware are, under every interleaving, a prefix of the video that the sender put into
  the slices the decoder cuts out; without drops, a prefix of all video from the first slice start on. No buffer
  in line is overwritten, no buffer is submitted before its time, and the threads come to rest, with a buffer
  idle and no slice queued, only when everything has been submitted.
- The audio buffers play exactly the samples sent, as long as no packet is lost, no sequence number wraps around and
  no slice start is behind an adaptation field. A pass of the audio thread that finds less than 200 ms left fills up to
  more than 200 ms and at most 210 ms, or until nothing is ready.
- A wait for a command returns the code for what its lists held when it looked at them, in every run.
- The event lists and the spare list always partition the 100 slots.
- Compiled outlines draw exactly what the contour means, including implied points and closing.

These do not hold in general. In each case the exact condition is proved, and a concrete input or run shows
the failure:

- A wait for a command misses terminating disk-full and maximum-file-size errors, because these raise no flag;
  as long as no error is removed under a blocked waiter, it misses nothing else that its own component reports
  (`LostExactlyWhenSilent`).
- Events may be removed from a callback while the client's thread is blocked. A removal can make the waiter miss
  an event if and only if it asks for an error that the handler records, since removing one error clears
  the flag of all (`RemovalHarmsExactlyForErrors`); with such removals every terminating error can be
  missed (`LostExactlyWhenTerminating`). Removing or returning any other event is harmless.
- A waiter can miss a terminating error of the other component it watches if and only if another wait has taken its
  registration there (`MissedExactlyWhenDisplaced`).
- A blocking get of a port buffer keeps its predecessor pointer from one attempt to the next. A retry that then
  finds its buffer at the head of the list hands it out and leaves it on the list
  (`OwnedExactlyUnlessStale`, `TwoPortsLoseABuffer`). With one port per list this cannot happen
  (`OnePortIsSafe`).
- After a loss the next slice inherits the time stamp of the dropped one (`TimeStamps`,
  `StaleTimeStampWitness`).
- A loss of video packets drops the slice if and only if the next packet received starts no slice and the number of
  transport stream packets lost is not a multiple of 16 (`LossDropsChain`, `SixteenLostUnnoticed`). A loss in
  front of a slice start is never noticed: with all losses shorter than 16, an emitted slice is whole if
  and only if the source's packet behind its last one starts a slice (`SlicesAreWhole`,
  `TruncatedSliceEmitted`).
- The audio decoder drops a slice at every wrap-around of the RTP sequence number (`LossTest`,
  `WrapLosesSlice`).
- An audio slice received whole is emitted if and only if the decoder is looking for one: a loss at the end of a
  slice takes the next slice with it (`CompleteIsEmitted`, `LossTakesNextSlice`).
- The audio decoder emits a slice that conforms to the stream if and only if no slice start in it is behind an
  adaptation field, which its count does not take off (`ConformingExactlyWhenUnstuffed`). Otherwise it can
  emit a part whose copy falls short of the length the scheduler asserts (`CopiesExactly`,
  `StuffedSliceFallsShort`).
- The search for the buffer to be played stops at any buffer that is large enough; it is right exactly for
  the buffer taken last (`RightHeader`, `WrongHeader`).

## Model

| member | source | states |
|---|---|---|
| SxQueue.Queue.Push | common/src/sx_queue.c:48-89 | the queue afterwards is the old one with the packet at its end; head, tail, links, length and the history of operations agree |
| SxQueue.Queue.Pull | common/src/sx_queue.c:96-159 | takes the oldest packet, or reports an empty queue; the assertions on empty and one-element queues hold |
| SxQueue.Queue.LenGet | common/src/sx_queue.c:171-187 | the number of packets, exact below 2^32 |
| SxQueue.Queue.FirstInFirstOut | common/src/sx_queue.c:48-159 | what the queue on the heap has handed out so far, followed by what it holds, is what has been pushed, in every reachable state |
| SxQueue.OutThenIn | common/src/sx_queue.c:48-159 | in every order of pushes and pulls the packets come out as they went in, none lost or repeated |
| OmxEvents.FirstOccurrencesDistinct | libs/ilclient/ilclient.c:1425-1451 | removing duplicates keeps every event and leaves each once |
| OmxEvents.LaterCopyIsIrrelevant | libs/ilclient/ilclient.c:1434-1446 | unlinking a later copy does not change which first occurrences remain, nor their order |
| OmxEvents.KnownEvents | libs/ilclient/ilclient.c:1456-1599 | the events for which no assertion of the handler fails, kind by kind |
| OmxEvents.FlagsRaised | libs/ilclient/ilclient.c:1456-1599 | which flag stands for which event, for every kind, command and error code |
| OmxEvents.AfterEventMeans | libs/ilclient/ilclient.c:1484-1616 | what is recorded in front of the list: the event, an end of stream with its other flags cleared, or nothing for an ignored error |
| OmxEvents.RemovedMeans | libs/ilclient/ilclient.c:415-436 | a removal takes off the first event whose fields are those asked for, and no other |
| OmxEvents.ScanMeans | libs/ilclient/ilclient.c:1206-1240 | a search of both lists answers 0 for the first completion or an error that says the state was reached, -1 for another terminating error, -2 for one of the other component, in terms of the fields of the events |
| EventPool.ReleaseKeeps | libs/ilclient/ilclient.c:428-436 | moving a slot from any position of a component's list to the spare list keeps all lists threaded, disjoint and complete |
| EventPool.InsertKeeps | libs/ilclient/ilclient.c:1601-1615 | moving the top spare slot to a component's list keeps all lists threaded, disjoint and complete |
| EventPool.PoolConserved | libs/ilclient/ilclient.c:174-182 | for any number of components the spare list and the component lists share no slot, repeat none, and together hold exactly the 100 slots |
| EventPool.Client.constructor | libs/ilclient/ilclient.c:158-184 | the initial pool is well formed, with all 100 slots spare |
| EventPool.Client.Attach | libs/ilclient/ilclient.c:308-314 | a new component joins with an empty list and the pool stays well formed |
| EventPool.Client.Release | libs/ilclient/ilclient.c:428-436 | unlinks the slot at a given position and makes it the top spare slot |
| EventPool.Client.RemoveEvent | libs/ilclient/ilclient.c:406-449 | the event at the first position where all fields asked for agree is gone and no other; 0 or -1 says whether there was one, and the flag that goes with its kind is cleared |
| EventPool.Client.ReturnEvents | libs/ilclient/ilclient.c:682-693 | empties the component's list and changes no other list |
| EventPool.Client.RemoveCopies | libs/ilclient/ilclient.c:1431-1448 | the inner loop leaves no second copy of the current event and does not change the first occurrences |
| EventPool.Client.Deduplicate | libs/ilclient/ilclient.c:1428-1451 | the nested loop in place leaves exactly the first occurrence of each event, in order |
| EventPool.Client.Insert | libs/ilclient/ilclient.c:1601-1615 | the event becomes the head of the component's list |
| EventPool.Client.Raise | libs/ilclient/ilclient.c:1456-1599 | the flags raised on the component and on the one that waits for it |
| EventPool.Client.HandleEvent | libs/ilclient/ilclient.c:1412-1616 | lists and flags after a whole delivery, and what remains when the assertion on a spare slot fails |
| EventPool.Client.TakeCommandEnd | libs/ilclient/ilclient.c:1199-1250 | at the first event of its own list that is this completion or a terminating error: that event is gone, the code is 0 for a completion or the state reached and -1 otherwise, and an error clears the error flag; without one, -2 exactly for a terminating error of the other component, and nothing changes |
| WaitProtocol.RunKeepsInv | libs/ilclient/ilclient.c:1194-1253 | the invariants of lock, waiter's view, completions and lists hold after every run, with events removed and returned by any thread |
| WaitProtocol.ConfinedRunKeepsFlags | libs/ilclient/ilclient.c:1194-1253 | after every run that removes no error under a blocked waiter, such a waiter has a flag for every error it awaits |
| WaitProtocol.NoLostCompletion | libs/ilclient/ilclient.c:1194-1253 | in every reachable state, with any removals, a blocked waiter whose completion is in its list has a flag of its mask set |
| WaitProtocol.NoLostWakeup | libs/ilclient/ilclient.c:1194-1253 | the same for terminating errors of its own and of the other component, in every state reached without removing errors under a blocked waiter |
| WaitProtocol.NoLostWakeupFromOther | libs/ilclient/ilclient.c:1231-1248 | the same for every terminating error of the other component, if no two waits in progress name the same one |
| WaitProtocol.LostExactlyWhenSilent | libs/ilclient/ilclient.c:1546-1553 | such a run that loses the wakeup for an event exists if and only if the event is a terminating disk-full or maximum-file-size error |
| WaitProtocol.LostExactlyWhenTerminating | libs/ilclient/ilclient.c:1618-1624 | with removals by any thread at any time, a run that loses the wakeup for an event exists if and only if the event is a terminating error |
| WaitProtocol.RemovalHarmsExactlyForErrors | libs/ilclient/ilclient.c:406-449 | a removal against a blocked waiter can make it miss an event that is not silent if and only if it asks for an error that the handler records |
| WaitProtocol.MissedExactlyWhenDisplaced | libs/ilclient/ilclient.c:1191-1192 | for every terminating error, a waiter can miss it on the other component if and only if it is no longer registered there |
| WaitProtocol.TailsAreDistinct | libs/ilclient/ilclient.c:1425-1454 | in every reachable state the tail of every event list is free of duplicates |
| WaitProtocol.PoolSuffices | libs/ilclient/ilclient.c:1453-1454 | C components with at most D distinct events each never exhaust the pool if C*(D+1) <= 100 |
| WaitProtocol.WaitReturns | libs/ilclient/ilclient.c:1194-1257 | in every run a wait that is about to return a code looked at its lists under the lock at some step, and they then held what the code says, in terms of the fields of the events |
| WaitProtocol.HandlerDelivers | libs/ilclient/ilclient.c:1412-1616 | the steps of a handler taken together change list and flags of the component as one delivery on the heap does |
| WaitProtocol.LockHolderGoesOn | libs/ilclient/ilclient.c:1194-1253 | no deadlock: in every reachable state the thread that holds the event lock can go on, unless the pool is exhausted, and a free lock can be taken |
| WaitProtocol.MaskIs | libs/ilclient/ilclient.c:1183-1189 | the flags that wake a waiter, for each command that can be waited for |
| PortBuffers.IdleList.EmptyBufferDone | libs/ilclient/ilclient.c:1653-1683 | a returned buffer goes to the end of the list |
| PortBuffers.IdleList.Attempt | libs/ilclient/ilclient.c:1325-1357 | one pass of the get loop, for any predecessor left over from earlier passes: which buffer it takes and what stays on the list |
| PortBuffers.IdleList.GetInputBuffer | libs/ilclient/ilclient.c:1325-1357 | a non-blocking get takes exactly the first buffer on the port |
| PortBuffers.IdleList.EnablePortBuffers | libs/ilclient/ilclient.c:798-868 | the buffers obtained before the first failure stand in front of the list in order of allocation |
| PortBuffers.TakenOnPort | libs/ilclient/ilclient.c:1336-1350 | taking the first buffer on a port removes the head of that port's queue and leaves the other ports' queues alone |
| PortBuffers.AttemptMeans | libs/ilclient/ilclient.c:1325-1357 | what a get and a retry take and leave, buffer by buffer, with and without a predecessor left over |
| PortBuffers.OwnedExactlyUnlessStale | libs/ilclient/ilclient.c:1327-1351 | a step keeps every buffer in exactly one place if and only if it is not a retry with a predecessor left over that finds its buffer at the head |
| PortBuffers.OwnershipAndOrder | libs/ilclient/ilclient.c:1325-1357 | in every run without such a retry each buffer is in exactly one place, and on each port buffers are handed out in the order in which they came back |
| PortBuffers.OnePortIsSafe | video_sink/src/sx_video_sink.c:193-202 | with a single port on the list no such retry ever happens, however many threads wait |
| PortBuffers.TwoPortsLoseABuffer | libs/ilclient/ilclient.c:1325-1357 | a run in which a buffer is with the client and on the list at once |
| Clocks.PtsRoundTrip | mgmt_video_decoder/src/sx_mgmt_video_decoder.c:113-135 | reading inverts the standard's encoding of every 33-bit time stamp, whatever the prefix and marker bits |
| Clocks.PcrRoundTrip | mgmt_m2ts_decoder/src/sx_mgmt_m2ts_decoder.c:86-92 | reading inverts the encoding of base and extension |
| Clocks.ClocksAgree | mgmt_m2ts_decoder/src/sx_mgmt_m2ts_decoder.c:91-95 | clock reference and time stamp of the same tick give the same millisecond if and only if the extension is below 300 or the tick is not the last of a millisecond |
| Multiplex.HeaderRoundTrip | common/inc/sx_pkt.h:14-17 | packet identifier, start bit, adaptation control and continuity counter are read exactly as encoded in the four header bytes of the standard, whatever the other bits |
| Multiplex.PacketRoundTrip | common/inc/sx_pkt.h:33-40 | taking apart an encoded RTP packet yields its sequence number and exactly the transport stream packets put in |
| Multiplex.FirstClockIsRead | mgmt_m2ts_decoder/src/sx_mgmt_m2ts_decoder.c:76-95 | the first clock reference of a packet, at its place in the standard layout, is read in milliseconds of the 27 MHz clock |
| TsPacket.CountersAre | mgmt_video_decoder/src/sx_mgmt_video_decoder.c:232-241 | the counters of a packet are those of the first and the last video transport stream packet in it |
| TsPacket.ReadBigEndian | mgmt_video_decoder/src/sx_mgmt_video_decoder.c:114-118 | the loop reads its bytes as one big-endian number |
| TsPacket.ReadStart | mgmt_video_decoder/src/sx_mgmt_video_decoder.c:85-137 | the announced length and the time stamp in the PES header of a slice start, behind the adaptation field |
| TsPacket.SliceStartFind | mgmt_video_decoder/src/sx_mgmt_video_decoder.c:51-150 | finds the first slice start of a packet, if any, its time stamp and its announced length |
| TsPacket.CountPayload | mgmt_video_decoder/src/sx_mgmt_video_decoder.c:241-264 | the payload counted for one video transport stream packet, in 32 bits |
| TsPacket.DataInterpret | mgmt_video_decoder/src/sx_mgmt_video_decoder.c:197-275 | the counted payload and the continuity counters of the first and the last video transport stream packet, always assigned |
| Demux.PktTypeGet | mgmt_m2ts_decoder/src/sx_mgmt_m2ts_decoder.c:111-149 | the kind of the first audio or video transport stream packet |
| Demux.FirstMediaDecides | mgmt_m2ts_decoder/src/sx_mgmt_m2ts_decoder.c:125-145 | the first transport stream packet on one of the two media streams decides, whatever stands in front and behind |
| Demux.PcrGet | mgmt_m2ts_decoder/src/sx_mgmt_m2ts_decoder.c:55-105 | the first clock reference of a packet in milliseconds |
| Demux.VideoIsRouted | mgmt_m2ts_decoder/src/sx_mgmt_m2ts_decoder.c:132-139 | a packet routed to the video decoder contains a video transport stream packet |
| Demux.Demultiplexer.ProcessOne | mgmt_m2ts_decoder/src/sx_mgmt_m2ts_decoder.c:166-219 | the oldest packet goes to exactly one of video, audio and freed, in order; a nonzero clock reference is passed on |
| VideoDecoder.Assembly | mgmt_video_decoder/src/sx_mgmt_video_decoder.c:343-457 | between packets: looking iff the chain is empty iff the count is 0, the count is the chain's length, the chain is a run of received packets with its only slice start in front and consecutive counters |
| VideoDecoder.EveryEmissionLogged | mgmt_video_decoder/src/sx_mgmt_video_decoder.c:394-418 | every emitted slice is a non-empty, well assembled, contiguous run of received packets ended by the next slice start, and the runs do not overlap |
| VideoDecoder.TimeStamps | mgmt_video_decoder/src/sx_mgmt_video_decoder.c:394-418 | the header carries the time stamp of the first slice start since the previous emission, which is the slice's own if and only if no packet was dropped in between |
| VideoDecoder.NothingLostWithoutDrops | mgmt_video_decoder/src/sx_mgmt_video_decoder.c:343-457 | without drops the emitted slices and the chain are all packets from the first slice start on |
| VideoDecoder.ContinuityTest | mgmt_video_decoder/src/sx_mgmt_video_decoder.c:434-447 | for a source that counts its packets the test accepts if and only if the number lost is a multiple of 16 |
| VideoDecoder.SlicesAreSourceRuns | mgmt_video_decoder/src/sx_mgmt_video_decoder.c:429-457 | if all gaps are shorter than 16 every emitted slice is a contiguous run of the source's packets |
| VideoDecoder.LossDropsChain | mgmt_video_decoder/src/sx_mgmt_video_decoder.c:394-447 | with a chain under assembly, a packet drops it if and only if it starts no slice and the loss in front of it is not a multiple of 16 |
| VideoDecoder.SlicesAreWhole | mgmt_video_decoder/src/sx_mgmt_video_decoder.c:394-457 | if all gaps are shorter than 16, an emitted slice is a whole slice of the source if and only if the source's packet behind its last one starts a slice, and always if none is lost there |
| VideoDecoder.TruncatedSliceEmitted | mgmt_video_decoder/src/sx_mgmt_video_decoder.c:394-407 | a numbered source of which the last packet of a slice is lost, and the rest of that slice emitted |
| VideoDecoder.PacketsConserved | mgmt_video_decoder/src/sx_mgmt_video_decoder.c:343-457 | every packet taken from the queue is in exactly one of: an emitted slice, the chain, freed with a dropped chain, never freed |
| VideoDecoder.StaleAfterDrop | mgmt_video_decoder/src/sx_mgmt_video_decoder.c:394-418 | after a drop the next slice is emitted with the time stamp of the dropped one |
| VideoDecoder.StaleTimeStampWitness | mgmt_video_decoder/src/sx_mgmt_video_decoder.c:394-418 | four concrete packets whose only slice, due at 30 ms, is emitted with 10 ms |
| VideoDecoder.SixteenLostUnnoticed | mgmt_video_decoder/src/sx_mgmt_video_decoder.c:434-447 | a numbered source, 16 of whose packets are lost inside a slice, and a chain that goes on without them |
| VideoDecoder.ControlBlock.Process | mgmt_video_decoder/src/sx_mgmt_video_decoder.c:343-457 | the loop body on bytes and fields performs exactly one step of the decoder, keeps its invariant, and frees exactly the chain it drops |
| VideoDecoder.ControlBlock.SliceDrop | mgmt_video_decoder/src/sx_mgmt_video_decoder.c:305-318 | called only with a non-empty chain, whose packets it frees, and which it empties |
| SlicePacking.PackLossless | mgmt_video_scheduler/src/sx_mgmt_video_scheduler.c:86-176 | the concatenated buffers are the concatenated payloads |
| SlicePacking.PackBounds | mgmt_video_scheduler/src/sx_mgmt_video_scheduler.c:134-156 | each buffer holds at most 81920 bytes and all but the last more than 81920 - 184 |
| SlicePacking.BuffersNeeded | mgmt_video_scheduler/src/sx_mgmt_video_scheduler.c:136-156 | the number of buffers a slice takes is bounded by its size |
| SlicePacking.VideoSink.BufGet | video_sink/src/sx_video_sink.c:193-202 | the longest idle buffer, or null |
| SlicePacking.AppendPayload | mgmt_video_scheduler/src/sx_mgmt_video_scheduler.c:134-164 | a payload goes into the current buffer or opens the next one; fails only when no buffer is idle |
| SlicePacking.ReadPayload | mgmt_video_scheduler/src/sx_mgmt_video_scheduler.c:110-134 | the bytes of the packet behind its headers up to its end; how long the headers are is spelled out from the header bits |
| SlicePacking.DumpPacket | mgmt_video_scheduler/src/sx_mgmt_video_scheduler.c:90-170 | the walk over one packet packs exactly its video payloads |
| SlicePacking.SliceDump | mgmt_video_scheduler/src/sx_mgmt_video_scheduler.c:51-186 | succeeds if and only if enough buffers are idle, and then they hold, byte for byte and in order, the packed slice, which is the video sent by `VideoMultiplex.BuffersHoldData` |
| VideoMultiplex.DataIsRead | mgmt_video_scheduler/src/sx_mgmt_video_scheduler.c:110-161 | for every adaptation field, PES header and piece of video that fill a packet, with or without field and header, the video bytes are exactly that piece |
| VideoMultiplex.StartIsRead | mgmt_video_decoder/src/sx_mgmt_video_decoder.c:85-137 | the time stamp and the length read at a slice start are those encoded in its PES header, behind any adaptation field |
| VideoMultiplex.CountIsLength | mgmt_video_decoder/src/sx_mgmt_video_decoder.c:241-264 | the count of a packet is the length of its piece of video, except 170 for a slice start behind an adaptation field |
| VideoMultiplex.ElementaryStreamIsData | mgmt_video_scheduler/src/sx_mgmt_video_scheduler.c:86-176 | the elementary stream of a chain of packets is the video put into them, whatever fields, headers and foreign packets are between |
| VideoMultiplex.BuffersHoldData | mgmt_video_scheduler/src/sx_mgmt_video_scheduler.c:51-186 | for packets encoded in the standard layouts, the buffers into which a slice is packed hold, joined, the video sent |
| VideoMultiplex.DataReachesHardware | mgmt_video_scheduler/src/sx_mgmt_video_scheduler.c:51-225 | under every interleaving the bytes submitted are a prefix of the video that the sender put into the slices the decoder cuts out |
| VideoMultiplex.AllDataReachesHardware | mgmt_video_decoder/src/sx_mgmt_video_decoder.c:343-457 | if no packet makes the decoder drop a chain, they are a prefix of all video sent from the first slice start on |
| VideoPipeline.EndToEnd | mgmt_video_scheduler/src/sx_mgmt_video_scheduler.c:51-225 | under every interleaving the submitted buffers are in order a prefix of the packed slices that sequential decoding of the arrived video packets emits |
| VideoPipeline.EndToEndBytes | mgmt_video_scheduler/src/sx_mgmt_video_scheduler.c:51-225 | the submitted bytes are a prefix of the elementary streams of these slices, and each buffer fits; for what the sender put in see `VideoMultiplex.DataReachesHardware` |
| VideoPipeline.NothingHeldBack | mgmt_video_scheduler/src/sx_mgmt_video_scheduler.c:308-361 | when all queues and hands are empty everything emitted has been submitted |
| VideoPipeline.RestMeansSubmitted | mgmt_video_scheduler/src/sx_mgmt_video_scheduler.c:308-361 | the threads can all go on until, with a buffer idle and no slice queued, everything emitted has been submitted |
| VideoPipeline.PresentedOnTime | mgmt_video_scheduler/src/sx_mgmt_video_scheduler.c:325-338 | in every run, whenever a buffer is submitted the source time at the start of its presentation lay behind the time stamp of the slice it belongs to |
| VideoPipeline.PassBegins | mgmt_video_scheduler/src/sx_mgmt_video_scheduler.c:196-206 | a pass of the packing thread begins with ten slices less those ready, or not at all |
| VideoPipeline.PassPacks | mgmt_video_scheduler/src/sx_mgmt_video_scheduler.c:206-219 | whatever the other threads do, a pass ends when it has packed that many slices, or earlier if the slice queue is empty |
| VideoPipeline.PackerGoesOn | mgmt_video_scheduler/src/sx_mgmt_video_scheduler.c:206-219 | in every reachable state within a pass the thread can go on, unless it needs a buffer and none is idle |
| VideoPipeline.PassesEnd | mgmt_video_scheduler/src/sx_mgmt_video_scheduler.c:206-219 | every step of a pass leaves less work, and no step of another thread leaves more |
| VideoPipeline.EachBufferHeldOnce | video_sink/src/sx_video_sink.c:193-247 | in every reachable state each enabled buffer is in exactly one place |
| VideoPipeline.ReadyQueueBounded | mgmt_video_scheduler/src/sx_mgmt_video_scheduler.c:192-225 | the ready queue never holds more than 10 slices |
| VideoPipeline.WaitingBuffersUntouched | mgmt_video_scheduler/src/sx_mgmt_video_scheduler.c:308-361 | no step writes to a buffer that waits for submission |
| AudioDecoder.ChainIsShort | mgmt_audio_decoder/src/sx_mgmt_audio_decoder.c:295-321 | a chain has at most 65536 packets, so its count stays below 2^32 - 14 |
| AudioDecoder.EmittedAreComplete | mgmt_audio_decoder/src/sx_mgmt_audio_decoder.c:266-337 | every emitted chain is a run of received packets with strictly consecutive sequence numbers, begins with a slice start announcing 1920 bytes and counts exactly 1920; the runs do not overlap |
| AudioDecoder.CompleteIsEmitted | mgmt_audio_decoder/src/sx_mgmt_audio_decoder.c:266-337 | in every state between packets, the packets of a complete slice make the decoder emit it if and only if it is looking for a slice |
| AudioDecoder.LossTakesNextSlice | mgmt_audio_decoder/src/sx_mgmt_audio_decoder.c:285-312 | a slice received whole and not emitted because the end of the one before it was lost |
| AudioDecoder.PacketsConserved | mgmt_audio_decoder/src/sx_mgmt_audio_decoder.c:266-337 | as long as no assertion fails, every packet taken from the queue is in exactly one of: an emitted slice, the chain, freed with a dropped chain, never freed |
| AudioDecoder.StreamIsDelivered | mgmt_audio_decoder/src/sx_mgmt_audio_decoder.c:266-337 | a stream of complete slices without loss comes out as exactly these slices |
| AudioDecoder.LossTest | mgmt_audio_decoder/src/sx_mgmt_audio_decoder.c:304-312 | a slice is dropped if and only if the next 16-bit sequence number is missing or the number wraps around |
| AudioDecoder.SampleIsSendable | mgmt_audio_decoder/src/sx_mgmt_audio_decoder.c:99-104 | concrete slices that count 1920 bytes, with and without an adaptation field in front of their start |
| AudioDecoder.WrapLosesSlice | mgmt_audio_decoder/src/sx_mgmt_audio_decoder.c:295-312 | a complete slice whose sequence numbers wrap around is received whole and not emitted |
| AudioDecoder.AudioStartFind | mgmt_audio_decoder/src/sx_mgmt_audio_decoder.c:63-116 | finds the first slice start of a packet, if any, and the length it announces |
| AudioDecoder.PesPayloadSize | mgmt_audio_decoder/src/sx_mgmt_audio_decoder.c:122-183 | the counted payload of a packet |
| AudioDecoder.ControlBlock.SliceDrop | mgmt_audio_decoder/src/sx_mgmt_audio_decoder.c:213-226 | called only with a non-empty chain, whose packets it frees, and which it empties |
| AudioDecoder.ControlBlock.BeginSlice | mgmt_audio_decoder/src/sx_mgmt_audio_decoder.c:285-300 | the first half of the loop body begins a slice, or fails exactly when the announced length fails the assertion |
| AudioDecoder.ControlBlock.ContinueSlice | mgmt_audio_decoder/src/sx_mgmt_audio_decoder.c:302-337 | the second half adds the packet, drops the chain or emits it, or fails exactly when more is counted than announced |
| AudioDecoder.ControlBlock.Process | mgmt_audio_decoder/src/sx_mgmt_audio_decoder.c:266-337 | the loop body on bytes and fields performs exactly one step of the decoder, or fails exactly when an assertion about the received bytes does |
| AudioScheduler.CopiesExactly | mgmt_audio_scheduler/src/sx_mgmt_audio_scheduler.c:142-212 | for every emitted slice the copy stays within 1920 bytes, and is exactly 1920 if and only if no slice start is behind an adaptation field |
| AudioScheduler.ConformingExactlyWhenUnstuffed | mgmt_audio_decoder/src/sx_mgmt_audio_decoder.c:146-164 | a slice that carries 1920 bytes and is received whole is emitted if and only if no slice start in it is behind an adaptation field |
| AudioScheduler.StuffedSliceFallsShort | mgmt_audio_scheduler/src/sx_mgmt_audio_scheduler.c:165-209 | a slice of 1920 bytes in three packets whose start is behind a clock reference: the first two are emitted, and their copy is 1912 bytes |
| AudioScheduler.ReadSamples | mgmt_audio_scheduler/src/sx_mgmt_audio_scheduler.c:165-190 | the bytes of the packet behind its headers up to its end; how long the headers are is spelled out from the header bits |
| AudioScheduler.DumpPacket | mgmt_audio_scheduler/src/sx_mgmt_audio_scheduler.c:142-204 | the walk over one packet appends exactly its samples to the buffer |
| AudioScheduler.SamplesKept | mgmt_audio_scheduler/src/sx_mgmt_audio_scheduler.c:72-82 | exchanging the bytes of each sample keeps its value in the machine's order, and twice restores them |
| AudioScheduler.EndiannessConvert | mgmt_audio_scheduler/src/sx_mgmt_audio_scheduler.c:72-82 | the loop in place exchanges the bytes of every sample |
| AudioScheduler.SliceDump | mgmt_audio_scheduler/src/sx_mgmt_audio_scheduler.c:134-215 | the buffer holds the audio stream of the slice, sample for sample in the machine's order; the length assertion fails exactly for slice starts behind an adaptation field |
| AudioMultiplex.DataIsRead | mgmt_audio_scheduler/src/sx_mgmt_audio_scheduler.c:165-190 | for every adaptation field, header of 20 bytes and piece of audio that fill a packet, the samples copied are exactly that piece |
| AudioMultiplex.CountIsLength | mgmt_audio_decoder/src/sx_mgmt_audio_decoder.c:146-164 | the count of a packet is the length of its piece of audio, except 164 for a slice start behind an adaptation field |
| AudioMultiplex.LengthIsRead | mgmt_audio_decoder/src/sx_mgmt_audio_decoder.c:87-104 | a slice start without an adaptation field announces the length in its PES header less 14, in 32 bits |
| AudioMultiplex.AudioStreamIsData | mgmt_audio_scheduler/src/sx_mgmt_audio_scheduler.c:134-204 | the audio stream of a chain of packets, as it is copied, is the audio put into them |
| AudioMultiplex.SentSlicesAreEmitted | mgmt_audio_decoder/src/sx_mgmt_audio_decoder.c:266-337 | of a stream of slices of 1920 bytes, described by what the sender puts into the packets, the decoder emits exactly these slices |
| AudioMultiplex.SentSliceIsPlayed | mgmt_audio_scheduler/src/sx_mgmt_audio_scheduler.c:134-215 | the buffer of such a slice plays if and only if it holds the bytes sent, with those of every sample exchanged |
| AudioScheduler.MsSteps | audio_sink/src/sx_audio_sink.c:359-366 | one more buffer adds exactly 10 ms to the reading and playing never raises it |
| AudioScheduler.BacklogBounded | mgmt_audio_scheduler/src/sx_mgmt_audio_scheduler.c:226-278 | the upper side: under every interleaving the backlog stays below 211 ms, at most 22 of 100 buffers are in flight, and slices are queued in order of arrival |
| AudioScheduler.PassFills | mgmt_audio_scheduler/src/sx_mgmt_audio_scheduler.c:258-271 | the lower side: a pass that finds less than 200 ms left queues as many slices as are missing to more than 200 ms, or all that are ready, whatever arrives and is played meanwhile; if nothing is played, more than 200 and at most 210 ms are left at its end or nothing is ready |
| AudioScheduler.ActivityChanges | mgmt_audio_scheduler/src/sx_mgmt_audio_scheduler.c:226-256 | the thread becomes active exactly when it finds more than ten slices ready, and inactive exactly when it had counted none and measures 0 ms |
| AudioScheduler.GoesIdle | mgmt_audio_scheduler/src/sx_mgmt_audio_scheduler.c:242-256 | in every run it becomes inactive only at a measurement of less than 96 samples behind a count of no ready slices |
| AudioScheduler.MsIsTime | audio_sink/src/sx_audio_sink.c:359-366 | the reading is the playing time of the samples at 48 kHz in two channels, as long as the product fits 32 bits |
| AudioScheduler.InFlightIsLeast | audio_sink/src/sx_audio_sink.c:359-366 | the number of buffers in flight is the least that holds the samples not yet played |
| AudioScheduler.RightHeader | audio_sink/src/sx_audio_sink.c:484-489 | the search finds the buffer's own header if and only if all headers in front are too small |
| AudioScheduler.WrongHeader | audio_sink/src/sx_audio_sink.c:484-489 | with two buffers of the program's size in use the search for the older one stops at the newer |
| AudioScheduler.UserList.GetBuffer | audio_sink/src/sx_audio_sink.c:432-451 | a buffer taken goes to the front of the list |
| AudioScheduler.UserList.PlayBuffer | audio_sink/src/sx_audio_sink.c:471-517 | takes off the first header that the search stops at and hands it to the renderer with its filled length, or reports an error and changes nothing |
| Outline.WellTaggedHaveMeaning | libs/vgfont/vgft.c:74-149 | a contour has a meaning if and only if its tags match On (On, Second+ On, Third Third On)* (Second+, Third Third)? |
| Outline.TagBits | libs/vgfont/vgft.c:79-112 | the low two bits of a tag: on the curve, or a control point of a quadratic or of a cubic curve |
| Outline.AtScale | libs/vgfont/vgft.c:61-64 | a tagged point lies at its coordinates in units of 1/64 |
| Outline.MidBetween | libs/vgfont/vgft.c:119-123 | the implied point is as far from one neighbour as from the other |
| Outline.MeaningCloses | libs/vgfont/vgft.c:66-155 | the meaning of a contour is a closed chain of curves, one for each point on the curve and each implied point |
| Outline.DrawCounts | libs/vgfont/vgft.c:66-155 | path data draws one curve for every segment but the moves |
| Outline.Simulates | libs/vgfont/vgft.c:74-154 | from any point of a contour on, the compiler succeeds exactly when the rest has a meaning, and draws exactly that |
| Outline.ContourMeans | libs/vgfont/vgft.c:66-155 | the assertions hold exactly for well-formed contours, and the path drawn is the contour's curves with implied midpoints, closed to the first point |
| Outline.ContourPlaces | libs/vgfont/vgft.c:74-150 | the coordinates written for a contour: every point in order, x before y, at 1/64 scale, each inserted point equidistant from its neighbours, and the first point again behind a contour that ends off the curve |
| Outline.StepPlaces | libs/vgfont/vgft.c:115-130 | one step of the compiler writes its point at its place, behind an inserted one exactly between two control points of quadratic curves |
| Outline.ContourBounds | libs/vgfont/vgft.c:66-155 | n points give at most n + 1 segments and 4n - 2 coordinates |
| Outline.CompileBounds | libs/vgfont/vgft.c:157-172 | the same for whole outlines, in points and contours |
| Outline.ArraysSuffice | libs/vgfont/vgft.c:53-59 | outlines of at most 256 points and contours together fit both arrays |
| Outline.OutlineMeans | libs/vgfont/vgft.c:157-172 | an outline compiles exactly when every contour is well formed and all points are used, and draws the contours in order |
| Outline.OutlinePlaces | libs/vgfont/vgft.c:157-172 | the same for the contours of an outline, one after the other |
| Outline.GlyphPath.ConvertPoint | libs/vgfont/vgft.c:74-131 | the loop body on arrays and counters performs exactly one step of the compiler, of which `StepPlaces` says where the point is written |
| Outline.GlyphPath.CloseContour | libs/vgfont/vgft.c:133-154 | the code behind the loop closes the contour |
| Outline.GlyphPath.ConvertContour | libs/vgfont/vgft.c:66-155 | appends the contour's path to the arrays, every point at its place, or fails exactly when an assertion does |
| Outline.GlyphPath.ConvertOutline | libs/vgfont/vgft.c:157-172 | the arrays hold path data that draws exactly the outline's meaning, with every point at its place, or an assertion fails exactly when the outline has none |

## Left out

- The OpenMAX components, the VCOS primitives and the socket: they appear as steps of the environment, which may return buffers, report events, play samples and deliver packets at any time.
- `sx_desc`, `sx_pipe`, `sx_udp`, thread creation, component creation, tunnel setup and state changes: wrappers over memory, threads and the components.
- Disabling port buffers: its walk over a list that mixes ports reads the address of a link where it means the link (libs/ilclient/ilclient.c:951).
- The list of output buffers: the same code as for input buffers on another field.
- `ilclient_wait_for_event`: a second wait with the same structure, parameterised by mask and event.
- Two conditions on received data are preconditions: packets are framed as all stages assert, and adaptation fields fit their transport stream packet. The first walk would otherwise compute a negative size.
- Outline.GlyphPath.ConvertOutline: contour ends do not decrease, as FreeType delivers them; otherwise the source's loop would count down from a negative number.
- The sender's PES headers have the lengths that the source takes for granted: 14 bytes for video, and 20 for audio with the LPCM header. A header of another length would be read wrong by the source too.
- AudioDecoder.ChainIsShort: a packet carries at most 7 transport stream packets, which is what fits the 1472 bytes of a datagram.
- `data_len` is a number, not the 8-bit field of desc/inc/sx_desc.h:13, which cannot hold the length of a packet.
- The demultiplexer's audio queue and the one the audio decoder reads have different names in the source; they are one queue here.
- The memory of descriptors: which packets are freed and which never are is modelled, the allocator is not.
- The counters of slices and of packets in a chain are unbounded; the source's wrap at 2^32.
- VideoDecoder.ControlBlock.Process: the running sum of the payload counts is not kept; the decoder never reads it.
- PortBuffers.IdleList.EnablePortBuffers: models the allocation and the queueing. Its last part waits for the component, or after a failure disables the port and removes an error, which are the wait and the removal of `WaitProtocol` and the disabling left out above.
- The estimated source time of the video presenter is an arbitrary input of each check, so nothing depends on how the clock thread computes it.
- An assertion that a hardware buffer is idle fails in `VideoPipeline` as a step that cannot be taken, and in `SliceDump` as a result that is not ok. How many buffers the video decoder has is the component's choice.
- AudioScheduler.BacklogBounded: assumes that the component returns a buffer once its samples have been played; returning later would need a bound on the delay.
- The playback speed of the audio scheduler: one branch on the remaining time.
- Rounding of glyph coordinates: they are exact reals, and the fields of a contour are not limited to 16 bits.
- Fonts, text layout, drawing and the rest of `libs/vgfont`, and the Python scripts that drive the wireless interface.
