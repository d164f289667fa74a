# PyroWave streaming in LavArtemis: a verified model

This project models, in Dafny, how the Android client takes a PyroWave video frame from the network to
the screen, and how its stream screen survives a lost network, and proves what that code is for.

**Frames.** A PyroWave frame is a run of records: a sequence header, block records and padding, laid end to
end (record framing) or grouped into packets with their lengths in front (length-prefixed framing). It
arrives in RTP packets, some of them lost. The parser turns its bytes and the packet map into spans of whole
records the decoder may be given, skips what was lost, finds its feet again at a later packet, and says
whether the coarsest wavelet level survived.

- `Words`, `PacketMap`, `FramingSpec`: little-endian words, the packet map with its cached lookup, and what
  parsing computes, as functions of the bytes and the map.
- `Framing`: the parser itself, loops and mutable frame, proved to compute exactly that.
- `FramingSound`: what holds of every successful parse, for arbitrary bytes.
- `Sender`, `Recovery`, `Delivery`, `Verdicts`: the host's records, packed with the codec's bit fields; the
  walk seen from the records' side; which records are delivered under a loss pattern; what `partial` and
  `coarseLevelIntact` are worth.
- `Survivors`: exactly which records get through, for hosts that flag packets and for hosts that pack them.
- `Straddling`: hosts that break the packing order recovery relies on, and exactly when that matters.
- `RoundTrip`, `Prefixed`, `BothFramings`, `Lossless`: records read back field for field, both framings,
  frames that lost nothing.
- `Geometry`, `BlockMapping`, `BlockNumbering`, `BlockPixels`: the parser's closed arithmetic for block indices
  against the nested loops the codec numbers its blocks with, and these against the pixels of the bands.
- `Decoder`: the decoder's intake, its duplicate and sequence rules, the bytes it keeps, and its readiness.

**Rendering.** `DecodeUnits`, `Vulkan`, `Renderer`: the mailbox between the network thread and the render
thread, the statistics windows, and the synchronisation with the GPU. Semaphores and fences follow sections
7.3 (Fences) and 7.4 (Semaphores) of the Vulkan 1.3 specification: what that specification demands of callers
is a precondition here, and the driver's answers and the GPU's progress are arbitrary. Decodes on the one
queue run in the order submitted. `EndToEnd` joins it all: from the records a host sends and the packets lost
to what the renderer does with the frame.

**The stream screen.** `Reconnect` is the auto-reconnect as a machine of events: UI-thread handlers, timer
callbacks, stop threads and the connection thread in any order. `Overlay` is the notification overlay the
reconnect status borrows; `CommitText` is the chunking of committed text (RFC 3629, sections 3 and 4).

Where the code and its comments differ, the model follows the code:

- pyrowaveframing.h:80 says the coarsest level is always intact when a frame is not partial. Losing padding
  payload alone does not make a frame partial, so with announced critical packets this can fail.
  `Verdicts.WholeFrameVerdict` says exactly when it holds, `Verdicts.WholeYetNotIntact` shows a frame where it
  does not.
- pyrowaveframing.cpp:162-169 says that for hosts that let ordinary records straddle packets the rest of the
  frame is lost after a lost record header. One ordinary finer block within a packet is enough for the parser
  to take the host for one that packs, and it may then resume inside a record: `Straddling.StraddledFrameForged`
  is a frame of blocks 12, 13 and 14 of which 12, 20 and 14 are handed on without an error.
  `Straddling.SafeExactly` says exactly which cuts are safe under every loss pattern.
- A sequence header for 16384x16384 with sequence 7 has an all-ones first word and is read as padding
  (pyrowaveframing.cpp:214 comes before :226): `BothFramings.SequenceSevenRefused` is a frame refused for it.
  `RoundTrip.ReadsBackExactly` says that it is the only such record; `Sender.Packable` leaves it out.
- The length-prefixed walk checks neither that block sequences match nor that there is one header
  (pyrowaveframing.cpp:292-345), so `FramingSound.RecordFrameSound` is about record framing alone.
- Game.java:4151 says a failed attempt has let go of the core when the UI thread hears of it. An attempt that
  fails inside startConnection reports first and releases the semaphore after (NvConnection.java:570-576), so
  the next attempt may have to wait for it: `Reconnect.StartedWhileOwed` is such a run, and
  `Reconnect.Game.AttemptDue` says that the permit is free exactly when nothing is owed.
- A text of several chunks queued on an empty queue does not start the flush (Game.java:5547).
  `CommitText.LongTextWaits` is one; `CommitText.CommitTextQueue.EnqueueCommitText` says exactly when the flush
  is started.
- Parse counts block records, the decoder counts different blocks: a frame that repeats a block passes the
  one and is incomplete for the other (`EndToEnd.RepeatedBlockIncomplete` is one).
  `Decoder.ReadyExactlyWhenDistinct` and `EndToEnd.PrefixedUnitDecoded` say so in both directions.

The assumptions on the host are predicates: `Recovery.FrameSent` (a header for this stream, then blocks of its
sequence, as many as announced, and padding), `Delivery.Arrival` (received bytes are right, lost ones arbitrary,
the first 8 received; for a decode unit `EndToEnd.UnitArrives`), `Delivery.Truthful` (the walk resumes at records
sent; `Recovery.HostAligns`, truthful flags or without them `Verdicts.HostLayout`, guarantees it for every loss)
and `Verdicts.CoarseFirst` (where coarse blocks are sent). Nothing in `FramingSound`, `Lossless` and `Decoder`
assumes a host.

In the table, the main results come first and the others follow module by module.

## Model

| member | source | states |
|---|---|---|
| RoundTrip.DamagedFrameUnpacks | app/src/main/jni/pyrowave-renderer/pyrowaveframing.cpp:162-289 | For every frame a host sends, every cut into packets and every loss pattern that spares the first 8 bytes and has the parser resume on sent records only (always so for a host that keeps its promise, Delivery.PromiseKept; exactly when without, Straddling.SafeExactly): parse succeeds, and the bytes handed on unpack to records that were sent, each whole and as sent, in the order sent. |
| Delivery.DamagedFrame | app/src/main/jni/pyrowave-renderer/pyrowaveframing.cpp:389-495 | The same frame in bytes and counts: the spans are the encodings of the delivered records one after the other, the sequence header first, no padding, none that lost a byte; blockRecords counts them; partial holds exactly when a byte of a record header or of a block was lost, and otherwise every record but padding is delivered and the count is the announced one. |
| Delivery.PromiseKept | app/src/main/jni/pyrowave-renderer/pyrowaveframing.cpp:162-167 | A host whose flagged packets start with records, or which packs as promised without flags, has the parser resume on sent records only, whatever is lost. |
| Straddling.SafeExactly | app/src/main/jni/pyrowave-renderer/pyrowaveframing.cpp:162-169 | Hosts without flags that let ordinary records straddle packets, for every frame and every cut: no loss pattern ever takes the parser off the record boundaries if and only if the cut has no trap: a finer block within one packet that would fit a full packet together with an empty padding record, then (past padding) a header reaching beyond that packet, and a later packet that starts inside a record while another packet carries a byte of that header. |
| Recovery.RunFollows | app/src/main/jni/pyrowave-renderer/pyrowaveframing.cpp:170-289 | The whole loop follows the record-level walk to its end, whatever was lost, as long as every resumption is at a record sent. |
| Survivors.FlaggedExactly | app/src/main/jni/pyrowave-renderer/pyrowaveframing.cpp:199-204 | A host that flags the packets that start with a record, for every frame, cut and loss: the records delivered are exactly those, other than padding, that lost no byte and that can be reached from the start of a received packet that starts with a record without meeting a lost header. |
| Survivors.PackedExactly | app/src/main/jni/pyrowave-renderer/pyrowaveframing.cpp:162-204 | A host that packs without flags (in bytes: up to some record only oversized finer blocks, then finer blocks that would fit a full packet together with an empty padding record, none crossing a packet boundary): the records delivered are exactly those, other than padding, that lost no byte and either follow no lost header or follow a packed block that follows none; so one packed block received makes the parser deliver every later record whose packet was received. |
| Verdicts.FlaggedFrame | app/src/main/jni/pyrowave-renderer/pyrowaveframing.cpp:199-289 | When every packet starts with a record, flagged if received, the delivered records are exactly those, other than padding, that came in a received packet, and partial says exactly whether any packet was lost. |
| Verdicts.CoarseVerdict | app/src/main/jni/pyrowave-renderer/pyrowaveframing.cpp:192-197 | A frame parsed with coarseLevelIntact hands on every coarse block sent, both when the announced critical packets hold them all and when none are announced and coarse blocks precede finer ones; with packets announced the verdict is exactly whether none of the first criticalPackets packets was lost. |
| Verdicts.CoarseExactly | app/src/main/jni/pyrowave-renderer/pyrowaveframing.cpp:192-197 | With none announced, coarseLevelIntact holds exactly when nothing was damaged, or the header of a finer block was received up to the first record that was. |
| Verdicts.WholeFrameVerdict | app/src/main/jni/pyrowave-renderer/pyrowaveframing.h:79-81 | Any bytes, any map, either framing: a frame that is not partial has coarseLevelIntact if and only if no announced critical packet was lost. The header comment, which says always, holds only then. |
| FramingSound.RecordFrameSound | app/src/main/jni/pyrowave-renderer/pyrowaveframing.cpp:170-289 | Arbitrary bytes, any map parse accepts: a successful record-framed parse leaves non-empty spans in order with gaps between them and no lost byte inside, which split exactly into one leading accepted sequence header and blockRecords block records of its sequence, each at least 8 bytes long and with an index below maxBlockCount. |
| FramingSound.DeliveredAccepted | app/src/main/jni/pyrowave-renderer/pyrowaveframing.cpp:291-345 | Either framing: every record in every span of a successful parse passes all the checks; none is padding. |
| Framing.Parse | app/src/main/jni/pyrowave-renderer/pyrowaveframing.cpp:389-495 | The parser in its own loops, with the frame and the cached packet index updated in place, returns the error and leaves the frame that the specification computes, whatever the frame held before. |
| RoundTrip.SerialiseUnpack | app/src/main/jni/pyrowave/pyrowave/pyrowave_common.hpp:20-28 | Packing records with the C++ bit-field layouts and laying them end to end loses nothing: reading back gives the same records, field for field. |
| RoundTrip.ReadsBackExactly | app/src/main/jni/pyrowave/pyrowave/pyrowave_common.hpp:75-89 | A record whose fields fit their bits is read back from its two words and body, field for field, if and only if it is not the header of a 16384x16384 stream with sequence 7; that one reads as padding. |
| BothFramings.RecordFramedRoundTrip | app/src/main/jni/pyrowave-renderer/pyrowaveframing.cpp:428-445 | Record framing with any padding and nothing lost: whatever the map, the flags and the announced packets, the records other than padding come back, as many blocks as announced. |
| BothFramings.PrefixedRoundTrip | app/src/main/jni/pyrowave-renderer/pyrowaveframing.cpp:446-481 | Length-prefixed framing with any grouping of the records into packets: the same records come back, one span a packet, with the announced count. |
| BothFramings.FramingsAgree | app/src/main/jni/pyrowave-renderer/pyrowaveframing.h:7-13 | Both framings of the same records hand the decoder the same records and report the same counts. |
| Lossless.MapIrrelevant | app/src/main/jni/pyrowave-renderer/pyrowaveframing.cpp:377-381 | With no packet lost, any map that tiles the frame, any flags and any critical packet count give the same error and the same frame as no map at all. |
| Lossless.BytesConserved | app/src/main/jni/pyrowave-renderer/pyrowaveframing.cpp:211-224 | Any bytes without loss: span sizes plus paddingBytes make up a record frame, span sizes plus 4 and 4 a packet a length-prefixed one. |
| BlockNumbering.MappingsPartition | app/src/main/jni/pyrowave/pyrowave/pyrowave_common.cpp:191-211 | For every geometry, each 8x8 index below the count lies in exactly one mapping rectangle. |
| BlockNumbering.NumberingAgrees | app/src/main/jni/pyrowave-renderer/pyrowaveframing.cpp:358-375 | For every expressible width, height and chroma mode, the parser closed arithmetic gives the number of blocks and of mappings the codec loops build. |
| BlockNumbering.CoarseIndices | app/src/main/jni/pyrowave-renderer/pyrowaveframing.cpp:348-356 | Every block index belongs to a band, and the indices below coarseBlockCount are exactly those of the coarsest level. |
| BlockPixels.BandPixels | app/src/main/jni/pyrowave/pyrowave/pyrowave_common.cpp:225-239 | Against the pixels: the 8x8 indices of a band are exactly those of the blocks (x/8, y/8) of its pixels, numbered row by row, behind those of the bands before it. |
| BlockPixels.PixelCovered | app/src/main/jni/pyrowave/pyrowave/pyrowave_common.cpp:191-211 | Every pixel lies in an 8x8 block that the mapping of its 32x32 block (x/32, y/32) covers. |
| Decoder.DecoderNeverRefuses | app/src/main/jni/pyrowave/pyrowave/pyrowave_decoder.cpp:157-275 | Whatever the bytes and the losses, the decoder, which numbers its own blocks, refuses no span of a successful parse, whatever it took in before. |
| Decoder.ReadyExactlyWhenDistinct | app/src/main/jni/pyrowave/pyrowave/pyrowave_decoder.cpp:847-868 | A record frame that is not partial makes the decoder ready exactly when no two of its block records share an index: parse counts records, the decoder blocks. |
| EndToEnd.HeldBytes | app/src/main/jni/pyrowave/pyrowave/pyrowave_decoder.cpp:129-155 | And of each it holds, at the offset kept for its index, exactly the bytes the host packed for the first record of that block that was delivered. |
| EndToEnd.DamagedFrameJudged | app/src/main/jni/pyrowave-renderer/pyrowave_renderer.cpp:1359-1401 | From the records sent and the packets lost to the verdict: decoded whole when nothing that matters is missing and no block was sent twice, as a partial frame when the coarsest level is known complete and more than nine in ten blocks arrived, incomplete, coarse-lost or too few otherwise, and nothing else. |
| EndToEnd.DamagedUnitJudged | app/src/main/jni/pyrowave-renderer/pyrowave_renderer.cpp:685-711 | The same verdict for a decode unit with losses, read off its buffers: received ones hold what was sent there, those of type Lost anything; which bytes were lost, which packets are flagged and how many are critical is what the buffers and the unit say. |
| EndToEnd.WholeUnitDecoded | app/src/main/jni/pyrowave-renderer/pyrowave_renderer.cpp:685-711 | A record-framed unit that lost no packet is decoded whole, however it was cut, flagged and announced, if and only if the host sent no block twice. |
| EndToEnd.PrefixedUnitDecoded | app/src/main/jni/pyrowave-renderer/pyrowave_renderer.cpp:1359-1401 | A length-prefixed unit that lost no packet, however its records were grouped, is decoded whole if and only if no two of its blocks share an index, and is incomplete otherwise. |
| Renderer.Renderer.AnyRun | app/src/main/jni/pyrowave-renderer/pyrowave_renderer.cpp:665-1588 | The network thread (counting, then delivering), the render thread (taking, decoding, presenting), the overlay, the GPU and shutdown in any order of their turns: every frame is accounted for and every invariant kept after each; once stopped and done with its frame, the render thread takes no other. |
| Renderer.Renderer.DecodeAndPresent | app/src/main/jni/pyrowave-renderer/pyrowave_renderer.cpp:1438-1572 | Exactly one of presented, rejected and skipped counts the frame, so that submitted = replaced + rejected + presented + skipped + offered + pending + in hand throughout; a frame submits a decode only when decodable and at most one render, of that decode, after it; once broken, every frame is rejected and the GPU left alone. |
| Vulkan.RendersWholePicture | app/src/main/jni/pyrowave-renderer/pyrowave_renderer.cpp:1403-1413 | In every reachable GPU state, while a render runs the planes hold the whole picture of the latest decode submitted before it, and no decode is writing them. |
| Vulkan.Drains | app/src/main/jni/pyrowave-renderer/pyrowave_renderer.cpp:1279-1286 | No deadlock: from every state between frames the GPU can finish all that was submitted, which leaves the fence signalled and the acquire semaphore free. |
| Reconnect.Game.AnyRun | app/src/main/java/com/limelight/Game.java:4027-4272 | Any interleaving of UI events, timers, stop threads and the connection thread keeps the invariants: one semaphore permit, one owner of a running connection, no stall; reconnecting excludes connected and coincides with the decoder parking being open and the status being up; and a stream that was left or whose reconnect failed is never connected again, even by a late attempt. |
| Reconnect.Game.Recover | app/src/main/java/com/limelight/Game.java:4079-4145 | No stall: from every reachable state with a reconnect under way, the events pending and a host that answers bring the stream back. |
| Reconnect.Game.AttemptDue | app/src/main/java/com/limelight/Game.java:4103-4128 | An attempt starts only while reconnecting, with no connection running, being stopped or starting; the semaphore permit is free then if and only if the last start that failed inside startConnection, if any, has given it back; without a surface the reconnect ends. |
| Overlay.BorrowedAndGivenBack | app/src/main/java/com/limelight/Game.java:3952-3975 | For every run of status updates, reconnect statuses and picture-in-picture changes: beneath the status, the overlay is as on a screen that never showed one, a finished reconnect forcing it gone, and the view is hidden exactly in picture-in-picture or when not wanted. |
| CommitText.CommitTextQueue.EnqueueCommitText | app/src/main/java/com/limelight/Game.java:5530-5550 | For every valid UTF-8 text, the chunks queued are non-empty, at most 512 bytes, of whole code points, and together the text; the flush is started exactly when the queue was empty and the text fits one chunk. |
| Framing.WalkRecordFrame | app/src/main/jni/pyrowave-renderer/pyrowaveframing.cpp:170-289 | The record walk, loop and all, computes the specification of a record-framed frame; it terminates because every branch moves on. |
| Framing.RecordWalker.Iterate | app/src/main/jni/pyrowave-renderer/pyrowaveframing.cpp:199-285 | One turn of the loop: the branches, in order, do what the specified step does to position, span, flags and frame. |
| Framing.WalkPacket | app/src/main/jni/pyrowave-renderer/pyrowaveframing.cpp:292-345 | The walk over one length-prefixed packet computes its specification. |
| Framing.WalkPackets | app/src/main/jni/pyrowave-renderer/pyrowaveframing.cpp:453-480 | The loop over length-prefixed packets computes its specification, the bytes left over included. |
| Framing.CheckTiling | app/src/main/jni/pyrowave-renderer/pyrowaveframing.cpp:404-415 | The running sum over the map accepts it exactly when the packets follow each other from 0 to the frame size and none is empty. |
| Framing.CheckSequenceHeader | app/src/main/jni/pyrowave-renderer/pyrowaveframing.cpp:128-160 | The header checks refuse with the first reason that applies, and otherwise note the header in the frame. |
| Framing.RecordWalker.IterateBlock | app/src/main/jni/pyrowave-renderer/pyrowaveframing.cpp:239-285 | The block branch: each check refuses with its own reason, in order; otherwise the record is passed or skipped as specified. |
| Framing.RecordWalker.Recover | app/src/main/jni/pyrowave-renderer/pyrowaveframing.cpp:200-204 | After a lost header the loss is noted and the walk goes to the next received packet that may start a record, or to the end. |
| FramingSound.RunKeeps | app/src/main/jni/pyrowave-renderer/pyrowaveframing.cpp:199-288 | The invariant behind it, carried through every branch of the loop. |
| FramingSound.AnnouncedBound | app/src/main/jni/pyrowave-renderer/pyrowaveframing.cpp:152-158 | Any bytes, any map, either framing: no frame announces more blocks than its geometry has. |
| FramingSound.AcceptedInput | app/src/main/jni/pyrowave-renderer/pyrowaveframing.cpp:399-431 | A frame is parsed only from whole words, a map that tiles them or none, with every packet of the first 8 bytes received, and, when length-prefixed, every packet. |
| PacketMap.SegmentMap.IndexOf | app/src/main/jni/pyrowave-renderer/pyrowaveframing.cpp:99-121 | Whatever the cache holds, the index found is that of the last packet starting at or before the position. |
| PacketMap.IndexOfUnique | app/src/main/jni/pyrowave-renderer/pyrowaveframing.cpp:98-121 | There is only one such index, so the cached lookup is the stateless one. |
| PacketMap.SegmentMap.Lost | app/src/main/jni/pyrowave-renderer/pyrowaveframing.cpp:48-61 | For every range: lost(start, end) is true exactly when some lost packet, at or past the one holding start, begins before end; for a non-empty range that starts within the map, exactly when some byte of it came in a lost packet. |
| PacketMap.SegmentMap.WithinOnePacket | app/src/main/jni/pyrowave-renderer/pyrowaveframing.cpp:64-68 | For every range, withinOnePacket is exactly: some packet holds the whole of it. |
| PacketMap.SegmentMap.NextReceivedStart | app/src/main/jni/pyrowave-renderer/pyrowaveframing.cpp:87-95 | For every position, the scan from the cached index finds what a search of the whole map finds, and nothing before the first packet. |
| PacketMap.NextReceivedLeast | app/src/main/jni/pyrowave-renderer/pyrowaveframing.cpp:85-95 | That is the least start beyond the position of a received packet, flagged when a flag is required. |
| PacketMap.SegmentMap.UpperBound | app/src/main/jni/pyrowave-renderer/pyrowaveframing.cpp:114-115 | The binary search splits the packets into those starting at or before the position and those starting beyond it. |
| Recovery.StepFollows | app/src/main/jni/pyrowave-renderer/pyrowaveframing.cpp:199-285 | One turn of the parser loop, which sees bytes only, is one step of the record-level walk, unless it resumes inside a record: the cursor goes from one true record boundary to another and no check fails. |
| Recovery.ResumeIndexRight | app/src/main/jni/pyrowave-renderer/pyrowaveframing.cpp:202 | The record the walk resumes at is the first that starts at or beyond the resume position, and it starts exactly there. |
| Delivery.PartialExactly | app/src/main/jni/pyrowave-renderer/pyrowaveframing.cpp:192-224 | The walk is partial exactly when a header or a block from here on lost a byte; losing padding payload alone never makes it so. |
| Straddling.CursorExactly | app/src/main/jni/pyrowave-renderer/pyrowaveframing.cpp:199-285 | One run, byte by byte: the cursor of the parser is on starts of sent records throughout if and only if every resumption of the record-level walk is. |
| Straddling.ForeignBlockTaken | app/src/main/jni/pyrowave-renderer/pyrowaveframing.cpp:200-204 | Where the comment fails: in every such scene the parser resumes inside a straddling block and hands on a block nobody sent, without an error, with as many blocks as announced. |
| Straddling.StraddledFrameForged | app/src/main/jni/pyrowave-renderer/pyrowaveframing.cpp:264-284 | Such a scene in full: 128x128, 4:2:0, three packets, the middle one lost, blocks 12, 13 and 14 sent, blocks 12, 20 and 14 handed on. |
| Verdicts.LayoutAligns | app/src/main/jni/pyrowave-renderer/pyrowaveframing.cpp:162-167 | The order a packing host without flags sends in, in bytes (finer records before record m do not fit a full packet together with an empty padding record, records from m on cross no packet boundary), makes every place the parser infers to be aligned truly so. Other hosts: Straddling.SafeExactly. |
| Verdicts.WholeYetNotIntact | app/src/main/jni/pyrowave-renderer/pyrowaveframing.h:80 | A concrete frame for which that comment is false: padding payload lost in a packet announced as critical. |
| Verdicts.CarriedOrLost | app/src/main/jni/pyrowave-renderer/pyrowaveframing.cpp:270-276 | Then a record lost a byte exactly when the packet that carried it was lost. |
| Verdicts.AnyLostDamages | app/src/main/jni/pyrowave-renderer/pyrowaveframing.cpp:192-194 | Then any lost packet damages a header or a block. |
| Verdicts.PaddingLost | app/src/main/jni/pyrowave-renderer/pyrowaveframing.cpp:214-224 | A frame that lost padding payload alone is not partial, and intact exactly when no announced critical packet was lost. |
| Sender.HeaderFields | app/src/main/jni/pyrowave-renderer/pyrowaveframing.cpp:128-135 | The shifts and masks the parser reads a sequence header with undo the packing. |
| Sender.BlockFields | app/src/main/jni/pyrowave-renderer/pyrowaveframing.cpp:239-241 | Likewise for a block header, whose length field is the record length in words. |
| RoundTrip.FieldsBack | app/src/main/jni/pyrowave/pyrowave/pyrowave_common.hpp:75-89 | For every other record the two words also give its length. |
| Prefixed.PacketsRead | app/src/main/jni/pyrowave-renderer/pyrowaveframing.cpp:459-475 | The loop over a well-formed length-prefixed frame goes from packet to packet and ends with all of them counted. |
| BothFramings.SequenceSevenRefused | app/src/main/jni/pyrowave-renderer/pyrowaveframing.cpp:214-226 | That header at work: a frame of no blocks that starts with it is refused for want of a sequence header. |
| BothFramings.SequenceSixTaken | app/src/main/jni/pyrowave-renderer/pyrowaveframing.cpp:226-234 | The same frame with sequence 6 is taken. |
| Geometry.BlockCountBound | app/src/main/jni/pyrowave-renderer/pyrowaveframing.cpp:348-375 | 0 < coarse < max <= 786432: a 24-bit index names every block. |
| Geometry.AlignedLeast | app/src/main/jni/pyrowave-renderer/pyrowaveframing.cpp:24-28 | The aligned extent is the least multiple of 32 that is no smaller than the extent and 128. |
| Geometry.BlockCountBoundTight | app/src/main/jni/pyrowave-renderer/pyrowaveframing.cpp:358-375 | The bound is reached at 16384x16384, 4:4:4. |
| Geometry.ComputeMaxBlockCount | app/src/main/jni/pyrowave-renderer/pyrowaveframing.cpp:358-375 | The accumulating loop computes the sum over levels. |
| BlockMapping.WaveletBuffers.InitBlockMeta | app/src/main/jni/pyrowave/pyrowave/pyrowave_common.cpp:213-243 | The nested loops, updating the tables in place, place the coded bands in order. |
| BlockMapping.WaveletBuffers.AccumulateBlockMapping | app/src/main/jni/pyrowave/pyrowave/pyrowave_common.cpp:191-211 | One band adds its grid of mappings in row-major order and moves both counts on. |
| BlockMapping.WaveletBuffers.AccumulateRow | app/src/main/jni/pyrowave/pyrowave/pyrowave_common.cpp:198-207 | One row of mappings is added, clipped at the right and the bottom of the band. |
| BlockNumbering.CoveredInRange | app/src/main/jni/pyrowave/pyrowave/pyrowave_common.cpp:200-205 | No mapping covers an 8x8 index outside the count. |
| BlockNumbering.EveryBandEntry | app/src/main/jni/pyrowave/pyrowave/pyrowave_common.cpp:223-239 | Every coded band has an entry, and entry offset + y*stride + x is that band mapping (x, y), for every x and y of the band. |
| BlockNumbering.CeilOfCeil | app/src/main/jni/pyrowave/pyrowave/pyrowave_common.cpp:228-231 | Counting 32x32 blocks over 8x8 blocks or over pixels comes to the same. |
| BlockNumbering.LevelsFromMembers | app/src/main/jni/pyrowave/pyrowave/pyrowave_common.cpp:215-223 | The nested loops visit exactly the coded bands of each level, each once. |
| BlockPixels.BandPlace | app/src/main/jni/pyrowave/pyrowave/pyrowave_common.cpp:225-231 | A band begins at the 8x8 index that counts the begun eights of the bands before it, in rows no wider than its pixels need. |
| BlockPixels.CellCount | app/src/main/jni/pyrowave/pyrowave/pyrowave_common.cpp:209-211 | The 8x8 count is the sum of ceil(w/8) * ceil(h/8) over the coded bands. |
| BlockPixels.OrderRight | app/src/main/jni/pyrowave/pyrowave/pyrowave_common.cpp:213-243 | The bands are numbered coarse levels first, then luma before chroma, then band by band, and are exactly the coded ones. |
| Decoder.PartialReadyExactly | app/src/main/jni/pyrowave/pyrowave/pyrowave_decoder.cpp:847-868 | The readiness asked of a partial frame holds exactly when the different blocks delivered are all those announced or more than nine in ten. |
| Decoder.PacketDecoder.PushPacket | app/src/main/jni/pyrowave/pyrowave/pyrowave_decoder.cpp:157-275 | The intake loop, with its early returns and restarts, computes the specified intake. |
| Decoder.PushAllHolds | app/src/main/jni/pyrowave/pyrowave/pyrowave_decoder.cpp:129-155 | After all spans the decoder holds exactly the different blocks of the one frame, each counted once, with the bytes of the first record of each at the offset kept for it, and its announced total. |
| Decoder.PushExactly | app/src/main/jni/pyrowave/pyrowave/pyrowave_decoder.cpp:157-275 | Arbitrary bytes whose records are of one sequence: push_packet succeeds if and only if they split into whole records, each a header of the stream or a block of at least a header with an index there is. |
| Decoder.SequenceOrder | app/src/main/jni/pyrowave/pyrowave/pyrowave_decoder.cpp:180-190 | Three bits of the frame number suffice: of two frames at most three apart (four, when the second is older), a record of the newer starts over, with nothing to decode yet, one of the older is stale, one of the same frame goes on. |
| Decoder.NewerStartsOver | app/src/main/jni/pyrowave/pyrowave/pyrowave_decoder.cpp:180-190 | Whatever was held, the bytes of a newer frame are taken in exactly as by a cleared decoder. |
| Decoder.OlderIgnored | app/src/main/jni/pyrowave/pyrowave/pyrowave_decoder.cpp:239-245 | Of an older frame nothing is taken in, and nothing held is lost. |
| Decoder.PacketDecoder.StoreBlock | app/src/main/jni/pyrowave/pyrowave/pyrowave_decoder.cpp:129-155 | The first record of a block is stored behind what is held and counted, a later one is dropped. |
| DecodeUnits.AssembledTiles | app/src/main/jni/pyrowave-renderer/pyrowave_renderer.cpp:692-706 | The segments of an assembled unit tile its data exactly when no buffer is empty. |
| DecodeUnits.AssembledSays | app/src/main/jni/pyrowave-renderer/pyrowave_renderer.cpp:692-708 | Segment by segment: buffer i lies behind those before it, byte for byte, is marked lost exactly when it stands for a lost packet and as a record start exactly when its packet starts with one; the critical packets are the count the unit came with. |
| DecodeUnits.BytesLost | app/src/main/jni/pyrowave-renderer/pyrowave_renderer.cpp:701-703 | A byte of the frame counts as lost exactly when it lies in a buffer that stands for a lost packet. |
| DecodeUnits.ReceivedAndLost | app/src/main/jni/pyrowave-renderer/pyrowave_renderer.cpp:665-675 | For strictly increasing positive frame numbers, received + lost = last - first + 1. |
| DecodeUnits.LatencyTold | app/src/main/jni/pyrowave-renderer/pyrowave_renderer.cpp:675-683 | A window whose latency figures are those of the units counted in it (how many reported one, the sum, the least and the greatest) stays so with one unit more. |
| DecodeUnits.LatencyBounds | app/src/main/jni/pyrowave-renderer/pyrowave_renderer.cpp:676-683 | So frames times minimum <= total <= frames times maximum. |
| Vulkan.WaitsCovered | app/src/main/jni/pyrowave-renderer/pyrowave_renderer.cpp:1523-1530 | No submission waits for a value whose signal was not submitted before it, and each timeline is signalled with 1, 2, 3, and so on. |
| Vulkan.EventKeeps | app/src/main/jni/pyrowave-renderer/pyrowave_renderer.cpp:1403-1413 | Whatever the GPU does next, the timeline, fence and semaphore invariants last. |
| Vulkan.QueueDecodeKeeps | app/src/main/jni/pyrowave-renderer/pyrowave_renderer.cpp:1404-1413 | Submitting a decode with the values the renderer passes keeps them, and its signal is greater than all before. |
| Vulkan.QueueRenderKeeps | app/src/main/jni/pyrowave-renderer/pyrowave_renderer.cpp:1523-1562 | Submitting a render of the decode just submitted keeps them and gives fence and acquire semaphore an owner again. |
| Vulkan.FenceFrees | app/src/main/jni/pyrowave-renderer/pyrowave_renderer.cpp:1457-1481 | Once the fence is signalled, the acquire semaphore is unsignalled with nothing pending, and the fence may be reset. |
| Vulkan.StartsInOrder | app/src/main/jni/pyrowave-renderer/pyrowave_renderer.cpp:1403-1413 | The waits alone put all submissions in order: only the first unfinished one can start. |
| Vulkan.AdvanceKeeps | app/src/main/jni/pyrowave-renderer/pyrowave_renderer.cpp:1403-1413 | Any stretch of GPU activity keeps the invariants, and a signalled fence stays so until it is reset. |
| Vulkan.NextEvent | app/src/main/jni/pyrowave-renderer/pyrowave_renderer.cpp:1457-1464 | While anything submitted is unfinished, the GPU or the presentation engine can move. |
| Renderer.NeverRefused | app/src/main/jni/pyrowave-renderer/pyrowave_renderer.cpp:1374-1377 | The branch "decoder rejected a packet" is never taken. |
| Renderer.UntiledExactly | app/src/main/jni/pyrowave-renderer/pyrowave_renderer.cpp:685-711 | A submitted unit fails the tiling check exactly when one of its buffers is empty. |
| Renderer.Renderer.FillIncoming | app/src/main/jni/pyrowave-renderer/pyrowave_renderer.cpp:685-711 | Whatever fullLength says and whatever the reused frame held, the data is the buffers joined and the segments are where they lie. |
| Renderer.Renderer.Submit | app/src/main/jni/pyrowave-renderer/pyrowave_renderer.cpp:665-711 | The newest unit is in the mailbox, one it replaces is counted, and all invariants of the renderer are kept. |
| Renderer.Renderer.CountUnit | app/src/main/jni/pyrowave-renderer/pyrowave_renderer.cpp:667-684 | Under the statistics lock: the unit is counted, and every invariant holds before it is delivered. |
| Renderer.Renderer.DeliverUnit | app/src/main/jni/pyrowave-renderer/pyrowave_renderer.cpp:685-711 | Under the frame lock: the counted unit replaces what the mailbox held, which is counted if it was never taken. |
| Renderer.Renderer.TakeFrame | app/src/main/jni/pyrowave-renderer/pyrowave_renderer.cpp:1288-1300 | The render thread takes the newest unit delivered, later than any it took before, and nothing once stopped. |
| Renderer.Renderer.DecodeFrame | app/src/main/jni/pyrowave-renderer/pyrowave_renderer.cpp:1359-1415 | Exactly the frames judged decodable are submitted to the GPU; the decode waits for the last render value and signals the next decode value; partial and rejected are counted as judged. |
| Renderer.Renderer.PresentDecoded | app/src/main/jni/pyrowave-renderer/pyrowave_renderer.cpp:1448-1572 | Through every early return: presented, rejected or skipped exactly as the driver answers, broken exactly after a lost device or a failed submission; a presented frame is one render of the decode just submitted; every call meets the valid usage of the fence and the acquire semaphore. |
| Renderer.Renderer.StartFrame | app/src/main/jni/pyrowave-renderer/pyrowave_renderer.cpp:1438-1446 | The first half: the decode is queued with a greater signal than any before, or the frame is counted as rejected and the GPU left alone. |
| Renderer.Renderer.FinishFrame | app/src/main/jni/pyrowave-renderer/pyrowave_renderer.cpp:1448-1572 | The second half, from any state the other threads and the GPU may have reached since: the frame is presented, rejected or skipped as the driver answers, and counted once. |
| Renderer.Renderer.TakeStats | app/src/main/jni/pyrowave-renderer/pyrowave_renderer.cpp:1577-1588 | Dropped and partial are what was counted since the last window, and all windows with the open one add up to the global counters. |
| Renderer.Renderer.NoteUnit | app/src/main/jni/pyrowave-renderer/pyrowave_renderer.cpp:667-684 | A received unit is counted, with the gap before it and its latency: all windows together still say how many units came and were lost, and each window, the open one too, has the latency count, sum, minimum and maximum of exactly the units received in it. |
| Renderer.Renderer.PushSpans | app/src/main/jni/pyrowave-renderer/pyrowave_renderer.cpp:1368-1379 | The cleared decoder gets the spans in order until one is refused. |
| Renderer.Renderer.Acquire | app/src/main/jni/pyrowave-renderer/pyrowave_renderer.cpp:1470-1481 | An image is acquired and the fence reset only as their valid usage allows; without an image nothing changes. |
| Renderer.Renderer.RenderDecoded | app/src/main/jni/pyrowave-renderer/pyrowave_renderer.cpp:1523-1562 | One render is submitted that waits for the last decode value and signals the next render value, and the fence has an owner again. |
| Renderer.Renderer.StartsValid | app/src/main/jni/pyrowave-renderer/pyrowave_renderer.cpp:581-609 | A renderer as declared meets every invariant. |
| EndToEnd.RepeatedBlockIncomplete | app/src/main/jni/pyrowave/pyrowave/pyrowave_decoder.cpp:129-155 | A concrete frame that announces two blocks and sends block 12 twice: parse accepts it, the decoder never has enough. |
| EndToEnd.HeldBlocks | app/src/main/jni/pyrowave-renderer/pyrowave_renderer.cpp:1371-1379 | What the decoder holds after a damaged frame are the different blocks among the records delivered. |
| EndToEnd.FlaggedUnit | app/src/main/jni/pyrowave-renderer/pyrowave_renderer.cpp:701-704 | A unit whose received buffers are of type RecordStart exactly when they start with a record meets the conditions of the verdict, whatever was lost. |
| Reconnect.StartedWhileOwed | app/src/main/java/com/limelight/nvstream/NvConnection.java:570-576 | A run of the machine that ends with an attempt started and the permit not back from the attempt before it. |
| Reconnect.Game.ConnStop | app/src/main/java/com/limelight/nvstream/NvConnection.java:125-138 | Every stop finds the connection it is to stop, and none is stopped twice: the permit goes back to exactly one. |
| Reconnect.Game.AcquirePermit | app/src/main/java/com/limelight/nvstream/NvConnection.java:530-546 | A start goes on to connect only with nothing running and no permit still to come back; an aborted one gives its permit back at once. |
| Reconnect.Game.MaybeStartReconnect | app/src/main/java/com/limelight/Game.java:4027-4090 | A reconnect starts exactly when auto-reconnect is on, the stream was connected, no end was shown, and the drop and the surface allow it; otherwise nothing changes. |
| Reconnect.Game.ConnectionTerminated | app/src/main/java/com/limelight/Game.java:4362-4379 | A termination, even a duplicate, starts a reconnect under exactly those conditions, and otherwise ends the stream. |
| Reconnect.Game.DeadStopReported | app/src/main/java/com/limelight/Game.java:4080-4090 | Once the dead connection is stopped, one attempt is scheduled if the reconnect is still on. |
| Reconnect.Game.NetworkAvailable | app/src/main/java/com/limelight/Game.java:3986-3993 | A network coming back moves an attempt up but never adds one. |
| Reconnect.Game.TickDue | app/src/main/java/com/limelight/Game.java:4131-4145 | The countdown goes on while the window lasts, and ends the reconnect when it is over. |
| Reconnect.Game.StageFailedReported | app/src/main/java/com/limelight/Game.java:4148-4159 | A failed attempt schedules the next one unless its failure is final or the reconnect is over; a dialog is shown exactly when the first start failed or the failure is final. |
| Reconnect.Game.ConnectionStartedReported | app/src/main/java/com/limelight/Game.java:4514-4543 | The stream is connected exactly when the first start or an attempt still wanted got through; a late attempt is stopped, once. |
| Reconnect.Game.StopConnection | app/src/main/java/com/limelight/Game.java:4228-4272 | Leaving ends a reconnect and stops the connection exactly when one is held, on one thread. |
| Reconnect.Game.ShowConnectionEnd | app/src/main/java/com/limelight/Game.java:4383-4436 | The first end shown stops everything; later ones stop nothing. |
| Reconnect.Game.EndReconnect | app/src/main/java/com/limelight/Game.java:4180-4192 | The callbacks are gone, the parking is closed, and an attempt in flight is told to give up. |
| Reconnect.Game.RequestEnds | app/src/main/java/com/limelight/nvstream/NvConnection.java:474-526 | A request that fails, or a start told to give up, reports; otherwise the start goes on to the semaphore. |
| Reconnect.Game.ConnectEnds | app/src/main/java/com/limelight/nvstream/NvConnection.java:548-577 | A connection that comes up keeps the semaphore; a failed one has reported and still has it to give back. |
| Reconnect.Game.ReleaseFailed | app/src/main/java/com/limelight/nvstream/NvConnection.java:570-575 | The permit of a failed start comes back, once. |
| Reconnect.Game.GiveUpReconnect | app/src/main/java/com/limelight/Game.java:4196-4214 | The reconnect is over, the end is shown, and an attempt in flight is left to report. |
| Reconnect.Game.SurfaceDestroyed | app/src/main/java/com/limelight/Game.java:5014-5033 | Without a surface nothing is connected and nothing reconnects. |
| Reconnect.Game.OnStop | app/src/main/java/com/limelight/Game.java:2086-2107 | The user left: nothing is connected, nothing reconnects, and no end will be shown. |
| Reconnect.Game.SilenceCheck | app/src/main/java/com/limelight/Game.java:3922-3948 | On a live stream the status follows the silence of the control stream; otherwise the watchdog changes nothing. |
| Reconnect.Game.GetGoing | app/src/main/java/com/limelight/Game.java:4079-4159 | From any point of a reconnect an attempt gets going. |
| Overlay.StatusOnScreen | app/src/main/java/com/limelight/Game.java:3952-3963 | While up, the status is the text on the screen, and what it covers is unchanged. |
| Overlay.NotificationOverlay.ConnectionStatusUpdate | app/src/main/java/com/limelight/Game.java:4471-4509 | A status update goes to the overlay, or to the saved copy while the reconnect status has the overlay. |
| Overlay.NotificationOverlay.HideStatus | app/src/main/java/com/limelight/Game.java:3965-3975 | What was saved comes back. |
| Overlay.NotificationOverlay.ConfigurationChanged | app/src/main/java/com/limelight/Game.java:1498-1566 | Picture-in-picture hides the view, leaving it restores what is wanted. |
| Overlay.NotificationOverlay.FinishStatus | app/src/main/java/com/limelight/Game.java:4162-4172 | A finished reconnect gives back the text without the warning. |
| Overlay.StepSimulates | app/src/main/java/com/limelight/Game.java:4471-4509 | Each event does beneath the status what it would do without one. |
| CommitText.LongTextWaits | app/src/main/java/com/limelight/Game.java:5546-5549 | 513 letters on an empty queue are queued in chunks and the flush is not started. |
| CommitText.ChunkEnd | app/src/main/java/com/limelight/Game.java:5538-5542 | Stepping back from 512 bytes stops at a code point start within three steps, so a chunk is never empty and the rest is valid. |
| CommitText.BoundarySplits | app/src/main/java/com/limelight/Game.java:5539-5541 | Within valid UTF-8, a position splits the text into two valid texts exactly when no tail byte is there. |

## Left out

- Vulkan object creation, shaders, colour matrices, letterboxing, present semaphores and performance logging: foreign calls and floating point; only the success or failure of calls is an input.
- The wavelet transforms and dequantisation: the decoder ends at its intake and readiness here.
- size_t wrap-around: sizes are unbounded; uint32_t counters are modelled modulo 2^32, and the width fields as quotients and remainders by powers of two.
- Geometries beyond 16384 in BlockNumbering and Geometry, where the C++ int and uint32_t arithmetic would overflow: no sequence header can express them. A null data pointer counts as an empty frame.
- BlockNumbering.NumberingAgrees: takes the extent of a mip level as Vulkan defines it, the larger of 1 and w >> level; image creation itself is not part of this model.
- Decoder.PacketDecoder.DecodeIsReadyPartial: compares ten times the blocks held with nine times those announced, in integers, where the source multiplies floats by 0.9f.
- Decoder: a block that is already decoded for the current sequence is never asked for again, because the renderer clears the decoder before every frame.
- Renderer.Renderer.TakeStats: a window may be taken between any two turns, so between counting and delivering a unit and between decoding and presenting a frame, but not inside a turn; the two counters it reads only grow, so a window taken there would move a drop to the next one. GPU times are left out.
- Renderer.Renderer.AnyRun: a turn is what a thread does under one lock or between two waits and is one step, except that the GPU also runs while presenting waits; finer interleavings within a turn are not modelled.
- Renderer.Renderer.Shutdown: sets the stop flag; joining the thread and destroying the objects are left out, and so are the atomics' and locks' memory ordering.
- Vulkan.Drains: says the GPU can finish, not that a driver will; a lost device may never.
- Reconnect.Game: the policy's verdicts (network drop, window, final failure), the surface and the retry delay are given with the event; one screen is modelled, although the semaphore is shared by all. A start reports exactly once. Silence is given as quiet or heard. Telemetry, dialogs, toasts and quitting the app after a stop are left out.
- Reconnect.Game.RequestEnds: the request to the host, tried up to five times in the source, is one event with one outcome.
- Reconnect.Game.OnStop: leaving during the first start does not stop that start, as `connecting` is never set in the source; nothing is claimed of it.
- DecoderParking: open or closed only; the parked codec is not modelled.
- Overlay.NotificationOverlay.FinishStatus: nothing is forced when no status is up; Reconnect.Game keeps it up throughout a reconnect, but the two classes are not one object as in the source.
- CommitText: turning text into UTF-8 and flushing the queue; the chunks are bytes here and strings in the source.
- Error messages: which check failed is kept, its wording is not.
- JNI glue, controllers, menus, preferences, pairing, HTTP: thin layers over libraries, with no deep invariant of their own.
