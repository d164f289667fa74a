/** What parsing one frame computes, as functions of the frame's bytes and packet map.
    The methods in Framing are proved against these. */
module FramingSpec {
  import opened Words
  import opened Geometry
  import opened PacketMap

  const HEADER_BYTES := 8
  const HEADER_WORDS := 2
  const PADDING_MAGIC := 0xFFFF_FFFF

  datatype FramingKind = Records | LengthPrefixed

  /** A byte range that holds whole records and no padding. */
  datatype Span = Span(offset: nat, size: nat)

  datatype FrameState = FrameState(framing: FramingKind, spans: seq<Span>, blockRecords: u32, announcedBlocks: u32,
                                   sequenceHeaderSeen: bool, paddingBytes: u32, partial: bool, coarseLevelIntact: bool)

  const FRESH := FrameState(Records, [], 0, 0, false, 0, false, true)

  datatype Error =
    | NotWordAligned | NotTiled | FirstPacketLost | NoSequenceHeader | BlocksMissing
    | TrailingBytes | PaddingOverrun | SecondSequenceHeader | BlockBeforeHeader | ForeignBlock
    | UnsupportedCode | SizeDiffers | ChromaDiffers | TooManyAnnounced
    | BlockTooShort | BlockOverrun | IndexOutOfRange
    | LossInLengthPrefixed | BadPacketCount | LengthOverrun | BadPacketLength | PaddingInPacket | BytesAfterLast

  /** What parse returns (no error: true) and what it leaves in the frame. */
  datatype Result = Result(error: Option<Error>, frame: FrameState)

  // ---- Header fields ----

  predicate Extended(word0: u32) { word0 >= TOP_BIT }

  function SequenceField(word0: u32): nat { (word0 / 0x1000_0000) % 8 }

  function WidthField(word0: u32): nat { word0 % 0x4000 + 1 }

  function HeightField(word0: u32): nat { (word0 / 0x4000) % 0x4000 + 1 }

  function TotalField(word1: u32): u32 { word1 % 0x100_0000 }

  function CodeField(word1: u32): nat { (word1 / 0x100_0000) % 4 }

  predicate ChromaField(word1: u32) { (word1 / 0x400_0000) % 2 != 0 }

  function PayloadWordsField(word0: u32): nat { (word0 / 0x1_0000) % 0x1000 }

  function IndexField(word1: u32): nat { word1 / 0x100 }

  /** Why a sequence header is refused, if it is. */
  function HeaderError(word0: u32, word1: u32, geometry: StreamGeometry, maxBlocks: nat): Option<Error> {
    if CodeField(word1) != 0 then Some(UnsupportedCode)
    else if WidthField(word0) != geometry.width || HeightField(word0) != geometry.height then Some(SizeDiffers)
    else if ChromaField(word1) != geometry.chroma444 then Some(ChromaDiffers)
    else if TotalField(word1) > maxBlocks then Some(TooManyAnnounced)
    else None
  }

  function WithHeader(frame: FrameState, word1: u32): FrameState {
    frame.(sequenceHeaderSeen := true, announcedBlocks := TotalField(word1))
  }

  function WithBlock(frame: FrameState): FrameState {
    frame.(blockRecords := (frame.blockRecords + 1) % WORD)
  }

  // ---- Record framing ----

  datatype Input = Input(data: seq<byte>, segments: seq<Segment>, coarseKnown: bool, geometry: StreamGeometry,
                         maxBlocks: nat, coarseBlocks: nat)

  /** Where a walk over a record-framed frame stands. */
  datatype Walk = Walk(pos: nat, spanStart: nat, sequence: nat, aligned: bool, pastCoarse: bool, frame: FrameState)

  datatype StepResult = Next(walk: Walk) | Stop(error: Error)

  /** Close the open span and go on at `next`. */
  function SkipTo(w: Walk, next: nat): Walk {
    w.(frame := CloseSpan(w.frame, w.spanStart, w.pos), pos := next, spanStart := next)
  }

  function CloseSpan(frame: FrameState, start: nat, end: nat): FrameState {
    if end > start then frame.(spans := frame.spans + [Span(start, end - start)]) else frame
  }

  function NoteLoss(w: Walk, coarseKnown: bool): Walk {
    w.(frame := LossNoted(w.frame, w.pastCoarse, coarseKnown))
  }

  function LossNoted(frame: FrameState, pastCoarse: bool, coarseKnown: bool): FrameState {
    frame.(partial := true, coarseLevelIntact := frame.coarseLevelIntact && (pastCoarse || coarseKnown))
  }

  predicate Flagged(segments: seq<Segment>) {
    segments != [] && segments[0].recordStart
  }

  /** A record of this length fits a packet together with a padding record. */
  predicate Ordinary(segments: seq<Segment>, length: nat) {
    |segments| < 2 || length + HEADER_BYTES <= segments[0].size + 8
  }

  function Resume(input: Input, w: Walk): (next: nat)
    requires w.pos < |input.data|
    ensures w.pos < next <= |input.data|
  {
    if Flagged(input.segments) || w.aligned then
      match NextReceived(input.segments, w.pos, Flagged(input.segments))
      case None => |input.data|
      case Some(next) => Min(next, |input.data|)
    else |input.data|
  }

  ghost function Step(input: Input, w: Walk): (r: StepResult)
    requires w.pos < |input.data|
    ensures r.Next? ==> w.pos < r.walk.pos <= |input.data|
  {
    var size := |input.data|;
    if RangeLost(input.segments, w.pos, Min(w.pos + HEADER_BYTES, size)) then
      Next(SkipTo(NoteLoss(w, input.coarseKnown), Resume(input, w)))
    else if size - w.pos < HEADER_BYTES then Stop(TrailingBytes)
    else
      var word0, word1 := ReadU32(input.data, w.pos), ReadU32(input.data, w.pos + 4);
      if word0 == PADDING_MAGIC then PaddingStep(input, w, word1)
      else if Extended(word0) then HeaderStep(input, w, word0, word1)
      else BlockStep(input, w, word0, word1)
  }

  function PaddingStep(input: Input, w: Walk, word1: u32): (r: StepResult)
    requires w.pos + HEADER_BYTES <= |input.data|
    ensures r.Next? ==> w.pos < r.walk.pos <= |input.data|
  {
    var padBytes: int := HEADER_BYTES + (word1 as int) * 4;
    if padBytes > |input.data| - w.pos then Stop(PaddingOverrun)
    else
      var padded := w.(frame := w.frame.(paddingBytes := (w.frame.paddingBytes as int + padBytes) % WORD));
      Next(SkipTo(padded, w.pos + padBytes))
  }

  function HeaderStep(input: Input, w: Walk, word0: u32, word1: u32): (r: StepResult)
    requires w.pos + HEADER_BYTES <= |input.data|
    ensures r.Next? ==> w.pos < r.walk.pos <= |input.data|
  {
    if w.frame.sequenceHeaderSeen then Stop(SecondSequenceHeader)
    else
      match HeaderError(word0, word1, input.geometry, input.maxBlocks)
      case Some(error) => Stop(error)
      case None =>
        Next(w.(frame := WithHeader(w.frame, word1), sequence := SequenceField(word0), pos := w.pos + HEADER_BYTES))
  }

  ghost function BlockStep(input: Input, w: Walk, word0: u32, word1: u32): (r: StepResult)
    requires w.pos + HEADER_BYTES <= |input.data|
    ensures r.Next? ==> w.pos < r.walk.pos <= |input.data|
  {
    var length, index := PayloadWordsField(word0) * 4, IndexField(word1);
    if !w.frame.sequenceHeaderSeen then Stop(BlockBeforeHeader)
    else if SequenceField(word0) != w.sequence then Stop(ForeignBlock)
    else if PayloadWordsField(word0) < HEADER_WORDS then Stop(BlockTooShort)
    else if length > |input.data| - w.pos then Stop(BlockOverrun)
    else if index >= input.maxBlocks then Stop(IndexOutOfRange)
    else
      var end := w.pos + length;
      var passed := w.(pastCoarse := w.pastCoarse || index >= input.coarseBlocks);
      if RangeLost(input.segments, w.pos, end) then
        Next(SkipTo(NoteLoss(passed, input.coarseKnown).(aligned := false), end))
      else
        Next(passed.(aligned := LaterPacketsAligned(input, w.pos, end, index), frame := WithBlock(w.frame), pos := end))
  }

  /** The parser's inference that every later packet starts with a record: a finer record of
      ordinary size came in one packet, and something was lost at all. */
  ghost predicate LaterPacketsAligned(input: Input, start: nat, end: nat, index: nat)
    requires start <= end
  {
    && AnyLost(input.segments)
    && Ordinary(input.segments, end - start)
    && index >= input.coarseBlocks
    && InOnePacket(input.segments, start, end)
  }

  ghost function Run(input: Input, w: Walk): Result
    requires w.pos <= |input.data|
    decreases |input.data| - w.pos
  {
    if w.pos == |input.data| then Result(None, SkipTo(w, w.pos).frame)
    else
      match Step(input, w)
      case Stop(error) => Result(Some(error), w.frame)
      case Next(walk) => Run(input, walk)
  }

  // ---- Length-prefixed framing ----

  /** Walks the records of one length-prefixed packet, from pos to end. */
  function PacketRun(data: seq<byte>, base: nat, pos: nat, end: nat, geometry: StreamGeometry, maxBlocks: nat,
                     frame: FrameState): Result
    requires base <= pos <= end <= |data|
    decreases end - pos
  {
    if pos == end then Result(None, CloseSpan(frame, base, end))
    else if end - pos < HEADER_BYTES then Result(Some(TrailingBytes), frame)
    else
      var word0, word1 := ReadU32(data, pos), ReadU32(data, pos + 4);
      if word0 == PADDING_MAGIC then Result(Some(PaddingInPacket), frame)
      else if Extended(word0) then
        match HeaderError(word0, word1, geometry, maxBlocks)
        case Some(error) => Result(Some(error), frame)
        case None => PacketRun(data, base, pos + HEADER_BYTES, end, geometry, maxBlocks, WithHeader(frame, word1))
      else if PayloadWordsField(word0) < HEADER_WORDS then Result(Some(BlockTooShort), frame)
      else if PayloadWordsField(word0) * 4 > end - pos then Result(Some(BlockOverrun), frame)
      else if IndexField(word1) >= maxBlocks then Result(Some(IndexOutOfRange), frame)
      else PacketRun(data, base, pos + PayloadWordsField(word0) * 4, end, geometry, maxBlocks, WithBlock(frame))
  }

  /** Walks `count` more length-prefixed packets from pos on. */
  function PacketsRun(data: seq<byte>, count: nat, pos: nat, geometry: StreamGeometry, maxBlocks: nat,
                      frame: FrameState): Result
    requires pos <= |data|
    decreases count
  {
    if count == 0 then Result(if pos == |data| then None else Some(BytesAfterLast), frame)
    else if |data| - pos < 4 then Result(Some(LengthOverrun), frame)
    else
      var size, start := ReadU32(data, pos), pos + 4;
      if size == 0 || size % 4 != 0 || size > |data| - start then Result(Some(BadPacketLength), frame)
      else
        var r := PacketRun(data, start, start, start + size, geometry, maxBlocks, frame);
        if r.error.Some? then r else PacketsRun(data, count - 1, start + size, geometry, maxBlocks, r.frame)
  }

  // ---- A whole frame ----

  /** None of the first `count` packets was lost. */
  ghost predicate LeadingIntact(segments: seq<Segment>, count: nat) {
    forall i :: 0 <= i < |segments| && i < count ==> !segments[i].lost
  }

  predicate CoarseKnown(segments: seq<Segment>, criticalPackets: nat) {
    criticalPackets != 0 && segments != []
  }

  function InputOf(data: seq<byte>, segments: seq<Segment>, criticalPackets: nat, geometry: StreamGeometry): Input {
    Input(data, segments, CoarseKnown(segments, criticalPackets), geometry, MaxBlockCount(geometry),
          CoarseBlockCount(geometry))
  }

  ghost function StartOf(segments: seq<Segment>, criticalPackets: nat): Walk {
    Walk(0, 0, 0, false, false,
         FRESH.(coarseLevelIntact :=
                  CoarseKnown(segments, criticalPackets) ==> LeadingIntact(segments, criticalPackets)))
  }

  function Conclude(r: Result): Result {
    if r.error.Some? then r
    else if !r.frame.sequenceHeaderSeen then Result(Some(NoSequenceHeader), r.frame)
    else if !r.frame.partial && r.frame.blockRecords != r.frame.announcedBlocks then
      Result(Some(BlocksMissing), r.frame)
    else r
  }

  function LengthPrefixedRun(data: seq<byte>, anyLost: bool, geometry: StreamGeometry): Result
    requires |data| >= HEADER_BYTES
  {
    var frame := FRESH.(framing := LengthPrefixed);
    var count := ReadU32(data, 0);
    if anyLost then Result(Some(LossInLengthPrefixed), frame)
    else if count == 0 || count > (|data| - 4) / 8 then Result(Some(BadPacketCount), frame)
    else PacketsRun(data, count, 4, geometry, MaxBlockCount(geometry), frame)
  }

  ghost function ParseResult(data: seq<byte>, segments: seq<Segment>, criticalPackets: nat,
                             geometry: StreamGeometry): Result {
    if |data| < HEADER_BYTES || |data| % 4 != 0 then Result(Some(NotWordAligned), FRESH)
    else if !Tiles(segments, |data|) then Result(Some(NotTiled), FRESH)
    else if RangeLost(segments, 0, HEADER_BYTES) then Result(Some(FirstPacketLost), FRESH)
    else if Extended(ReadU32(data, 0)) then
      Conclude(Run(InputOf(data, segments, criticalPackets, geometry), StartOf(segments, criticalPackets)))
    else
      Conclude(LengthPrefixedRun(data, AnyLost(segments), geometry))
  }
}
