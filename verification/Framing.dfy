/** The parser itself: loops over a position, with the frame and the packet cache updated in place. */
module Framing {
  import opened Words
  import opened Geometry
  import opened PacketMap
  import opened FramingSpec

  /** The caller's frame, reused from one parse to the next. */
  class Frame {
    var framing: FramingKind
    var spans: seq<Span>
    var blockRecords: u32
    var announcedBlocks: u32
    var sequenceHeaderSeen: bool
    var paddingBytes: u32
    var partial: bool
    var coarseLevelIntact: bool

    function State(): FrameState
      reads this
    {
      FrameState(framing, spans, blockRecords, announcedBlocks, sequenceHeaderSeen, paddingBytes, partial,
                 coarseLevelIntact)
    }

    constructor ()
      ensures State() == FRESH
    {
      framing, spans, blockRecords, announcedBlocks := Records, [], 0, 0;
      sequenceHeaderSeen, paddingBytes, partial, coarseLevelIntact := false, 0, false, true;
    }

    method Reset()
      modifies this
      ensures State() == FRESH
    {
      framing, spans, blockRecords, announcedBlocks := Records, [], 0, 0;
      sequenceHeaderSeen, paddingBytes, partial, coarseLevelIntact := false, 0, false, true;
    }

    method PushSpan(start: nat, end: nat)
      modifies this`spans
      ensures State() == CloseSpan(old(State()), start, end)
    {
      if end > start {
        spans := spans + [Span(start, end - start)];
      }
    }

    method NoteLoss(pastCoarse: bool, coarseKnown: bool)
      modifies this`partial, this`coarseLevelIntact
      ensures State() == LossNoted(old(State()), pastCoarse, coarseKnown)
    {
      partial := true;
      if !pastCoarse && !coarseKnown {
        coarseLevelIntact := false;
      }
    }
  }

  method CheckSequenceHeader(word0: u32, word1: u32, geometry: StreamGeometry, maxBlocks: nat, frame: Frame)
    returns (error: Option<Error>)
    modifies frame`sequenceHeaderSeen, frame`announcedBlocks
    ensures error == HeaderError(word0, word1, geometry, maxBlocks)
    ensures frame.State() == if error.None? then WithHeader(old(frame.State()), word1) else old(frame.State())
  {
    var width := word0 % 0x4000 + 1;
    var height := (word0 / 0x4000) % 0x4000 + 1;
    var totalBlocks: u32 := word1 % 0x100_0000;
    var code := (word1 / 0x100_0000) % 4;
    var chroma444 := (word1 / 0x400_0000) % 2 != 0;
    if code != 0 {
      return Some(UnsupportedCode);
    }
    if width != geometry.width || height != geometry.height {
      return Some(SizeDiffers);
    }
    if chroma444 != geometry.chroma444 {
      return Some(ChromaDiffers);
    }
    if totalBlocks > maxBlocks {
      return Some(TooManyAnnounced);
    }
    frame.sequenceHeaderSeen := true;
    frame.announcedBlocks := totalBlocks;
    return None;
  }

  /** The loop variables of walkRecordFrame, which its two local functions update in place,
      and one iteration of its loop. */
  class RecordWalker {
    const m_data: seq<byte>
    const m_packets: SegmentMap
    const m_coarseKnown: bool
    const m_geometry: StreamGeometry
    const m_maxBlocks: nat
    const m_coarseBlocks: nat
    const m_flagged: bool
    const m_frame: Frame
    var m_pos: nat
    var m_spanStart: nat
    var m_sequence: nat
    var m_aligned: bool
    var m_pastCoarse: bool

    ghost predicate Valid()
      reads this, m_packets
    {
      && m_packets.Valid() && Tiles(m_packets.m_segments, |m_data|)
      && m_flagged == Flagged(m_packets.m_segments)
      && m_pos <= |m_data|
    }

    ghost function Source(): Input {
      Input(m_data, m_packets.m_segments, m_coarseKnown, m_geometry, m_maxBlocks, m_coarseBlocks)
    }

    ghost function At(): Walk
      reads this, m_frame
    {
      Walk(m_pos, m_spanStart, m_sequence, m_aligned, m_pastCoarse, m_frame.State())
    }

    constructor (data: seq<byte>, packets: SegmentMap, coarseKnown: bool, geometry: StreamGeometry, maxBlocks: nat,
                 frame: Frame)
      requires packets.Valid() && Tiles(packets.m_segments, |data|)
      ensures Valid() && m_packets == packets && m_frame == frame && m_data == data
      ensures Source() == Input(data, packets.m_segments, coarseKnown, geometry, maxBlocks, CoarseBlockCount(geometry))
      ensures At() == Walk(0, 0, 0, false, false, frame.State())
    {
      m_data, m_packets, m_coarseKnown, m_geometry, m_maxBlocks, m_frame := data, packets, coarseKnown, geometry,
          maxBlocks, frame;
      m_coarseBlocks := CoarseBlockCount(geometry);
      m_flagged := Flagged(packets.m_segments);
      m_pos, m_spanStart, m_sequence, m_aligned, m_pastCoarse := 0, 0, 0, false, false;
    }

    method Skip(next: nat)
      modifies this`m_pos, this`m_spanStart, m_frame`spans
      ensures At() == SkipTo(old(At()), next)
    {
      m_frame.PushSpan(m_spanStart, m_pos);
      m_pos, m_spanStart := next, next;
    }

    method RecordLoss()
      modifies m_frame`partial, m_frame`coarseLevelIntact
      ensures At() == NoteLoss(old(At()), m_coarseKnown)
    {
      m_frame.NoteLoss(m_pastCoarse, m_coarseKnown);
    }

    /** One iteration: the record (or the hole) at m_pos. */
    method Iterate() returns (error: Option<Error>)
      requires Valid() && m_pos < |m_data|
      modifies this, m_packets`m_index, m_frame
      ensures Valid()
      ensures var step := Step(Source(), old(At()));
              if error.Some? then step == Stop(error.value) && m_frame.State() == old(m_frame.State())
              else step == Next(At())
    {
      hide Contiguous, RangeLost, InOnePacket, NextReceived, HeaderError, BlockStep, Resume, ReadU32, SequenceField,
           TotalField, LossNoted;
      var headerLost := m_packets.Lost(m_pos, Min(m_pos + HEADER_BYTES, |m_data|));
      if headerLost {
        Recover();
        return None;
      }
      if |m_data| - m_pos < HEADER_BYTES {
        return Some(TrailingBytes);
      }
      var word0, word1 := ReadU32(m_data, m_pos), ReadU32(m_data, m_pos + 4);
      if word0 == PADDING_MAGIC {
        var padBytes: int := HEADER_BYTES + (word1 as int) * 4;
        if padBytes > |m_data| - m_pos {
          return Some(PaddingOverrun);
        }
        m_frame.paddingBytes := (m_frame.paddingBytes as int + padBytes) % WORD;
        Skip(m_pos + padBytes);
        return None;
      }
      if Extended(word0) {
        if m_frame.sequenceHeaderSeen {
          return Some(SecondSequenceHeader);
        }
        error := CheckSequenceHeader(word0, word1, m_geometry, m_maxBlocks, m_frame);
        if error.Some? {
          return;
        }
        m_sequence := SequenceField(word0);
        m_pos := m_pos + HEADER_BYTES;
        return None;
      }
      error := IterateBlock(word0, word1);
    }

    method IterateBlock(word0: u32, word1: u32) returns (error: Option<Error>)
      requires Valid() && m_pos + HEADER_BYTES <= |m_data|
      modifies this, m_packets`m_index, m_frame
      ensures Valid()
      ensures var step := BlockStep(Source(), old(At()), word0, word1);
              if error.Some? then step == Stop(error.value) && m_frame.State() == old(m_frame.State())
              else step == Next(At())
    {
      hide Contiguous, RangeLost, LaterPacketsAligned;
      var payloadWords, blockIndex := PayloadWordsField(word0), IndexField(word1);
      if !m_frame.sequenceHeaderSeen {
        return Some(BlockBeforeHeader);
      }
      if SequenceField(word0) != m_sequence {
        return Some(ForeignBlock);
      }
      if payloadWords < HEADER_WORDS {
        return Some(BlockTooShort);
      }
      if payloadWords * 4 > |m_data| - m_pos {
        return Some(BlockOverrun);
      }
      if blockIndex >= m_maxBlocks {
        return Some(IndexOutOfRange);
      }
      if blockIndex >= m_coarseBlocks {
        m_pastCoarse := true;
      }
      var end := m_pos + payloadWords * 4;
      var payloadLost := m_packets.Lost(m_pos, end);
      if payloadLost {
        RecordLoss();
        m_aligned := false;
        Skip(end);
        return None;
      }
      TakeBlock(end, blockIndex);
      return None;
    }

    method TakeBlock(end: nat, blockIndex: nat)
      requires Valid() && m_pos < end <= |m_data|
      modifies this`m_pos, this`m_aligned, m_packets`m_index, m_frame`blockRecords
      ensures Valid()
      ensures At() == old(At()).(aligned := LaterPacketsAligned(Source(), old(m_pos), end, blockIndex),
                                 frame := WithBlock(old(m_frame.State())), pos := end)
    {
      hide Contiguous, InOnePacket;
      var segments := m_packets.m_segments;
      var ordinary := |segments| < 2 || end - m_pos + HEADER_BYTES <= segments[0].size + 8;
      m_aligned := false;
      if m_packets.m_anyLost && ordinary && blockIndex >= m_coarseBlocks {
        m_aligned := m_packets.WithinOnePacket(m_pos, end);
      }
      m_frame.blockRecords := (m_frame.blockRecords + 1) % WORD;
      m_pos := end;
    }

    /** The record header at m_pos was lost. */
    method Recover()
      requires Valid() && m_pos < |m_data|
      modifies this`m_pos, this`m_spanStart, m_packets`m_index, m_frame
      ensures Valid()
      ensures At() == SkipTo(NoteLoss(old(At()), m_coarseKnown), Resume(Source(), old(At())))
    {
      hide Contiguous, NextReceived;
      RecordLoss();
      var next := |m_data|;
      if m_flagged || m_aligned {
        var start := m_packets.NextReceivedStart(m_pos, m_flagged);
        if start.Some? {
          next := Min(start.value, |m_data|);
        }
      }
      Skip(next);
    }
  }

  method WalkRecordFrame(data: seq<byte>, packets: SegmentMap, coarseKnown: bool, geometry: StreamGeometry,
                         maxBlocks: nat, frame: Frame)
    returns (error: Option<Error>)
    requires packets.Valid() && Tiles(packets.m_segments, |data|)
    modifies packets`m_index, frame
    ensures packets.Valid()
    ensures var input := Input(data, packets.m_segments, coarseKnown, geometry, maxBlocks, CoarseBlockCount(geometry));
            Result(error, frame.State()) == Run(input, Walk(0, 0, 0, false, false, old(frame.State())))
  {
    hide Run, Step, CoarseBlockCount, Contiguous;
    var walker := new RecordWalker(data, packets, coarseKnown, geometry, maxBlocks, frame);
    ghost var input := walker.Source();
    while walker.m_pos < |data|
      invariant walker.Valid()
      invariant Run(input, walker.At()) == Run(input, Walk(0, 0, 0, false, false, old(frame.State())))
      decreases |data| - walker.m_pos
    {
      RunUnfolds(input, walker.At());
      error := walker.Iterate();
      if error.Some? {
        return;
      }
    }
    RunUnfolds(input, walker.At());
    walker.Skip(walker.m_pos);
    return None;
  }

  lemma RunUnfolds(input: Input, w: Walk)
    requires w.pos <= |input.data|
    ensures w.pos == |input.data| ==> Run(input, w) == Result(None, CloseSpan(w.frame, w.spanStart, w.pos))
    ensures w.pos < |input.data| && Step(input, w).Stop? ==>
            Run(input, w) == Result(Some(Step(input, w).error), w.frame)
    ensures w.pos < |input.data| && Step(input, w).Next? ==> Run(input, w) == Run(input, Step(input, w).walk)
  {
  }

  method WalkPacket(data: seq<byte>, base: nat, size: nat, geometry: StreamGeometry, maxBlocks: nat, frame: Frame)
    returns (error: Option<Error>)
    requires base + size <= |data|
    modifies frame
    ensures Result(error, frame.State())
         == PacketRun(data, base, base, base + size, geometry, maxBlocks, old(frame.State()))
  {
    var pos := 0;
    while pos < size
      invariant pos <= size
      invariant PacketRun(data, base, base + pos, base + size, geometry, maxBlocks, frame.State())
             == PacketRun(data, base, base, base + size, geometry, maxBlocks, old(frame.State()))
    {
      if size - pos < HEADER_BYTES {
        return Some(TrailingBytes);
      }
      var word0, word1 := ReadU32(data, base + pos), ReadU32(data, base + pos + 4);
      if word0 == PADDING_MAGIC {
        return Some(PaddingInPacket);
      }
      if Extended(word0) {
        error := CheckSequenceHeader(word0, word1, geometry, maxBlocks, frame);
        if error.Some? {
          return;
        }
        pos := pos + HEADER_BYTES;
        continue;
      }
      var payloadWords, blockIndex := PayloadWordsField(word0), IndexField(word1);
      if payloadWords < HEADER_WORDS {
        return Some(BlockTooShort);
      }
      if payloadWords * 4 > size - pos {
        return Some(BlockOverrun);
      }
      if blockIndex >= maxBlocks {
        return Some(IndexOutOfRange);
      }
      frame.blockRecords := (frame.blockRecords + 1) % WORD;
      pos := pos + payloadWords * 4;
    }
    if size != 0 {
      frame.PushSpan(base, base + size);
    }
    return None;
  }

  method WalkPackets(data: seq<byte>, count: nat, geometry: StreamGeometry, maxBlocks: nat, frame: Frame)
    returns (error: Option<Error>)
    requires |data| >= 4
    modifies frame
    ensures Result(error, frame.State()) == PacketsRun(data, count, 4, geometry, maxBlocks, old(frame.State()))
  {
    var pos: nat := 4;
    for i := 0 to count
      invariant pos <= |data|
      invariant PacketsRun(data, count - i, pos, geometry, maxBlocks, frame.State())
             == PacketsRun(data, count, 4, geometry, maxBlocks, old(frame.State()))
    {
      if |data| - pos < 4 {
        return Some(LengthOverrun);
      }
      var packetSize := ReadU32(data, pos);
      pos := pos + 4;
      if packetSize == 0 || packetSize % 4 != 0 || packetSize > |data| - pos {
        return Some(BadPacketLength);
      }
      error := WalkPacket(data, pos, packetSize, geometry, maxBlocks, frame);
      if error.Some? {
        return;
      }
      pos := pos + packetSize;
    }
    if pos != |data| {
      return Some(BytesAfterLast);
    }
    return None;
  }

  /** The loop that checks the packet map. */
  method CheckTiling(segments: seq<Segment>, size: nat) returns (tiles: bool)
    ensures tiles <==> Tiles(segments, size)
  {
    var tiled := 0;
    for i := 0 to |segments|
      invariant tiled == if i == 0 then 0 else End(segments[i - 1])
      invariant i > 0 ==> segments[0].offset == 0
      invariant Contiguous(segments[..i])
    {
      if segments[i].offset != tiled || segments[i].size == 0 {
        NotContiguous(segments, i, size);
        return false;
      }
      Extends(segments, i);
      tiled := tiled + segments[i].size;
    }
    assert segments[..|segments|] == segments;
    return segments == [] || tiled == size;
  }

  lemma Extends(segments: seq<Segment>, i: nat)
    requires i < |segments| && Contiguous(segments[..i]) && segments[i].size > 0
    requires i > 0 ==> segments[i].offset == End(segments[i - 1])
    ensures Contiguous(segments[..i + 1])
  {
    var longer := segments[..i + 1];
    forall j, k | 0 <= j < |longer| && k == j + 1 < |longer| ensures longer[k].offset == End(longer[j]) {
      if k < i {
        assert segments[..i][k].offset == End(segments[..i][j]);
      }
    }
    forall j | 0 <= j < |longer| ensures longer[j].size > 0 {
      if j < i {
        assert segments[..i][j].size > 0;
      }
    }
  }

  lemma NotContiguous(segments: seq<Segment>, i: nat, size: nat)
    requires i < |segments|
    requires segments[i].offset != (if i == 0 then 0 else End(segments[i - 1])) || segments[i].size == 0
    ensures !Tiles(segments, size)
  {
    if i > 0 && segments[i].size > 0 {
      var j := i - 1;
      assert i == j + 1 < |segments| && segments[i].offset != End(segments[j]);
    }
  }

  /** Parses one frame into the spans the decoder may be given. */
  method Parse(data: seq<byte>, segments: seq<Segment>, criticalPackets: nat, geometry: StreamGeometry, frame: Frame)
    returns (error: Option<Error>)
    modifies frame
    ensures Result(error, frame.State()) == ParseResult(data, segments, criticalPackets, geometry)
  {
    hide MaxBlockCount, CoarseBlockCount, Tiles, RangeLost, PacketsRun, Run;
    frame.Reset();
    if |data| < HEADER_BYTES || |data| % 4 != 0 {
      return Some(NotWordAligned);
    }
    var tiles := CheckTiling(segments, |data|);
    if !tiles {
      return Some(NotTiled);
    }
    TilesContiguous(segments, |data|);
    var packets := new SegmentMap(segments);
    var maxBlocks := ComputeMaxBlockCount(geometry);
    var firstLost := packets.Lost(0, HEADER_BYTES);
    if firstLost {
      return Some(FirstPacketLost);
    }
    var firstWord := ReadU32(data, 0);
    if Extended(firstWord) {
      frame.framing := Records;
      var coarseKnown := criticalPackets != 0 && segments != [];
      if coarseKnown {
        var count := Min(criticalPackets, |segments|);
        frame.coarseLevelIntact := forall i :: 0 <= i < count ==> !segments[i].lost;
      }
      error := WalkRecordFrame(data, packets, coarseKnown, geometry, maxBlocks, frame);
    } else {
      frame.framing := LengthPrefixed;
      if packets.m_anyLost {
        return Some(LossInLengthPrefixed);
      }
      var count := firstWord;
      if count == 0 || count > (|data| - 4) / 8 {
        return Some(BadPacketCount);
      }
      error := WalkPackets(data, count, geometry, maxBlocks, frame);
    }
    if error.Some? {
      return;
    }
    if !frame.sequenceHeaderSeen {
      return Some(NoSequenceHeader);
    }
    if !frame.partial && frame.blockRecords != frame.announcedBlocks {
      return Some(BlocksMissing);
    }
    return None;
  }

  lemma TilesContiguous(segments: seq<Segment>, size: nat)
    requires Tiles(segments, size)
    ensures Contiguous(segments)
    ensures segments != [] ==> segments[0].offset == 0 && End(segments[|segments| - 1]) == size
  {
  }
}
