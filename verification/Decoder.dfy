/** The PyroWave decoder's packet intake, and why it takes every span the parser hands it. */
module Decoder {
  import opened Words
  import opened Geometry
  import opened PacketMap
  import opened FramingSpec
  import opened FramingSound
  import BlockMapping
  import BlockNumbering

  /** lastSequence None: UINT32_MAX. offsets: word offset of each block's payload; a block not
      received has none. */
  datatype Intake = Intake(lastSequence: Option<nat>, totalBlocks: nat, decodedBlocks: nat, offsets: map<nat, nat>,
                           payload: seq<byte>)

  function Cleared(blockCount: nat): Intake {
    Intake(None, blockCount, 0, map[], [])
  }

  /** How far `sequence` is ahead of the last one, modulo 8. */
  function Ahead(sequence: nat, last: nat): nat {
    (sequence - last) % 8
  }

  /** What one record does: go on behind it, stop and report success, or refuse. */
  datatype Outcome = GoOn(next: nat, intake: Intake) | Ignore(intake: Intake) | Refuse(intake: Intake)

  /** A record of a newer sequence starts a new frame. */
  function Restarted(intake: Intake, sequence: nat, blockCount: nat): Intake {
    if intake.lastSequence.None? || Ahead(sequence, intake.lastSequence.value) != 0 then
      Cleared(blockCount).(lastSequence := Some(sequence))
    else intake
  }

  predicate Stale(intake: Intake, sequence: nat) {
    intake.lastSequence.Some? && Ahead(sequence, intake.lastSequence.value) > 3
  }

  function TakeHeader(g: StreamGeometry, blockCount: nat, data: seq<byte>, p: nat, intake: Intake): Outcome
    requires p + HEADER_BYTES <= |data|
  {
    var word0, word1 := ReadU32(data, p), ReadU32(data, p + 4);
    if ChromaField(word1) != g.chroma444 then Refuse(intake)
    else if Stale(intake, SequenceField(word0)) then Ignore(intake)
    else
      var restarted := Restarted(intake, SequenceField(word0), blockCount);
      if CodeField(word1) != 0 then Refuse(restarted)
      else if WidthField(word0) != g.width || HeightField(word0) != g.height then Refuse(restarted)
      else GoOn(p + HEADER_BYTES, restarted.(totalBlocks := TotalField(word1)))
  }

  /** decode_packet: the first record of a block counts, later ones do not. */
  function Stored(intake: Intake, index: nat, payload: seq<byte>): Intake {
    if index in intake.offsets then intake
    else Intake(intake.lastSequence, intake.totalBlocks, intake.decodedBlocks + 1,
                intake.offsets[index := |intake.payload| / 4], intake.payload + payload)
  }

  function TakeBlock(blockCount: nat, data: seq<byte>, p: nat, end: nat, intake: Intake): Outcome
    requires p + HEADER_BYTES <= end <= |data|
  {
    var word0, word1 := ReadU32(data, p), ReadU32(data, p + 4);
    var size := PayloadWordsField(word0) * 4;
    if PayloadWordsField(word0) < HEADER_WORDS || size > end - p then Refuse(intake)
    else if Stale(intake, SequenceField(word0)) then Ignore(intake)
    else
      var restarted := Restarted(intake, SequenceField(word0), blockCount);
      if IndexField(word1) >= blockCount then Refuse(restarted)
      else GoOn(p + size, Stored(restarted, IndexField(word1), data[p..p + size]))
  }

  function Take(g: StreamGeometry, blockCount: nat, data: seq<byte>, p: nat, end: nat, intake: Intake): (o: Outcome)
    requires p + HEADER_BYTES <= end <= |data|
    ensures o.GoOn? ==> p < o.next <= end
  {
    if Extended(ReadU32(data, p)) then TakeHeader(g, blockCount, data, p, intake)
    else TakeBlock(blockCount, data, p, end, intake)
  }

  /** push_packet on [p, end): whether it succeeds, and what was taken in. */
  function Push(g: StreamGeometry, blockCount: nat, data: seq<byte>, p: nat, end: nat, intake: Intake): (bool, Intake)
    requires p <= end <= |data|
    decreases end - p
  {
    if end - p < HEADER_BYTES then (p == end, intake)
    else
      match Take(g, blockCount, data, p, end, intake)
      case Refuse(after) => (false, after)
      case Ignore(after) => (true, after)
      case GoOn(next, after) => Push(g, blockCount, data, next, end, after)
  }

  ghost predicate SpansInside(spans: seq<Span>, size: nat) {
    forall i :: 0 <= i < |spans| ==> SpanEnd(spans[i]) <= size
  }

  /** Pushing the spans one after the other, as long as none is refused. */
  ghost function PushAll(g: StreamGeometry, blockCount: nat, data: seq<byte>, spans: seq<Span>,
                         intake: Intake): (bool, Intake)
    requires SpansInside(spans, |data|)
  {
    if spans == [] then (true, intake)
    else
      var last := spans[|spans| - 1];
      var (ok, before) := PushAll(g, blockCount, data, spans[..|spans| - 1], intake);
      if ok then Push(g, blockCount, data, last.offset, SpanEnd(last), before) else (false, before)
  }

  class PacketDecoder {
    const m_geometry: StreamGeometry
    const m_blockCount: nat
    var m_lastSequence: Option<nat>
    var m_totalBlocks: nat
    var m_decodedBlocks: nat
    var m_offsets: map<nat, nat>
    var m_payload: seq<byte>

    function State(): Intake
      reads this
    {
      Intake(m_lastSequence, m_totalBlocks, m_decodedBlocks, m_offsets, m_payload)
    }

    constructor (geometry: StreamGeometry, blockCount: nat)
      ensures m_geometry == geometry && m_blockCount == blockCount && State() == Cleared(blockCount)
    {
      m_geometry, m_blockCount := geometry, blockCount;
      m_lastSequence, m_totalBlocks, m_decodedBlocks, m_offsets, m_payload := None, blockCount, 0, map[], [];
    }

    method Clear()
      modifies this
      ensures State() == Cleared(m_blockCount)
    {
      m_offsets, m_decodedBlocks, m_lastSequence, m_totalBlocks, m_payload := map[], 0, None, m_blockCount, [];
    }

    method Restart(sequence: nat)
      modifies this
      ensures State() == Restarted(old(State()), sequence, m_blockCount)
    {
      if m_lastSequence.None? || Ahead(sequence, m_lastSequence.value) != 0 {
        Clear();
        m_lastSequence := Some(sequence);
      }
    }

    method PushPacket(data: seq<byte>, start: nat, end: nat) returns (ok: bool)
      requires start <= end <= |data|
      modifies this
      ensures (ok, State()) == Push(m_geometry, m_blockCount, data, start, end, old(State()))
    {
      hide SequenceField, ChromaField, CodeField, WidthField, HeightField, TotalField, IndexField, Ahead, Restarted,
           Stored;
      var p := start;
      while end - p >= HEADER_BYTES
        invariant start <= p <= end
        invariant Push(m_geometry, m_blockCount, data, p, end, State())
               == Push(m_geometry, m_blockCount, data, start, end, old(State()))
        decreases end - p
      {
        var word0, word1 := ReadU32(data, p), ReadU32(data, p + 4);
        var sequence := SequenceField(word0);
        if Extended(word0) {
          if ChromaField(word1) != m_geometry.chroma444 {
            return false;
          }
          if m_lastSequence.Some? && Ahead(sequence, m_lastSequence.value) > 3 {
            return true;
          }
          Restart(sequence);
          if CodeField(word1) != 0 {
            return false;
          }
          if WidthField(word0) != m_geometry.width || HeightField(word0) != m_geometry.height {
            return false;
          }
          m_totalBlocks := TotalField(word1);
          p := p + HEADER_BYTES;
          continue;
        }
        var packetSize := PayloadWordsField(word0) * 4;
        if PayloadWordsField(word0) < HEADER_WORDS {
          return false;
        }
        if packetSize > end - p {
          return false;
        }
        if m_lastSequence.Some? && Ahead(sequence, m_lastSequence.value) > 3 {
          return true;
        }
        Restart(sequence);
        if IndexField(word1) >= m_blockCount {
          return false;
        }
        StoreBlock(IndexField(word1), data[p..p + packetSize]);
        p := p + packetSize;
      }
      return p == end;
    }

    method StoreBlock(index: nat, payload: seq<byte>)
      modifies this`m_decodedBlocks, this`m_offsets, this`m_payload
      ensures State() == Stored(old(State()), index, payload)
    {
      if index !in m_offsets {
        m_decodedBlocks := m_decodedBlocks + 1;
        m_offsets := m_offsets[index := |m_payload| / 4];
        m_payload := m_payload + payload;
      }
    }

    /** decode_is_ready without partial frames: everything announced was taken in. */
    method DecodeIsReady() returns (ready: bool)
      ensures ready == Ready(State())
    {
      return m_lastSequence.Some? && m_decodedBlocks >= m_totalBlocks;
    }

    method DecodeIsReadyPartial() returns (ready: bool)
      ensures ready == ReadyPartial(State())
    {
      if m_lastSequence.None? {
        return false;
      }
      if m_decodedBlocks < m_totalBlocks {
        return 10 * m_decodedBlocks > 9 * m_totalBlocks;
      }
      return true;
    }
  }

  /** decode_is_ready for partial frames, as the renderer asks: no pristine bands, more than 90% of the blocks. */
  predicate ReadyPartial(intake: Intake) {
    intake.lastSequence.Some?
        && (intake.decodedBlocks >= intake.totalBlocks || 10 * intake.decodedBlocks > 9 * intake.totalBlocks)
  }

  predicate Ready(intake: Intake) {
    intake.lastSequence.Some? && intake.decodedBlocks >= intake.totalBlocks
  }

  // ---- The decoder refuses nothing the parser delivers ----

  lemma {:induction false} PushAccepts(g: StreamGeometry, maxBlocks: nat, data: seq<byte>, lo: nat, hi: nat,
                                       intake: Intake)
    requires lo <= hi <= |data| && Whole(data, lo, hi) && AllAccepted(data, Starts(data, lo, hi), g, maxBlocks)
    ensures Push(g, maxBlocks, data, lo, hi, intake).0
    decreases hi - lo
  {
    if lo < hi {
      assert Starts(data, lo, hi)[0] == lo;
      var next := lo + RecordSize(data, lo);
      assert Starts(data, lo, hi)[1..] == Starts(data, next, hi);
      TailAccepted(data, Starts(data, lo, hi), g, maxBlocks);
      match Take(g, maxBlocks, data, lo, hi, intake)
      case GoOn(_, after) => PushAccepts(g, maxBlocks, data, next, hi, after);
      case _ =>
    }
  }

  lemma TailAccepted(data: seq<byte>, starts: seq<nat>, g: StreamGeometry, maxBlocks: nat)
    requires starts != [] && AllAccepted(data, starts, g, maxBlocks)
    ensures AcceptedHeader(data, starts[0], g, maxBlocks) || AcceptedBlock(data, starts[0], maxBlocks)
    ensures AllAccepted(data, starts[1..], g, maxBlocks)
  {
  }

  lemma {:induction false} PushAllAccepts(g: StreamGeometry, maxBlocks: nat, data: seq<byte>, spans: seq<Span>,
                                          intake: Intake)
    requires SpansInside(spans, |data|) && SpansWhole(data, spans)
             && AllAccepted(data, SpanStarts(data, spans), g, maxBlocks)
    ensures PushAll(g, maxBlocks, data, spans, intake).0
  {
    if spans != [] {
      var last := spans[|spans| - 1];
      var earlier, own := SpanStarts(data, spans[..|spans| - 1]), Starts(data, last.offset, SpanEnd(last));
      assert SpanStarts(data, spans) == earlier + own;
      SplitAccepted(data, earlier, own, g, maxBlocks);
      PushAllAccepts(g, maxBlocks, data, spans[..|spans| - 1], intake);
      PushAccepts(g, maxBlocks, data, last.offset, SpanEnd(last),
                  PushAll(g, maxBlocks, data, spans[..|spans| - 1], intake).1);
    }
  }

  lemma SplitAccepted(data: seq<byte>, a: seq<nat>, b: seq<nat>, g: StreamGeometry, maxBlocks: nat)
    requires AllAccepted(data, a + b, g, maxBlocks)
    ensures AllAccepted(data, a, g, maxBlocks) && AllAccepted(data, b, g, maxBlocks)
  {
    forall k | 0 <= k < |a| ensures AcceptedHeader(data, a[k], g, maxBlocks) || AcceptedBlock(data, a[k], maxBlocks) {
      assert (a + b)[k] == a[k];
    }
    forall k | 0 <= k < |b| ensures AcceptedHeader(data, b[k], g, maxBlocks) || AcceptedBlock(data, b[k], maxBlocks) {
      assert (a + b)[|a| + k] == b[k];
    }
  }

  /** Whatever the bytes and the losses: if parse succeeds, the decoder built for the same
      geometry, which numbers its own blocks, refuses none of the spans. */
  lemma DecoderNeverRefuses(data: seq<byte>, segments: seq<Segment>, criticalPackets: nat, g: StreamGeometry,
                            blockCount: nat, intake: Intake)
    requires Expressible(g) && blockCount == BlockMapping.PlaceAll(g, BlockMapping.Order(g)).count32
    requires ParseResult(data, segments, criticalPackets, g).error.None?
    ensures var frame := ParseResult(data, segments, criticalPackets, g).frame;
            && SpansInside(frame.spans, |data|)
            && PushAll(g, blockCount, data, frame.spans, intake).0
  {
    hide MaxBlockCount, ParseResult, SpanStarts, SpansWhole, AllAccepted, PushAll, BlockMapping.PlaceAll,
         BlockMapping.LevelsFrom;
    DeliveredAccepted(data, segments, criticalPackets, g);
    BlockNumbering.NumberingAgrees(g);
    PushAllAccepts(g, MaxBlockCount(g), data, ParseResult(data, segments, criticalPackets, g).frame.spans, intake);
  }

  // ---- And what it does refuse ----

  /** A header of the stream's size and chroma, or a block of at least a header with an index there is. */
  ghost predicate Takeable(data: seq<byte>, p: nat, g: StreamGeometry, blockCount: nat) {
    p + HEADER_BYTES <= |data|
    && var word0, word1 := ReadU32(data, p), ReadU32(data, p + 4);
    if Extended(word0) then
      WidthField(word0) == g.width && HeightField(word0) == g.height && (ChromaField(word1) <==> g.chroma444)
      && CodeField(word1) == 0
    else PayloadWordsField(word0) * 4 >= HEADER_BYTES && IndexField(word1) < blockCount
  }

  ghost predicate OneSequence(data: seq<byte>, starts: seq<nat>, sequence: nat) {
    forall k :: 0 <= k < |starts| ==>
      starts[k] + HEADER_BYTES <= |data| && SequenceField(ReadU32(data, starts[k])) == sequence
  }

  ghost predicate AllTakeable(data: seq<byte>, starts: seq<nat>, g: StreamGeometry, blockCount: nat) {
    forall k :: 0 <= k < |starts| ==> Takeable(data, starts[k], g, blockCount)
  }

  lemma TakeExactly(g: StreamGeometry, blockCount: nat, data: seq<byte>, p: nat, end: nat, sequence: nat,
                    intake: Intake)
    requires p + HEADER_BYTES <= end <= |data|
    requires intake.lastSequence == None || intake.lastSequence == Some(sequence)
    requires RecordAt(data, p, end) ==> SequenceField(ReadU32(data, p)) == sequence
    ensures var o := Take(g, blockCount, data, p, end, intake);
            && (o.GoOn? <==> RecordAt(data, p, end) && Takeable(data, p, g, blockCount))
            && (o.GoOn? ==> o.intake.lastSequence == Some(sequence) && o.next == p + RecordSize(data, p))
            && !o.Ignore?
  {
    hide ReadU32, SequenceField, ChromaField, CodeField, WidthField, HeightField, TotalField, IndexField,
         PayloadWordsField;
  }

  /** Records of one sequence, on a decoder that has seen no other: push_packet succeeds if and only if the bytes
      split into whole records, each of which it can take. */
  lemma {:induction false} PushExactly(g: StreamGeometry, blockCount: nat, data: seq<byte>, lo: nat, hi: nat,
                                       sequence: nat, intake: Intake)
    requires lo <= hi <= |data| && OneSequence(data, Starts(data, lo, hi), sequence)
    requires intake.lastSequence == None || intake.lastSequence == Some(sequence)
    ensures Push(g, blockCount, data, lo, hi, intake).0 <==>
            (Whole(data, lo, hi) && AllTakeable(data, Starts(data, lo, hi), g, blockCount))
    decreases hi - lo
  {
    hide Take, RecordSize, Takeable, SequenceField;
    if hi - lo >= HEADER_BYTES {
      var starts := Starts(data, lo, hi);
      if RecordAt(data, lo, hi) {
        assert starts[0] == lo && starts[1..] == Starts(data, lo + RecordSize(data, lo), hi);
      }
      TakeExactly(g, blockCount, data, lo, hi, sequence, intake);
      var o := Take(g, blockCount, data, lo, hi, intake);
      if o.GoOn? {
        PushExactly(g, blockCount, data, o.next, hi, sequence, o.intake);
        FirstTakeable(data, starts, g, blockCount);
      }
    }
  }

  lemma FirstTakeable(data: seq<byte>, starts: seq<nat>, g: StreamGeometry, blockCount: nat)
    requires starts != []
    ensures AllTakeable(data, starts, g, blockCount) <==>
            (Takeable(data, starts[0], g, blockCount) && AllTakeable(data, starts[1..], g, blockCount))
  {
    hide Takeable;
    if AllTakeable(data, starts[1..], g, blockCount) {
      forall k | 0 < k < |starts| ensures starts[k] == starts[1..][k - 1] {
      }
    }
  }

  // ---- Sequences, three bits of the frame number ----

  /** Of two frames at most three apart (four, when the second is older), the sequences tell which is newer: a
      record of a newer frame starts over, with nothing to decode yet, one of an older frame is stale, one of the
      same frame goes on. */
  lemma SequenceOrder(intake: Intake, last: nat, next: nat, blockCount: nat)
    requires intake.lastSequence == Some(last % 8) && last <= next + 4 && next <= last + 3
    ensures Stale(intake, next % 8) <==> next < last
    ensures !Stale(intake, next % 8) ==>
            Restarted(intake, next % 8, blockCount) ==
            if next > last then Cleared(blockCount).(lastSequence := Some(next % 8)) else intake
    ensures next > last && blockCount > 0 ==>
            !Ready(Restarted(intake, next % 8, blockCount)) && !ReadyPartial(Restarted(intake, next % 8, blockCount))
  {
    if next < last {
      SequenceGap(last, next, next - last + 8);
    } else {
      SequenceGap(last, next, next - last);
    }
  }

  lemma SequenceGap(last: nat, next: nat, gap: nat)
    requires gap < 8 && (next - last == gap || next - last == gap - 8)
    ensures Ahead(next % 8, last % 8) == gap
  {
    var a, b := last / 8, next / 8;
    assert last == 8 * a + last % 8 && next == 8 * b + next % 8;
  }

  /** A newer frame is taken in as by a cleared decoder. */
  lemma NewerStartsOver(g: StreamGeometry, blockCount: nat, data: seq<byte>, p: nat, end: nat, intake: Intake,
                        last: nat, next: nat)
    requires p + HEADER_BYTES <= end <= |data| && SequenceField(ReadU32(data, p)) == next % 8
    requires intake.lastSequence == Some(last % 8) && last < next <= last + 3
    requires Take(g, blockCount, data, p, end, Cleared(blockCount)).GoOn?
    ensures Push(g, blockCount, data, p, end, intake) == Push(g, blockCount, data, p, end, Cleared(blockCount))
  {
    hide ReadU32, SequenceField, ChromaField, CodeField, WidthField, HeightField, TotalField, IndexField, Ahead,
         PayloadWordsField, Stored;
    SequenceOrder(intake, last, next, blockCount);
  }

  /** Of an older frame nothing is taken in, and nothing is refused that a cleared decoder would take. */
  lemma OlderIgnored(g: StreamGeometry, blockCount: nat, data: seq<byte>, p: nat, end: nat, intake: Intake,
                     last: nat, next: nat)
    requires p + HEADER_BYTES <= end <= |data| && SequenceField(ReadU32(data, p)) == next % 8
    requires intake.lastSequence == Some(last % 8) && next < last <= next + 4
    requires Take(g, blockCount, data, p, end, Cleared(blockCount)).GoOn?
    ensures Push(g, blockCount, data, p, end, intake) == (true, intake)
  {
    hide ReadU32, SequenceField, ChromaField, CodeField, WidthField, HeightField, TotalField, IndexField, Ahead,
         PayloadWordsField, Stored;
    SequenceOrder(intake, last, next, blockCount);
  }

  // ---- What it ends up holding ----

  function IndexAt(data: seq<byte>, p: nat): nat
    requires p + HEADER_BYTES <= |data|
  {
    IndexField(ReadU32(data, p + 4))
  }

  /** Block indices of the records at these starts. */
  ghost function Indices(data: seq<byte>, starts: seq<nat>): set<nat>
    requires InFrame(data, starts)
  {
    set k | 0 <= k < |starts| :: IndexAt(data, starts[k])
  }

  /** The intake holds exactly the blocks of one frame's records, each counted once. */
  ghost predicate Holding(data: seq<byte>, starts: seq<nat>, g: StreamGeometry, maxBlocks: nat, intake: Intake) {
    && InFrame(data, starts)
    && intake.decodedBlocks == |intake.offsets|
    && if starts == [] then intake == Cleared(maxBlocks)
       else
         && intake.lastSequence == Some(SequenceField(ReadU32(data, starts[0])))
         && intake.totalBlocks == TotalField(ReadU32(data, starts[0] + 4))
         && intake.offsets.Keys == Indices(data, starts[1..])
         && Keeps(data, starts[1..], intake)
  }

  /** No record before the k-th has its index. */
  ghost predicate FirstOfIndex(data: seq<byte>, starts: seq<nat>, k: nat)
    requires InFrame(data, starts)
  {
    k < |starts| && forall j :: 0 <= j < k ==> IndexAt(data, starts[j]) != IndexAt(data, starts[k])
  }

  /** The offset kept for the index of the record at p is where its bytes are. */
  ghost predicate KeptAt(data: seq<byte>, p: nat, intake: Intake) {
    && p + HEADER_BYTES <= |data| && p + RecordSize(data, p) <= |data| && IndexAt(data, p) in intake.offsets
    && var at := 4 * intake.offsets[IndexAt(data, p)];
    at + RecordSize(data, p) <= |intake.payload|
    && intake.payload[at..at + RecordSize(data, p)] == data[p..p + RecordSize(data, p)]
  }

  /** Of every block, the bytes of its first record are kept, in whole words. */
  ghost predicate Keeps(data: seq<byte>, starts: seq<nat>, intake: Intake)
    requires InFrame(data, starts)
  {
    && |intake.payload| % 4 == 0
    && forall k :: 0 <= k < |starts| && FirstOfIndex(data, starts, k) ==> KeptAt(data, starts[k], intake)
  }

  ghost predicate InFrame(data: seq<byte>, starts: seq<nat>) {
    forall k :: 0 <= k < |starts| ==> starts[k] + HEADER_BYTES <= |data|
  }

  /** starts[0] is an accepted header and the others are its blocks. */
  ghost predicate FrameOf(data: seq<byte>, starts: seq<nat>, g: StreamGeometry, maxBlocks: nat) {
    && (starts != [] ==> AcceptedHeader(data, starts[0], g, maxBlocks))
    && forall k :: 0 < k < |starts| ==> OwnBlock(data, starts[0], starts[k], maxBlocks)
  }

  lemma StoredKeys(intake: Intake, index: nat, payload: seq<byte>)
    requires intake.decodedBlocks == |intake.offsets|
    ensures var after := Stored(intake, index, payload);
            && after.lastSequence == intake.lastSequence && after.totalBlocks == intake.totalBlocks
            && after.offsets.Keys == intake.offsets.Keys + {index}
            && after.decodedBlocks == |after.offsets|
  {
  }

  /** Storing one more record moves none of those kept. */
  lemma StoredKeeps(data: seq<byte>, starts: seq<nat>, p: nat, intake: Intake)
    requires InFrame(data, starts) && Keeps(data, starts, intake) && intake.offsets.Keys == Indices(data, starts)
    requires p + HEADER_BYTES <= |data| && p + RecordSize(data, p) <= |data| && RecordSize(data, p) % 4 == 0
    ensures InFrame(data, starts + [p])
    ensures Keeps(data, starts + [p], Stored(intake, IndexAt(data, p), data[p..p + RecordSize(data, p)]))
  {
    hide RecordSize, Indices, KeptAt, IndexAt, FirstOfIndex;
    var all, payload := starts + [p], data[p..p + RecordSize(data, p)];
    forall k | 0 <= k < |all| && FirstOfIndex(data, all, k)
      ensures KeptAt(data, all[k], Stored(intake, IndexAt(data, p), payload))
    {
      FirstAmong(data, starts, p, k);
      if k < |starts| {
        KeptOn(data, starts[k], intake, IndexAt(data, p), payload);
      } else {
        NewlyKept(data, p, intake);
      }
    }
  }

  lemma FirstAmong(data: seq<byte>, starts: seq<nat>, p: nat, k: nat)
    requires InFrame(data, starts) && InFrame(data, starts + [p]) && p + HEADER_BYTES <= |data|
    requires k <= |starts| && FirstOfIndex(data, starts + [p], k)
    ensures k < |starts| ==> FirstOfIndex(data, starts, k)
    ensures k == |starts| ==> IndexAt(data, p) !in Indices(data, starts)
  {
    hide IndexAt;
    var all := starts + [p];
    forall j | 0 <= j < k ensures all[j] == starts[j] && IndexAt(data, starts[j]) != IndexAt(data, all[k]) {
    }
  }

  lemma NewlyKept(data: seq<byte>, p: nat, intake: Intake)
    requires p + HEADER_BYTES <= |data| && p + RecordSize(data, p) <= |data| && |intake.payload| % 4 == 0
    requires IndexAt(data, p) !in intake.offsets
    ensures KeptAt(data, p, Stored(intake, IndexAt(data, p), data[p..p + RecordSize(data, p)]))
  {
    hide RecordSize, IndexField;
  }

  lemma KeptOn(data: seq<byte>, p: nat, intake: Intake, index: nat, payload: seq<byte>)
    requires KeptAt(data, p, intake)
    ensures KeptAt(data, p, Stored(intake, index, payload))
  {
    hide RecordSize, IndexField;
    if index !in intake.offsets {
      var at, size := 4 * intake.offsets[IndexAt(data, p)], RecordSize(data, p);
      assert (intake.payload + payload)[at..at + size] == intake.payload[at..at + size];
    }
  }

  lemma HeaderHolds(data: seq<byte>, p: nat, g: StreamGeometry, maxBlocks: nat)
    requires AcceptedHeader(data, p, g, maxBlocks)
    ensures var o := TakeHeader(g, maxBlocks, data, p, Cleared(maxBlocks));
            o.GoOn? && o.next == p + HEADER_BYTES && Holding(data, [p], g, maxBlocks, o.intake)
  {
    assert [p][1..] == [];
  }

  lemma BlockHolds(data: seq<byte>, starts: seq<nat>, p: nat, end: nat, g: StreamGeometry, maxBlocks: nat,
                   intake: Intake)
    requires starts != [] && Holding(data, starts, g, maxBlocks, intake)
    requires OwnBlock(data, starts[0], p, maxBlocks) && RecordAt(data, p, end)
    ensures var o := TakeBlock(maxBlocks, data, p, end, intake);
            o.GoOn? && o.next == p + RecordSize(data, p) && Holding(data, starts + [p], g, maxBlocks, o.intake)
  {
    hide Indices, SequenceField, PayloadWordsField, IndexField, Stored, Keeps;
    var all := starts + [p];
    assert all[0] == starts[0] && all[1..] == starts[1..] + [p];
    assert InFrame(data, starts[1..]);
    IndexAdded(data, starts, p);
    IndexAdded(data, starts[1..], p);
    StoredKeys(intake, IndexAt(data, p), data[p..p + RecordSize(data, p)]);
    StoredKeeps(data, starts[1..], p, intake);
  }

  lemma TakeHolds(data: seq<byte>, starts: seq<nat>, p: nat, end: nat, g: StreamGeometry, maxBlocks: nat,
                  intake: Intake)
    requires Holding(data, starts, g, maxBlocks, intake) && FrameOf(data, starts + [p], g, maxBlocks)
    requires RecordAt(data, p, end)
    ensures var o := Take(g, maxBlocks, data, p, end, intake);
            o.GoOn? && o.next == p + RecordSize(data, p) && Holding(data, starts + [p], g, maxBlocks, o.intake)
  {
    hide TakeHeader, TakeBlock;
    var all := starts + [p];
    if starts == [] {
      assert all == [p];
      HeaderHolds(data, p, g, maxBlocks);
    } else {
      assert all[0] == starts[0] && all[|starts|] == p;
      BlockHolds(data, starts, p, end, g, maxBlocks, intake);
    }
  }

  lemma IndexAdded(data: seq<byte>, starts: seq<nat>, p: nat)
    requires InFrame(data, starts) && p + HEADER_BYTES <= |data|
    ensures InFrame(data, starts + [p])
    ensures Indices(data, starts + [p]) == Indices(data, starts) + {IndexAt(data, p)}
  {
    var all := starts + [p];
    forall i | i in Indices(data, starts) ensures i in Indices(data, all) {
      var k :| 0 <= k < |starts| && IndexAt(data, starts[k]) == i;
      assert all[k] == starts[k];
    }
    assert all[|starts|] == p;
  }

  lemma {:induction false} PushHolds(data: seq<byte>, before: seq<nat>, lo: nat, hi: nat, g: StreamGeometry,
                                     maxBlocks: nat, intake: Intake)
    requires lo <= hi <= |data| && Whole(data, lo, hi)
    requires Holding(data, before, g, maxBlocks, intake) && FrameOf(data, before + Starts(data, lo, hi), g, maxBlocks)
    ensures Push(g, maxBlocks, data, lo, hi, intake).0
    ensures Holding(data, before + Starts(data, lo, hi), g, maxBlocks, Push(g, maxBlocks, data, lo, hi, intake).1)
    decreases hi - lo
  {
    hide Take, Holding, FrameOf;
    if lo == hi {
      assert before + Starts(data, lo, hi) == before;
    } else {
      var next := lo + RecordSize(data, lo);
      assert before + Starts(data, lo, hi) == before + [lo] + Starts(data, next, hi);
      FramePrefix(data, before + [lo], Starts(data, next, hi), g, maxBlocks);
      TakeHolds(data, before, lo, hi, g, maxBlocks, intake);
      PushHolds(data, before + [lo], next, hi, g, maxBlocks, Take(g, maxBlocks, data, lo, hi, intake).intake);
    }
  }

  lemma FramePrefix(data: seq<byte>, a: seq<nat>, b: seq<nat>, g: StreamGeometry, maxBlocks: nat)
    requires FrameOf(data, a + b, g, maxBlocks)
    ensures FrameOf(data, a, g, maxBlocks)
  {
    forall k | 0 < k < |a| ensures OwnBlock(data, a[0], a[k], maxBlocks) {
      assert (a + b)[k] == a[k] && (a + b)[0] == a[0];
    }
  }

  lemma {:induction false} PushAllHolds(data: seq<byte>, spans: seq<Span>, g: StreamGeometry, maxBlocks: nat)
    requires SpansInside(spans, |data|) && SpansWhole(data, spans)
             && FrameOf(data, SpanStarts(data, spans), g, maxBlocks)
    ensures PushAll(g, maxBlocks, data, spans, Cleared(maxBlocks)).0
    ensures Holding(data, SpanStarts(data, spans), g, maxBlocks,
                    PushAll(g, maxBlocks, data, spans, Cleared(maxBlocks)).1)
  {
    hide Push, FrameOf, Whole, Starts;
    if spans != [] {
      var last := spans[|spans| - 1];
      var earlier := SpanStarts(data, spans[..|spans| - 1]);
      FramePrefix(data, earlier, Starts(data, last.offset, SpanEnd(last)), g, maxBlocks);
      PushAllHolds(data, spans[..|spans| - 1], g, maxBlocks);
      PushHolds(data, earlier, last.offset, SpanEnd(last), g, maxBlocks,
                PushAll(g, maxBlocks, data, spans[..|spans| - 1], Cleared(maxBlocks)).1);
    }
  }

  ghost predicate DistinctIndices(data: seq<byte>, starts: seq<nat>)
    requires InFrame(data, starts)
  {
    forall i, j :: 0 <= i < j < |starts| ==> IndexAt(data, starts[i]) != IndexAt(data, starts[j])
  }

  lemma DistinctSnoc(data: seq<byte>, starts: seq<nat>, p: nat)
    requires InFrame(data, starts) && p + HEADER_BYTES <= |data|
    ensures InFrame(data, starts + [p])
    ensures DistinctIndices(data, starts + [p]) <==>
            (DistinctIndices(data, starts) && IndexAt(data, p) !in Indices(data, starts))
  {
    var all := starts + [p];
    if DistinctIndices(data, all) {
      forall i, j | 0 <= i < j < |starts| ensures IndexAt(data, starts[i]) != IndexAt(data, starts[j]) {
        assert all[i] == starts[i] && all[j] == starts[j];
      }
      forall k | 0 <= k < |starts| ensures IndexAt(data, starts[k]) != IndexAt(data, p) {
        assert all[k] == starts[k] && all[|starts|] == p;
      }
    }
  }

  /** n records have n different indices exactly when no two share one. */
  lemma {:induction false} IndexCount(data: seq<byte>, starts: seq<nat>)
    requires InFrame(data, starts)
    ensures |Indices(data, starts)| <= |starts|
    ensures |Indices(data, starts)| == |starts| <==> DistinctIndices(data, starts)
  {
    if starts != [] {
      hide Indices, DistinctIndices;
      var rest, p := starts[..|starts| - 1], starts[|starts| - 1];
      assert starts == rest + [p];
      IndexAdded(data, rest, p);
      IndexCount(data, rest);
      DistinctSnoc(data, rest, p);
      if IndexAt(data, p) in Indices(data, rest) {
        assert Indices(data, starts) == Indices(data, rest);
      }
    }
  }

  lemma FrameOfOne(data: seq<byte>, starts: seq<nat>, g: StreamGeometry, maxBlocks: nat, frame: FrameState)
    requires OneFrame(data, starts, g, maxBlocks, frame)
    ensures FrameOf(data, starts, g, maxBlocks) && InFrame(data, starts) && InFrame(data, starts[1..])
  {
    hide OwnBlock;
    forall k | 0 <= k < |starts| ensures starts[k] + HEADER_BYTES <= |data| {
      if k > 0 {
        assert OwnBlock(data, starts[0], starts[k], maxBlocks);
        OwnBlockFits(data, starts[0], starts[k], maxBlocks);
      }
    }
  }

  lemma OwnBlockFits(data: seq<byte>, header: nat, p: nat, maxBlocks: nat)
    requires OwnBlock(data, header, p, maxBlocks)
    ensures p + HEADER_BYTES <= |data|
  {
  }

  lemma HeldNumbers(data: seq<byte>, starts: seq<nat>, g: StreamGeometry, maxBlocks: nat, frame: FrameState,
                    intake: Intake)
    requires OneFrame(data, starts, g, maxBlocks, frame) && Holding(data, starts, g, maxBlocks, intake)
    requires |starts| < WORD && frame.blockRecords == frame.announcedBlocks
    ensures InFrame(data, starts[1..])
    ensures intake.lastSequence.Some? && intake.decodedBlocks == |Indices(data, starts[1..])|
    ensures intake.totalBlocks == |starts| - 1
  {
    hide OwnBlock, AcceptedHeader, ReadU32, TotalField, SequenceField, Indices;
    assert |intake.offsets| == |intake.offsets.Keys|;
  }

  /** The intake of a whole frame is ready exactly when it was sent as many different blocks as announced. */
  lemma ReadyCounts(data: seq<byte>, starts: seq<nat>, g: StreamGeometry, maxBlocks: nat, frame: FrameState,
                    intake: Intake)
    requires OneFrame(data, starts, g, maxBlocks, frame) && Holding(data, starts, g, maxBlocks, intake)
    requires |starts| < WORD && frame.blockRecords == frame.announcedBlocks
    ensures InFrame(data, starts[1..]) && (Ready(intake) <==> DistinctIndices(data, starts[1..]))
  {
    hide OneFrame, Holding, Indices, DistinctIndices, InFrame;
    HeldNumbers(data, starts, g, maxBlocks, frame, intake);
    IndexCount(data, starts[1..]);
  }

  /** A record frame that lost nothing is refused as incomplete exactly when two of its block
      records share an index: parse counts records, the decoder counts blocks. */
  lemma ReadyExactlyWhenDistinct(data: seq<byte>, segments: seq<Segment>, criticalPackets: nat, g: StreamGeometry,
                                 maxBlocks: nat)
    requires |data| < WORD && maxBlocks == MaxBlockCount(g)
    requires ParseResult(data, segments, criticalPackets, g).error.None?
    requires ParseResult(data, segments, criticalPackets, g).frame.framing.Records?
    requires !ParseResult(data, segments, criticalPackets, g).frame.partial
    ensures var frame := ParseResult(data, segments, criticalPackets, g).frame;
            var starts := SpanStarts(data, frame.spans);
            && SpansInside(frame.spans, |data|) && starts != [] && InFrame(data, starts[1..])
            && var intake := PushAll(g, maxBlocks, data, frame.spans, Cleared(maxBlocks)).1;
            (Ready(intake) <==> DistinctIndices(data, starts[1..]))
  {
    hide MaxBlockCount, ParseResult, SpanStarts, SpansWhole, SpansReceived, PushAll, DistinctIndices, Holding, FrameOf;
    RecordFrameSound(data, segments, criticalPackets, g);
    var frame := ParseResult(data, segments, criticalPackets, g).frame;
    var starts := SpanStarts(data, frame.spans);
    FrameOfOne(data, starts, g, maxBlocks, frame);
    PushAllHolds(data, frame.spans, g, maxBlocks);
    StartsFit(data, frame.spans);
    CompleteCounts(data, segments, criticalPackets, g);
    ReadyCounts(data, starts, g, maxBlocks, frame, PushAll(g, maxBlocks, data, frame.spans, Cleared(maxBlocks)).1);
  }

  lemma CompleteCounts(data: seq<byte>, segments: seq<Segment>, criticalPackets: nat, g: StreamGeometry)
    requires ParseResult(data, segments, criticalPackets, g).error.None?
    requires !ParseResult(data, segments, criticalPackets, g).frame.partial
    ensures var frame := ParseResult(data, segments, criticalPackets, g).frame;
            frame.blockRecords == frame.announcedBlocks
  {
    hide MaxBlockCount, CoarseBlockCount, Run, LengthPrefixedRun, Tiles, RangeLost;
  }

  /** There are fewer records than bytes. */
  lemma {:induction false} StartsFew(data: seq<byte>, lo: nat, hi: nat)
    ensures lo <= hi ==> |Starts(data, lo, hi)| <= hi - lo
    decreases hi - lo
  {
    if lo < hi && RecordAt(data, lo, hi) {
      StartsFew(data, lo + RecordSize(data, lo), hi);
    }
  }

  lemma {:induction false} StartsFit(data: seq<byte>, spans: seq<Span>)
    requires WellPlaced(spans, |data|)
    ensures |SpanStarts(data, spans)| <= if spans == [] then 0 else SpanEnd(spans[|spans| - 1])
    ensures |SpanStarts(data, spans)| <= |data|
  {
    hide Starts;
    if spans != [] {
      var rest, last := spans[..|spans| - 1], spans[|spans| - 1];
      StartsFit(data, rest);
      StartsFew(data, last.offset, SpanEnd(last));
      if rest != [] {
        assert rest[|rest| - 1] == spans[|spans| - 2];
      }
    }
  }

  lemma HeldSome(data: seq<byte>, starts: seq<nat>, g: StreamGeometry, maxBlocks: nat, frame: FrameState,
                 intake: Intake)
    requires OneFrame(data, starts, g, maxBlocks, frame) && Holding(data, starts, g, maxBlocks, intake)
    ensures InFrame(data, starts[1..])
    ensures intake.lastSequence.Some? && intake.decodedBlocks == |Indices(data, starts[1..])|
    ensures intake.totalBlocks == frame.announcedBlocks
  {
    hide OwnBlock, AcceptedHeader, ReadU32, TotalField, SequenceField, Indices;
    assert |intake.offsets| == |intake.offsets.Keys|;
  }

  /** A record frame with losses is decoded, as far as the decoder is asked, exactly when the different
      blocks delivered are all that were announced or more than nine in ten of them. */
  lemma PartialReadyExactly(data: seq<byte>, segments: seq<Segment>, criticalPackets: nat, g: StreamGeometry,
                            maxBlocks: nat)
    requires maxBlocks == MaxBlockCount(g)
    requires ParseResult(data, segments, criticalPackets, g).error.None?
    requires ParseResult(data, segments, criticalPackets, g).frame.framing.Records?
    ensures var frame := ParseResult(data, segments, criticalPackets, g).frame;
            var starts := SpanStarts(data, frame.spans);
            && SpansInside(frame.spans, |data|) && starts != [] && InFrame(data, starts[1..])
            && var intake := PushAll(g, maxBlocks, data, frame.spans, Cleared(maxBlocks)).1;
            var blocks := |Indices(data, starts[1..])|;
            (ReadyPartial(intake) <==> blocks >= frame.announcedBlocks || 10 * blocks > 9 * frame.announcedBlocks)
  {
    hide MaxBlockCount, ParseResult, SpanStarts, SpansWhole, SpansReceived, PushAll, Holding, FrameOf, Indices;
    RecordFrameSound(data, segments, criticalPackets, g);
    var frame := ParseResult(data, segments, criticalPackets, g).frame;
    var starts := SpanStarts(data, frame.spans);
    FrameOfOne(data, starts, g, maxBlocks, frame);
    PushAllHolds(data, frame.spans, g, maxBlocks);
    HeldSome(data, starts, g, maxBlocks, frame, PushAll(g, maxBlocks, data, frame.spans, Cleared(maxBlocks)).1);
  }
}
