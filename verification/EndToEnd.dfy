/** From the host's records to the renderer's verdict: when a frame that was sent is decoded. */
module EndToEnd {
  import opened Words
  import opened Geometry
  import opened PacketMap
  import opened FramingSpec
  import opened FramingSound
  import opened Decoder
  import opened Sender
  import opened Recovery
  import opened Delivery
  import opened RoundTrip
  import opened Prefixed
  import opened DecodeUnits
  import opened Renderer
  import BlockMapping
  import BlockNumbering
  import BothFramings
  import Straddling
  import Lossless
  import Survivors

  // ---- Records read where the parser put them ----

  /** The decoder reads record r at p. */
  ghost predicate Reads(data: seq<byte>, p: nat, r: Record) {
    && RecordAt(data, p, |data|)
    && r == RecordOf(ReadU32(data, p), ReadU32(data, p + 4), data[p + HEADER_BYTES..p + RecordSize(data, p)])
    && r.Block? == !Extended(ReadU32(data, p))
    && (r.Block? ==> IndexAt(data, p) == r.index && SequenceField(ReadU32(data, p)) == r.sequence)
    && (r.Header? ==>
        TotalField(ReadU32(data, p + 4)) == r.totalBlocks && SequenceField(ReadU32(data, p)) == r.sequence)
  }

  ghost predicate ReadsAll(data: seq<byte>, starts: seq<nat>, rs: seq<Record>) {
    |starts| == |rs| && forall k :: 0 <= k < |starts| ==> Reads(data, starts[k], rs[k])
  }

  lemma ReadsIndex(data: seq<byte>, p: nat, r: Record)
    requires Reads(data, p, r) && r.Block?
    ensures p + HEADER_BYTES <= |data| && IndexAt(data, p) == r.index
  {
  }

  lemma ReadsConcat(data: seq<byte>, a: seq<nat>, b: seq<nat>, rs: seq<Record>, ss: seq<Record>)
    requires ReadsAll(data, a, rs) && ReadsAll(data, b, ss)
    ensures ReadsAll(data, a + b, rs + ss)
  {
    hide Reads;
  }

  lemma SliceRead(data: seq<byte>, lo: nat, hi: nat, q: nat)
    requires lo + q + 4 <= hi <= |data|
    ensures ReadU32(data[lo..hi], q) == ReadU32(data, lo + q)
  {
    SliceOfSlice(data, lo, hi, q, q + 4);
    ReadSame(data[lo..hi], q, data, lo + q);
  }

  /** The first record of a run, as both ends read it. */
  lemma FirstReads(data: seq<byte>, lo: nat, hi: nat, g: StreamGeometry, maxBlocks: nat)
    requires RecordAt(data, lo, hi) && (AcceptedHeader(data, lo, g, maxBlocks) || AcceptedBlock(data, lo, maxBlocks))
    ensures var run := data[lo..hi];
            var word0, word1 := ReadU32(run, 0), ReadU32(run, 4);
            && SizeOf(word0, word1) == RecordSize(data, lo)
            && Reads(data, lo, RecordOf(word0, word1, run[HEADER_BYTES..RecordSize(data, lo)]))
  {
    hide HeaderError, SequenceField, PayloadWordsField, TotalField, CodeField, IndexField, ReadU32;
    SliceRead(data, lo, hi, 0);
    SliceRead(data, lo, hi, 4);
    SliceOfSlice(data, lo, hi, HEADER_BYTES, RecordSize(data, lo));
  }

  lemma {:induction false} RunUnpacks(data: seq<byte>, lo: nat, hi: nat, g: StreamGeometry, maxBlocks: nat)
    requires lo <= hi <= |data| && Whole(data, lo, hi) && AllAccepted(data, Starts(data, lo, hi), g, maxBlocks)
    ensures Unpack(data[lo..hi]).Some? && ReadsAll(data, Starts(data, lo, hi), Unpack(data[lo..hi]).value)
    decreases hi - lo
  {
    hide SizeOf, RecordOf, ReadU32, RecordSize, AcceptedHeader, AcceptedBlock, Reads;
    if lo == hi {
      assert data[lo..hi] == [];
    } else {
      var size, starts := RecordSize(data, lo), Starts(data, lo, hi);
      assert starts[0] == lo && starts[1..] == Starts(data, lo + size, hi);
      TailAccepted(data, starts, g, maxBlocks);
      FirstReads(data, lo, hi, g, maxBlocks);
      assert data[lo..hi][size..] == data[lo + size..hi] by { SliceOfSlice(data, lo, hi, size, hi - lo); }
      RunUnpacks(data, lo + size, hi, g, maxBlocks);
      var r := RecordOf(ReadU32(data[lo..hi], 0), ReadU32(data[lo..hi], 4), data[lo..hi][HEADER_BYTES..size]);
      assert ReadsAll(data, [lo], [r]);
      ReadsConcat(data, [lo], starts[1..], [r], Unpack(data[lo + size..hi]).value);
      assert starts == [lo] + starts[1..];
    }
  }

  lemma {:induction false} SpansUnpack(data: seq<byte>, spans: seq<Span>, g: StreamGeometry, maxBlocks: nat)
    requires SpansInside(spans, |data|) && SpansWhole(data, spans)
             && AllAccepted(data, SpanStarts(data, spans), g, maxBlocks)
    ensures Unpack(SpanBytes(data, spans)).Some?
    ensures ReadsAll(data, SpanStarts(data, spans), Unpack(SpanBytes(data, spans)).value)
  {
    hide Unpack, Whole, Starts, Reads, AllAccepted;
    if spans == [] {
      assert Unpack([]) == Some([]) by { UnpackNothing(); }
    } else {
      var front, last := spans[..|spans| - 1], spans[|spans| - 1];
      SplitAccepted(data, SpanStarts(data, front), Starts(data, last.offset, SpanEnd(last)), g, maxBlocks);
      SpansUnpack(data, front, g, maxBlocks);
      RunUnpacks(data, last.offset, SpanEnd(last), g, maxBlocks);
      UnpackConcat(SpanBytes(data, front), data[last.offset..SpanEnd(last)]);
      ReadsConcat(data, SpanStarts(data, front), Starts(data, last.offset, SpanEnd(last)),
                  Unpack(SpanBytes(data, front)).value, Unpack(data[last.offset..SpanEnd(last)]).value);
    }
  }

  // ---- Which blocks the decoder ends up with ----

  /** The block indices among the chosen records. */
  ghost function BlockIndices(rs: seq<Record>, got: seq<nat>): set<nat>
    requires Chosen(rs, got)
  {
    set i | 0 <= i < |got| && rs[got[i]].Block? :: rs[got[i]].index
  }

  /** No two block records of the frame share an index. */
  ghost predicate DistinctBlocks(rs: seq<Record>, got: seq<nat>)
    requires Chosen(rs, got)
  {
    forall i, j :: 0 <= i < j < |got| && rs[got[i]].Block? && rs[got[j]].Block? ==> rs[got[i]].index != rs[got[j]].index
  }

  /** Behind the sequence header, the delivered starts are the chosen blocks'. */
  lemma SameIndices(data: seq<byte>, starts: seq<nat>, rs: seq<Record>, got: seq<nat>)
    requires Chosen(rs, got) && ReadsAll(data, starts, Pick(rs, got)) && got != [] && rs[got[0]].Header?
    requires forall i :: 0 < i < |got| ==> rs[got[i]].Block?
    ensures starts != [] && InFrame(data, starts[1..]) && Indices(data, starts[1..]) == BlockIndices(rs, got)
    ensures DistinctIndices(data, starts[1..]) <==> DistinctBlocks(rs, got)
  {
    hide Reads, IndexAt;
    var picked, blocks := Pick(rs, got), starts[1..];
    forall k | 0 <= k < |blocks|
      ensures blocks[k] + HEADER_BYTES <= |data| && IndexAt(data, blocks[k]) == rs[got[k + 1]].index
    {
      assert Reads(data, starts[k + 1], picked[k + 1]);
      ReadsIndex(data, starts[k + 1], picked[k + 1]);
    }
    forall i | 0 <= i < |got| && rs[got[i]].Block? ensures rs[got[i]].index in Indices(data, blocks) {
      assert i > 0;
      assert blocks[i - 1] == starts[i];
    }
    if DistinctIndices(data, blocks) {
      forall i, j | 0 <= i < j < |got| && rs[got[i]].Block? && rs[got[j]].Block?
        ensures rs[got[i]].index != rs[got[j]].index {
        assert IndexAt(data, blocks[i - 1]) != IndexAt(data, blocks[j - 1]);
      }
    }
    if DistinctBlocks(rs, got) {
      forall i, j | 0 <= i < j < |blocks| ensures IndexAt(data, blocks[i]) != IndexAt(data, blocks[j]) {
        assert rs[got[i + 1]].Block? && rs[got[j + 1]].Block?;
      }
    }
  }

  /** Delivered records of a frame sent: its header, then blocks. */
  lemma HeaderThenBlocks(rs: seq<Record>, g: StreamGeometry, maxBlocks: nat, plan: Plan, got: seq<nat>)
    requires FrameSent(rs, g, maxBlocks) && plan.records == rs && Genuine(plan, got, |rs|) && got != [] && got[0] == 0
    ensures Chosen(rs, got) && rs[got[0]].Header? && forall i :: 0 < i < |got| ==> rs[got[i]].Block?
  {
    hide RecordLost, Packable, BlocksUpTo;
    forall i | 0 < i < |got| ensures rs[got[i]].Block? {
      assert got[0] < got[i];
      assert BodyRecord(rs[got[i]], rs[0].sequence, maxBlocks);
    }
  }

  /** What the decoder holds after a damaged frame: the different blocks among the records delivered. */
  lemma HeldBlocks(rs: seq<Record>, segments: seq<Segment>, data: seq<byte>, criticalPackets: nat, g: StreamGeometry)
    requires Arrival(rs, segments, data, g) && Truthful(rs, segments, criticalPackets, g)
    ensures var r := ParseResult(data, segments, criticalPackets, g);
            var got := Delivered(rs, segments, criticalPackets, g).got;
            var starts := SpanStarts(data, r.frame.spans);
            && r.error.None? && r.frame.framing.Records? && Chosen(rs, got)
            && SpansInside(r.frame.spans, |data|) && starts != []
            && InFrame(data, starts[1..]) && Indices(data, starts[1..]) == BlockIndices(rs, got)
            && (DistinctIndices(data, starts[1..]) <==> DistinctBlocks(rs, got))
            && AllPackable(rs) && ReadsAll(data, starts, Pick(rs, got))
            && got != [] && rs[got[0]].Header? && forall i :: 0 < i < |got| ==> rs[got[i]].Block?
  {
    hide DistinctIndices, DistinctBlocks;
    hide ParseResult, Unpack, SpanBytes, SpanStarts, MaxBlockCount, CoarseBlockCount, FrameSent, Received, Serialise,
         Truthful, RangeLost, Tiles, ReadsAll, SpansWhole, AllAccepted, Genuine, Gather, AnyDamaged, PassAll, Indices,
         BlockIndices, Kept, BlocksIn, BlocksUpTo;
    var r, got := ParseResult(data, segments, criticalPackets, g), Delivered(rs, segments, criticalPackets, g).got;
    DamagedFrame(rs, segments, data, criticalPackets, g);
    DamagedFrameUnpacks(rs, segments, data, criticalPackets, g);
    ArrivalReadsHeader(rs, segments, data, g);
    RecordsKind(data, segments, criticalPackets, g);
    DeliveredAccepted(data, segments, criticalPackets, g);
    HeaderThenBlocks(rs, g, MaxBlockCount(g), PlanOf(rs, segments, criticalPackets, g), got);
    SpansUnpack(data, r.frame.spans, g, MaxBlockCount(g));
    SameIndices(data, SpanStarts(data, r.frame.spans), rs, got);
  }

  // ---- Which bytes it keeps of them ----

  /** A block record packs to the bytes it was read from. */
  lemma BlockBytes(data: seq<byte>, p: nat, r: Record)
    requires Reads(data, p, r) && r.Block? && Packable(r)
    ensures RecordSize(data, p) == Length(r) && data[p..p + RecordSize(data, p)] == Encode(r)
  {
    var word0: int, word1: int := ReadU32(data, p), ReadU32(data, p + 4);
    var size := RecordSize(data, p);
    BlockWords(word0, word1, r);
    PutBack(data, p);
    PutBack(data, p + 4);
    assert data[p..p + size] == data[p..p + 4] + data[p + 4..p + 8] + data[p + 8..p + size];
  }

  lemma BlockWords(word0: u32, word1: u32, r: Record)
    requires r.Block? && Packable(r) && r == RecordOf(word0, word1, r.payload)
    requires !Extended(word0) && PayloadWordsField(word0) * 4 == HEADER_BYTES + |r.payload|
    ensures Word0(r) == word0 && Word1(r) == word1
  {
    var w: int := word0;
    assert w == w % 0x1_0000 + 0x1_0000 * ((w / 0x1_0000) % 0x1000) + 0x1000_0000 * (w / 0x1000_0000);
    assert w / 0x1000_0000 < 8;
  }

  /** The decoder holds this record's bytes for its block. */
  ghost predicate HeldAs(intake: Intake, r: Record) {
    && r.Block? && Packable(r) && r.index in intake.offsets
    && var at := 4 * intake.offsets[r.index];
    at + Length(r) <= |intake.payload| && intake.payload[at..at + Length(r)] == Encode(r)
  }

  /** No record delivered before the i-th is of its block. */
  ghost predicate FirstDelivered(rs: seq<Record>, got: seq<nat>, i: nat)
    requires Chosen(rs, got)
  {
    && i < |got| && rs[got[i]].Block?
    && forall j :: 0 <= j < i && rs[got[j]].Block? ==> rs[got[j]].index != rs[got[i]].index
  }

  lemma KeptHeld(data: seq<byte>, p: nat, r: Record, intake: Intake)
    requires Reads(data, p, r) && r.Block? && Packable(r) && KeptAt(data, p, intake)
    ensures HeldAs(intake, r)
  {
    hide RecordOf, RecordSize, IndexAt;
    ReadsIndex(data, p, r);
    BlockBytes(data, p, r);
  }

  lemma FirstsHeld(data: seq<byte>, starts: seq<nat>, rs: seq<Record>, got: seq<nat>, intake: Intake, i: nat)
    requires Chosen(rs, got) && AllPackable(rs) && ReadsAll(data, starts, Pick(rs, got)) && got != []
    requires rs[got[0]].Header? && forall j :: 0 < j < |got| ==> rs[got[j]].Block?
    requires InFrame(data, starts[1..]) && Keeps(data, starts[1..], intake) && FirstDelivered(rs, got, i)
    ensures HeldAs(intake, rs[got[i]])
  {
    hide Packable, Reads, RecordSize, IndexAt, KeptAt, HeldAs;
    var blocks, picked := starts[1..], Pick(rs, got);
    assert i > 0;
    forall j | 0 < j < |got|
      ensures blocks[j - 1] == starts[j] && Reads(data, starts[j], rs[got[j]])
      ensures IndexAt(data, starts[j]) == rs[got[j]].index
    {
      assert Reads(data, starts[j], picked[j]);
      ReadsIndex(data, starts[j], rs[got[j]]);
    }
    assert FirstOfIndex(data, blocks, i - 1);
    assert KeptAt(data, blocks[i - 1], intake);
    KeptHeld(data, starts[i], rs[got[i]], intake);
  }

  /** Of every block delivered, the decoder keeps the bytes the host packed for the first record of it that was
      delivered, and it keeps nothing else. */
  lemma HeldBytes(rs: seq<Record>, segments: seq<Segment>, data: seq<byte>, criticalPackets: nat, g: StreamGeometry,
                  blockCount: nat)
    requires Arrival(rs, segments, data, g) && Truthful(rs, segments, criticalPackets, g)
    requires Expressible(g) && blockCount == BlockMapping.PlaceAll(g, BlockMapping.Order(g)).count32
    ensures var r := ParseResult(data, segments, criticalPackets, g);
            var got := Delivered(rs, segments, criticalPackets, g).got;
            && SpansInside(r.frame.spans, |data|) && Chosen(rs, got)
            && var intake := PushAll(g, blockCount, data, r.frame.spans, Cleared(blockCount)).1;
            && intake.offsets.Keys == BlockIndices(rs, got)
            && forall i :: 0 <= i < |got| && FirstDelivered(rs, got, i) ==> HeldAs(intake, rs[got[i]])
  {
    hide DistinctIndices, DistinctBlocks, ParseResult, SpanStarts, SpansWhole, SpansReceived, PushAll, FrameOf, Indices,
         BlockIndices, Keeps, Delivered, MaxBlockCount, BlockMapping.PlaceAll, Arrival, Truthful, ReadsAll, AllPackable,
         HeldAs, FirstDelivered;
    HeldBlocks(rs, segments, data, criticalPackets, g);
    assert blockCount == MaxBlockCount(g) by { BlockNumbering.NumberingAgrees(g); }
    RecordFrameSound(data, segments, criticalPackets, g);
    var frame := ParseResult(data, segments, criticalPackets, g).frame;
    var got := Delivered(rs, segments, criticalPackets, g).got;
    var starts := SpanStarts(data, frame.spans);
    FrameOfOne(data, starts, g, blockCount, frame);
    PushAllHolds(data, frame.spans, g, blockCount);
    var intake := PushAll(g, blockCount, data, frame.spans, Cleared(blockCount)).1;
    forall i | 0 <= i < |got| && FirstDelivered(rs, got, i) ensures HeldAs(intake, rs[got[i]]) {
      FirstsHeld(data, starts, rs, got, intake, i);
    }
  }

  lemma RecordsKind(data: seq<byte>, segments: seq<Segment>, criticalPackets: nat, g: StreamGeometry)
    requires |data| >= HEADER_BYTES && Extended(ReadU32(data, 0))
    ensures ParseResult(data, segments, criticalPackets, g).frame.framing.Records?
  {
    hide Run, LengthPrefixedRun, RangeLost, Tiles, MaxBlockCount, CoarseBlockCount, LeadingIntact;
    RunKind(InputOf(data, segments, criticalPackets, g), StartOf(segments, criticalPackets));
  }

  // ---- The verdict ----

  /** Every damaged frame, judged by what was sent and what was lost: decoded whole when nothing that matters
      is missing and no block was sent twice, as a partial frame when the coarsest level is known to be
      complete and more than nine in ten blocks arrived, and otherwise not at all. */
  lemma DamagedFrameJudged(rs: seq<Record>, frame: PendingFrame, g: StreamGeometry, blockCount: nat)
    requires Arrival(rs, frame.segments, frame.data, g) && Truthful(rs, frame.segments, frame.criticalPackets, g)
    requires Expressible(g) && blockCount == BlockMapping.PlaceAll(g, BlockMapping.Order(g)).count32
             && |frame.data| < WORD
    ensures var t := Delivered(rs, frame.segments, frame.criticalPackets, g);
            && Chosen(rs, t.got)
            && var blocks, announced := |BlockIndices(rs, t.got)|, BlocksUpTo(rs, |rs|);
            && (t.partial <==> AnyDamaged(PlanOf(rs, frame.segments, frame.criticalPackets, g), 0))
            && Judge(frame, g, blockCount)
               == (if !t.partial then (if DistinctBlocks(rs, t.got) then Decodable(false) else Incomplete)
                   else if !t.intact then CoarseLost
                   else if blocks >= announced || 10 * blocks > 9 * announced then Decodable(true)
                   else TooFewBlocks)
  {
    hide DistinctIndices, DistinctBlocks, FrameSent, BlocksUpTo, BlocksIn;
    hide ParseResult, SpanBytes, SpanStarts, MaxBlockCount, CoarseBlockCount, Serialise, Truthful, RangeLost, Tiles,
         Received, Genuine, Gather, AnyDamaged, PassAll, Indices, BlockIndices, BlockMapping.PlaceAll, PushAll, Ready,
         ReadyPartial, Kept;
    var data, segments, critical := frame.data, frame.segments, frame.criticalPackets;
    var r, t := ParseResult(data, segments, critical, g), Delivered(rs, segments, critical, g);
    DamagedFrame(rs, segments, data, critical, g);
    HeldBlocks(rs, segments, data, critical, g);
    NeverRefused(frame, g, blockCount);
    assert blockCount == MaxBlockCount(g) by { BlockNumbering.NumberingAgrees(g); }
    if t.partial {
      PartialReadyExactly(data, segments, critical, g, blockCount);
    } else {
      ReadyExactlyWhenDistinct(data, segments, critical, g, blockCount);
    }
  }

  // ---- Decode units with losses ----

  /** A unit of a frame sent: of packets received the buffers hold what was sent there, of lost ones anything of the
      same size; none is empty, and none that carries one of the first 8 bytes was lost. */
  ghost predicate UnitArrives(rs: seq<Record>, du: DecodeUnit, g: StreamGeometry) {
    && FrameSent(rs, g, MaxBlockCount(g)) && Sizes(du.buffers, |du.buffers|) == Total(rs)
    && (forall i :: 0 <= i < |du.buffers| ==> du.buffers[i].data != [])
    && (forall i :: 0 <= i < |du.buffers| && du.buffers[i].bufferType != Lost ==>
          Carries(Serialise(rs), du.buffers, i))
    && (forall i :: 0 <= i < |du.buffers| && Sizes(du.buffers, i) < HEADER_BYTES ==> du.buffers[i].bufferType != Lost)
  }

  lemma UnitArrival(rs: seq<Record>, du: DecodeUnit, g: StreamGeometry)
    requires UnitArrives(rs, du, g)
    ensures Arrival(rs, Assembled(du).segments, Assembled(du).data, g)
  {
    hide FrameSent, MaxBlockCount, Serialise, Joined, SegmentsOf, Sizes, Offset, ByteLost, Carries, InBuffer;
    var frame, buffers := Assembled(du), du.buffers;
    Announced(rs, g, MaxBlockCount(g));
    AssembledSays(du);
    AssembledTiles(du);
    assert Total(rs) >= HEADER_BYTES by { OffsetsGrow(rs, 0, |rs|); }
    SomeBuffer(buffers);
    assert Tiles(frame.segments, |frame.data|);
    forall b | 0 <= b < HEADER_BYTES ensures !ByteLost(frame.segments, b) {
      StartSpared(frame.segments, buffers, b);
    }
    forall b | 0 <= b < |frame.data| && !ByteLost(frame.segments, b) ensures frame.data[b] == Serialise(rs)[b] {
      SentByte(frame.segments, buffers, frame.data, Serialise(rs), b);
    }
  }

  lemma SomeBuffer(buffers: seq<Buffer>)
    requires Sizes(buffers, |buffers|) > 0
    ensures buffers != []
  {
  }

  lemma StartSpared(segments: seq<Segment>, buffers: seq<Buffer>, b: nat)
    requires Describes(segments, buffers) && b < HEADER_BYTES
    requires forall i :: 0 <= i < |buffers| && Sizes(buffers, i) < HEADER_BYTES ==> buffers[i].bufferType != Lost
    ensures !ByteLost(segments, b)
  {
    hide Sizes;
  }

  lemma SentByte(segments: seq<Segment>, buffers: seq<Buffer>, data: seq<byte>, sent: seq<byte>, b: nat)
    requires Describes(segments, buffers) && segments != [] && Tiles(segments, |data|) && b < |data| == |sent|
    requires forall i :: 0 <= i < |buffers| ==> Carries(data, buffers, i)
    requires forall i :: 0 <= i < |buffers| && buffers[i].bufferType != Lost ==> Carries(sent, buffers, i)
    requires !ByteLost(segments, b)
    ensures data[b] == sent[b]
  {
    hide Sizes, Carries;
    var i := HolderExists(segments, b, |segments|);
    CarriesByte(data, buffers, i, b);
    CarriesByte(sent, buffers, i, b);
  }

  lemma CarriesByte(data: seq<byte>, buffers: seq<Buffer>, i: nat, b: nat)
    requires i < |buffers| && Carries(data, buffers, i)
    requires Sizes(buffers, i) <= b < Sizes(buffers, i) + |buffers[i].data|
    ensures b < |data| && data[b] == buffers[i].data[b - Sizes(buffers, i)]
  {
    var lo, hi := Sizes(buffers, i), Sizes(buffers, i + 1);
    assert hi == lo + |buffers[i].data|;
    hide *;
    assert data[lo..hi][b - lo] == data[b];
  }

  /** A unit with losses, judged by what was sent and by which of its buffers stand for lost packets and which are
      flagged. */
  lemma DamagedUnitJudged(rs: seq<Record>, du: DecodeUnit, segments: seq<Segment>, g: StreamGeometry, blockCount: nat)
    requires UnitArrives(rs, du, g) && Describes(segments, du.buffers)
    requires Truthful(rs, segments, du.criticalPackets, g)
    requires Expressible(g) && blockCount == BlockMapping.PlaceAll(g, BlockMapping.Order(g)).count32
    requires Sizes(du.buffers, |du.buffers|) < WORD
    ensures var t := Delivered(rs, segments, du.criticalPackets, g);
            && Chosen(rs, t.got)
            && var blocks, announced := |BlockIndices(rs, t.got)|, BlocksUpTo(rs, |rs|);
            && (t.partial <==> AnyDamaged(PlanOf(rs, segments, du.criticalPackets, g), 0))
            && Judge(Assembled(du), g, blockCount)
               == (if !t.partial then (if DistinctBlocks(rs, t.got) then Decodable(false) else Incomplete)
                   else if !t.intact then CoarseLost
                   else if blocks >= announced || 10 * blocks > 9 * announced then Decodable(true)
                   else TooFewBlocks)
  {
    hide UnitArrives, Arrival, Truthful, Judge, Joined, SegmentsOf, Sizes, Delivered, AnyDamaged, DistinctBlocks,
         Chosen, BlocksUpTo, BlockIndices, BlockMapping.PlaceAll;
    UnitArrival(rs, du, g);
    AssembledSays(du);
    DescribedOnce(segments, Assembled(du).segments, du.buffers);
    DamagedFrameJudged(rs, Assembled(du), g, blockCount);
  }

  /** Of the packets received, exactly those that start with a record are flagged. */
  ghost predicate UnitFlagged(rs: seq<Record>, du: DecodeUnit) {
    forall i :: 0 <= i < |du.buffers| && du.buffers[i].bufferType != Lost ==>
      (du.buffers[i].bufferType == RecordStart <==> IsBoundary(rs, Sizes(du.buffers, i)))
  }

  /** The unit of a host that flags. */
  lemma FlaggedUnit(rs: seq<Record>, du: DecodeUnit, segments: seq<Segment>, g: StreamGeometry)
    requires UnitArrives(rs, du, g) && UnitFlagged(rs, du) && Describes(segments, du.buffers)
    ensures Truthful(rs, segments, du.criticalPackets, g)
    ensures Survivors.TruthfulFlags(PlanOf(rs, segments, du.criticalPackets, g))
  {
    hide FrameSent, MaxBlockCount, CoarseBlockCount, Serialise, Joined, SegmentsOf, IsBoundary, Offset, TrueRun,
         HostAligns;
    var plan := PlanOf(rs, segments, du.criticalPackets, g);
    AssembledSays(du);
    DescribedOnce(segments, Assembled(du).segments, du.buffers);
    AssembledTiles(du);
    Announced(rs, g, MaxBlockCount(g));
    assert Total(rs) > 0 by { OffsetsGrow(rs, 0, |rs|); }
    assert segments != [];
    assert Survivors.TruthfulFlags(plan);
    Survivors.FlagsFlagged(plan);
    PromiseKept(rs, segments, du.criticalPackets, g);
  }

  /** The verdict depends on the bytes and on what parse makes of them alone. */
  lemma JudgedAlike(a: PendingFrame, b: PendingFrame, g: StreamGeometry, blockCount: nat)
    requires a.data == b.data
    requires ParseResult(a.data, a.segments, a.criticalPackets, g) ==
             ParseResult(b.data, b.segments, b.criticalPackets, g)
    ensures Judge(a, g, blockCount) == Judge(b, g, blockCount)
  {
    hide ParseResult, PushAll, Ready, ReadyPartial;
  }

  /** An assembled unit none of whose buffers is empty or lost parses as its bytes alone do. */
  lemma UnitParsed(du: DecodeUnit, g: StreamGeometry)
    requires forall i :: 0 <= i < |du.buffers| ==> du.buffers[i].data != [] && !du.buffers[i].bufferType.Lost?
    ensures var frame := Assembled(du);
            && frame.data == Joined(du.buffers)
            && ParseResult(frame.data, frame.segments, frame.criticalPackets, g) == ParseResult(frame.data, [], 0, g)
  {
    hide ParseResult, Joined, SegmentsOf, Tiles;
    var frame := Assembled(du);
    AssembledTiles(du);
    forall i | 0 <= i < |du.buffers| ensures !frame.segments[i].lost {
      SegmentAt(du.buffers, i);
    }
    Lossless.MapIrrelevant(frame.data, frame.segments, frame.criticalPackets, g);
  }

  lemma WholeArrival(rs: seq<Record>, g: StreamGeometry)
    requires FrameSent(rs, g, MaxBlockCount(g)) && AllPackable(rs)
    ensures Arrival(rs, [], Serialise(rs), g)
  {
    hide FrameSent, MaxBlockCount, Serialise, AllPackable, RangeLost;
    Lossless.NoneLost([], 0, HEADER_BYTES);
    BothFramings.NoMap(|Serialise(rs)|);
  }

  /** A unit of which no packet was lost is decoded whole, however it was cut into packets and whatever was
      flagged or announced, if and only if its host sent no block twice. */
  lemma WholeUnitDecoded(rs: seq<Record>, du: DecodeUnit, g: StreamGeometry, blockCount: nat)
    requires FrameSent(rs, g, MaxBlockCount(g)) && AllPackable(rs) && Joined(du.buffers) == Serialise(rs)
    requires forall i :: 0 <= i < |du.buffers| ==> du.buffers[i].data != [] && !du.buffers[i].bufferType.Lost?
    requires Expressible(g) && blockCount == BlockMapping.PlaceAll(g, BlockMapping.Order(g)).count32
    requires |Joined(du.buffers)| < WORD
    ensures Chosen(rs, Kept(rs, |rs|))
    ensures Judge(Assembled(du), g, blockCount) ==
            if DistinctBlocks(rs, Kept(rs, |rs|)) then Decodable(false) else Incomplete
  {
    hide ParseResult, Judge, BlockMapping.PlaceAll, MaxBlockCount, CoarseBlockCount, FrameSent, Serialise, Joined,
         Assembled, DistinctBlocks, BlockIndices, AnyDamaged, Truthful, Kept, Chosen, PassAll, Arrival, AllPackable,
         BlocksUpTo;
    var whole := PendingFrame(Serialise(rs), [], 0, true);
    UnitParsed(du, g);
    JudgedAlike(Assembled(du), whole, g, blockCount);
    WholeArrival(rs, g);
    BothFramings.WholeAligns(rs, 0, g);
    DamagedFrameJudged(rs, whole, g, blockCount);
    BlocksDelivered(rs, [], 0, g);
  }

  // ---- Length-prefixed framing ----

  /** Records numbered from the first: all of them. */
  function Everything(n: nat): (all: seq<nat>)
    ensures |all| == n && forall i :: 0 <= i < n ==> all[i] == i
  {
    if n == 0 then [] else Everything(n - 1) + [n - 1]
  }

  lemma {:induction false} PickEverything(rs: seq<Record>, n: nat)
    requires n <= |rs|
    ensures Chosen(rs, Everything(n)) && Pick(rs, Everything(n)) == rs[..n]
  {
  }

  /** The header's and blocks' places in the frame, accepted as one frame. */
  lemma ReadAsFrame(data: seq<byte>, starts: seq<nat>, rs: seq<Record>, g: StreamGeometry, maxBlocks: nat,
                    frame: FrameState)
    requires FrameSent(rs, g, maxBlocks) && ReadsAll(data, starts, rs) && AllAccepted(data, starts, g, maxBlocks)
    requires forall k :: 0 < k < |rs| ==> rs[k].Block?
    requires frame.announcedBlocks == rs[0].totalBlocks && frame.blockRecords == (|starts| - 1) % WORD
    ensures OneFrame(data, starts, g, maxBlocks, frame)
  {
    hide BlocksUpTo, Packable, ReadU32, SequenceField, TotalField, IndexField, HeaderError, PayloadWordsField;
    assert Reads(data, starts[0], rs[0]);
    assert AcceptedHeader(data, starts[0], g, maxBlocks);
    forall k | 0 < k < |starts| ensures OwnBlock(data, starts[0], starts[k], maxBlocks) {
      assert Reads(data, starts[k], rs[k]);
      assert BodyRecord(rs[k], rs[0].sequence, maxBlocks);
      assert AcceptedHeader(data, starts[k], g, maxBlocks) || AcceptedBlock(data, starts[k], maxBlocks);
    }
  }

  lemma {:induction false} AllBlocks(rs: seq<Record>, k: nat)
    requires 0 < k <= |rs| && rs[0].Header? && forall j :: 0 < j < |rs| ==> rs[j].Block?
    ensures BlocksUpTo(rs, k) == k - 1
  {
    if k > 1 { AllBlocks(rs, k - 1); } else { assert BlocksUpTo(rs, 0) == 0; }
  }

  /** No two block records share an index. */
  ghost predicate AllDistinct(rs: seq<Record>) {
    forall i, j :: 0 <= i < j < |rs| && rs[i].Block? && rs[j].Block? ==> rs[i].index != rs[j].index
  }

  /** A well-formed length-prefixed frame as the decoder reads it. */
  lemma PrefixedRead(groups: seq<seq<Record>>, g: StreamGeometry)
    requires BothFramings.Grouping(groups, g)
    ensures var rs, data := Flatten(groups), PrefixedFrame(groups);
            var r := ParseResult(data, [], 0, g);
            var starts := SpanStarts(data, r.frame.spans);
            && r.error.None? && !r.frame.partial && SpansInside(r.frame.spans, |data|)
            && SpansWhole(data, r.frame.spans)
            && ReadsAll(data, starts, rs) && OneFrame(data, starts, g, MaxBlockCount(g), r.frame)
            && |starts| < WORD && r.frame.blockRecords == r.frame.announcedBlocks
            && rs != [] && rs[0].Header? && (forall k :: 0 < k < |rs| ==> rs[k].Block?)
  {
    hide ParseResult, Unpack, SpanBytes, SpanStarts, SpansWhole, AllAccepted, ReadsAll, OneFrame, MaxBlockCount,
         PrefixedFrame, Flatten, FrameSent, BlocksUpTo, GroupsPackable, WellPlaced, Tiles;
    var rs, data := Flatten(groups), PrefixedFrame(groups);
    BothFramings.NoMap(|data|);
    BothFramings.PrefixedRoundTrip(groups, [], 0, g);
    var r := ParseResult(data, [], 0, g);
    DeliveredAccepted(data, [], 0, g);
    PlacedInside(r.frame.spans, |data|);
    SpansUnpack(data, r.frame.spans, g, MaxBlockCount(g));
    OneHeader(rs, g, MaxBlockCount(g));
    Announced(rs, g, MaxBlockCount(g));
    assert forall k :: 0 < k < |rs| ==> rs[k].Block? by {
      forall k | 0 < k < |rs| ensures rs[k].Block? { assert rs[k] in rs; }
    }
    AllBlocks(rs, |rs|);
    var starts := SpanStarts(data, r.frame.spans);
    assert |starts| == |rs| by { ReadsLength(data, starts, rs); }
    ReadAsFrame(data, starts, rs, g, MaxBlockCount(g), r.frame);
  }

  lemma ReadsLength(data: seq<byte>, starts: seq<nat>, rs: seq<Record>)
    requires ReadsAll(data, starts, rs)
    ensures |starts| == |rs|
  {
  }

  lemma PlacedInside(spans: seq<Span>, size: nat)
    requires WellPlaced(spans, size)
    ensures SpansInside(spans, size)
  {
  }

  /** A length-prefixed unit that lost nothing, however grouped, is decoded whole if and only if no block of it
      was sent twice. */
  lemma PrefixedUnitDecoded(groups: seq<seq<Record>>, du: DecodeUnit, g: StreamGeometry, blockCount: nat)
    requires BothFramings.Grouping(groups, g) && Joined(du.buffers) == PrefixedFrame(groups)
    requires forall i :: 0 <= i < |du.buffers| ==> du.buffers[i].data != [] && !du.buffers[i].bufferType.Lost?
    requires Expressible(g) && blockCount == BlockMapping.PlaceAll(g, BlockMapping.Order(g)).count32
    ensures Judge(Assembled(du), g, blockCount) == if AllDistinct(Flatten(groups)) then Decodable(false) else Incomplete
  {
    hide ParseResult, PushAll, Ready, BlockMapping.PlaceAll, MaxBlockCount, PrefixedFrame, Joined, Flatten, SpanStarts,
         Assembled, ReadsAll, OneFrame, FrameOf, Holding, SpansWhole, DistinctIndices, AllDistinct, FrameSent,
         GroupsPackable, BothFramings.Grouping;
    var rs, data := Flatten(groups), Joined(du.buffers);
    UnitParsed(du, g);
    PrefixedRead(groups, g);
    var r := ParseResult(data, [], 0, g);
    var starts := SpanStarts(data, r.frame.spans);
    NeverRefused(Assembled(du), g, blockCount);
    assert blockCount == MaxBlockCount(g) by { BlockNumbering.NumberingAgrees(g); }
    FrameOfOne(data, starts, g, blockCount, r.frame);
    PushAllHolds(data, r.frame.spans, g, blockCount);
    ReadyCounts(data, starts, g, blockCount, r.frame,
                PushAll(g, blockCount, data, r.frame.spans, Cleared(blockCount)).1);
    DistinctAsSent(data, starts, rs);
  }

  lemma DistinctAsSent(data: seq<byte>, starts: seq<nat>, rs: seq<Record>)
    requires ReadsAll(data, starts, rs) && rs != [] && rs[0].Header? && forall k :: 0 < k < |rs| ==> rs[k].Block?
    ensures starts != [] && InFrame(data, starts[1..]) && (DistinctIndices(data, starts[1..]) <==> AllDistinct(rs))
  {
    hide Reads, InFrame, DistinctIndices, Indices, BlockIndices;
    PickEverything(rs, |rs|);
    assert rs[..|rs|] == rs;
    SameIndices(data, starts, rs, Everything(|rs|));
  }

  // ---- A frame that repeats a block ----

  function RepeatingFrame(): seq<Record> {
    [Header(127, 127, 0, 2, 0, 0, 0), Block(0, 0, 0, 12, []), Block(0, 0, 0, 12, [])]
  }

  lemma RepeatingSent(g: StreamGeometry)
    requires g == StreamGeometry(128, 128, false)
    ensures FrameSent(RepeatingFrame(), g, MaxBlockCount(g)) && AllPackable(RepeatingFrame())
    ensures Chosen(RepeatingFrame(), Kept(RepeatingFrame(), 3))
            && !DistinctBlocks(RepeatingFrame(), Kept(RepeatingFrame(), 3))
  {
    hide MaxBlockCount, BlocksUpTo, Kept;
    var rs := RepeatingFrame();
    Straddling.SmallCounts(g);
    Straddling.NextBlocks(rs, 0);
    Straddling.NextBlocks(rs, 1);
    Straddling.NextBlocks(rs, 2);
    assert forall k :: 0 < k < |rs| ==> BodyRecord(rs[k], rs[0].sequence, MaxBlockCount(g));
    KeptNext(rs, 0);
    KeptNext(rs, 1);
    KeptNext(rs, 2);
    var got := Kept(rs, 3);
    assert got == [0, 1, 2];
    assert rs[got[1]].Block? && rs[got[2]].Block? && rs[got[1]].index == rs[got[2]].index;
  }

  lemma KeptNext(rs: seq<Record>, k: nat)
    requires k < |rs| && !rs[k].Padding?
    ensures Kept(rs, k + 1) == Kept(rs, k) + [k] && Kept(rs, 0) == []
  {
  }

  /** The unit that carries one buffer. */
  function OneBuffer(data: seq<byte>): DecodeUnit {
    DecodeUnit(1, 0, 0, [Buffer(data, PicData)], 0)
  }

  lemma OneBufferJoined(data: seq<byte>)
    ensures Joined(OneBuffer(data).buffers) == data
  {
    assert OneBuffer(data).buffers[..0] == [];
  }

  lemma RepeatedBlock(rs: seq<Record>, g: StreamGeometry, blockCount: nat)
    requires FrameSent(rs, g, MaxBlockCount(g)) && AllPackable(rs) && Expressible(g) && 0 < Total(rs) < WORD
    requires Chosen(rs, Kept(rs, |rs|)) && !DistinctBlocks(rs, Kept(rs, |rs|))
    requires blockCount == BlockMapping.PlaceAll(g, BlockMapping.Order(g)).count32
    ensures ParseResult(Serialise(rs), [], 0, g).error.None?
    ensures Judge(Assembled(OneBuffer(Serialise(rs))), g, blockCount) == Incomplete
  {
    hide ParseResult, Judge, Serialise, BlockMapping.PlaceAll, MaxBlockCount, FrameSent, AllPackable, DistinctBlocks,
         Kept, Unpack, SpanBytes, Offset, Joined, Assembled, Tiles;
    BothFramings.NoMap(Total(rs));
    BothFramings.RecordFramedRoundTrip(rs, [], 0, g);
    OneBufferJoined(Serialise(rs));
    WholeUnitDecoded(rs, OneBuffer(Serialise(rs)), g, blockCount);
  }

  /** Block 12 sent twice, two blocks announced: parse finds nothing wrong, and the decoder waits for a second
      block. */
  lemma RepeatedBlockIncomplete(g: StreamGeometry, blockCount: nat)
    requires g == StreamGeometry(128, 128, false)
    requires blockCount == BlockMapping.PlaceAll(g, BlockMapping.Order(g)).count32
    ensures AllPackable(RepeatingFrame())
    ensures ParseResult(Serialise(RepeatingFrame()), [], 0, g).error.None?
    ensures Judge(Assembled(OneBuffer(Serialise(RepeatingFrame()))), g, blockCount) == Incomplete
  {
    hide ParseResult, Judge, Serialise, BlockMapping.PlaceAll, MaxBlockCount, FrameSent, DistinctBlocks, Kept, Offset,
         Assembled, OneBuffer, AllPackable;
    RepeatingSent(g);
    RepeatingSize();
    RepeatedBlock(RepeatingFrame(), g, blockCount);
  }

  lemma RepeatingSize()
    ensures |RepeatingFrame()| == 3 && Total(RepeatingFrame()) == 24
  {
    Straddling.NextOffsets(RepeatingFrame());
  }
}
