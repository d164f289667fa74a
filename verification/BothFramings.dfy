/** A host may frame the same records either way. The parser hands on the same records. */
module BothFramings {
  import opened Words
  import opened Geometry
  import opened PacketMap
  import opened FramingSpec
  import opened Sender
  import opened Recovery
  import opened Delivery
  import opened RoundTrip
  import opened Prefixed
  import opened Lossless
  import Verdicts

  // ---- Record framing, nothing lost ----

  lemma PickSnoc(rs: seq<Record>, got: seq<nat>, k: nat)
    requires Chosen(rs, got) && k < |rs|
    ensures Chosen(rs, got + [k]) && Pick(rs, got + [k]) == Pick(rs, got) + [rs[k]]
  {
    assert (got + [k])[..|got + [k]| - 1] == got;
  }

  lemma ContentNext(rs: seq<Record>, k: nat)
    requires k < |rs|
    ensures Content(rs[..k + 1]) == Content(rs[..k]) + if rs[k].Padding? then [] else [rs[k]]
  {
    assert rs[..k + 1][..k] == rs[..k];
  }

  lemma NothingKept(rs: seq<Record>)
    ensures Chosen(rs, []) && Pick(rs, []) == Content([])
  {
  }

  lemma PaddingNotKept(rs: seq<Record>, k: nat)
    requires k < |rs| && rs[k].Padding? && Chosen(rs, Kept(rs, k)) && Pick(rs, Kept(rs, k)) == Content(rs[..k])
    ensures Chosen(rs, Kept(rs, k + 1)) && Pick(rs, Kept(rs, k + 1)) == Content(rs[..k + 1])
  {
    hide Pick, Content, Chosen;
    ContentNext(rs, k);
    assert Kept(rs, k + 1) == Kept(rs, k);
    assert Content(rs[..k]) + [] == Content(rs[..k]);
  }

  lemma RecordKept(rs: seq<Record>, k: nat)
    requires k < |rs| && !rs[k].Padding? && Chosen(rs, Kept(rs, k)) && Pick(rs, Kept(rs, k)) == Content(rs[..k])
    ensures Chosen(rs, Kept(rs, k + 1)) && Pick(rs, Kept(rs, k + 1)) == Content(rs[..k + 1])
  {
    hide Pick, Content, Chosen;
    ContentNext(rs, k);
    PickSnoc(rs, Kept(rs, k), k);
  }

  lemma {:induction false} KeptContent(rs: seq<Record>, k: nat)
    requires k <= |rs|
    ensures Chosen(rs, Kept(rs, k)) && Pick(rs, Kept(rs, k)) == Content(rs[..k])
  {
    hide Pick, Content, Chosen;
    if k == 0 {
      assert rs[..0] == [];
      NothingKept(rs);
    } else {
      hide Kept;
      KeptContent(rs, k - 1);
      if rs[k - 1].Padding? { PaddingNotKept(rs, k - 1); } else { RecordKept(rs, k - 1); }
    }
  }

  lemma WholeAligns(rs: seq<Record>, criticalPackets: nat, g: StreamGeometry)
    ensures Truthful(rs, [], criticalPackets, g) && !AnyDamaged(PlanOf(rs, [], criticalPackets, g), 0)
  {
    hide Offset, TrueRun, CoarseBlockCount;
    PromiseKept(rs, [], criticalPackets, g);
  }

  /** Round trip by record framing: with no packet lost, whatever the packet map, the flags and the announced
      count, the padding is dropped and every other record comes back, as many blocks as the header announces. */
  lemma RecordFramedRoundTrip(rs: seq<Record>, segments: seq<Segment>, criticalPackets: nat, g: StreamGeometry)
    requires FrameSent(rs, g, MaxBlockCount(g)) && Tiles(segments, Total(rs)) && !AnyLost(segments)
    ensures AllPackable(rs)
    ensures var data := Serialise(rs);
            var r := ParseResult(data, segments, criticalPackets, g);
            && r.error.None? && Unpack(SpanBytes(data, r.frame.spans)) == Some(Content(rs))
            && !r.frame.partial && r.frame.coarseLevelIntact
            && rs[0].Header? && r.frame.blockRecords == r.frame.announcedBlocks == rs[0].totalBlocks
  {
    hide MaxBlockCount, CoarseBlockCount, ParseResult, FrameSent, Serialise, Unpack, SpanBytes, RangeLost, Gather,
         Genuine, Content, AnyDamaged, Truthful, Tiles, Offset;
    Announced(rs, g, MaxBlockCount(g));
    var data := Serialise(rs);
    MapIrrelevant(data, segments, criticalPackets, g);
    NoneLost([], 0, HEADER_BYTES);
    assert Arrival(rs, [], data, g) by { NoMap(|data|); }
    WholeAligns(rs, 0, g);
    DamagedFrame(rs, [], data, 0, g);
    DamagedFrameUnpacks(rs, [], data, 0, g);
    KeptContent(rs, |rs|);
    assert rs[..|rs|] == rs;
    KeptChosen(rs, |rs|);
    Verdicts.WholeFrameVerdict(data, [], 0, g);
  }

  lemma NoMap(size: nat)
    ensures Tiles([], size)
  {
  }

  // ---- Length-prefixed framing ----

  lemma {:induction false} InFlatten(groups: seq<seq<Record>>, i: nat, k: nat)
    requires i < |groups| && k < |groups[i]|
    ensures groups[i][k] in Flatten(groups)
  {
    if i < |groups| - 1 { InFlatten(groups[..|groups| - 1], i, k); }
  }

  lemma BodyAcceptable(rs: seq<Record>, g: StreamGeometry, maxBlocks: nat, r: Record)
    requires FrameSent(rs, g, maxBlocks) && r in rs && !r.Padding?
    ensures Acceptable(r, g, maxBlocks)
  {
    hide Packable, BlocksUpTo;
    var k :| 0 <= k < |rs| && rs[k] == r;
    if k > 0 { assert BodyRecord(rs[k], rs[0].sequence, maxBlocks); }
  }

  /** How a host groups the records of a frame: no packet empty, none of 4 GiB, no padding. */
  ghost predicate Grouping(groups: seq<seq<Record>>, g: StreamGeometry) {
    && GroupsPackable(groups) && |groups| < TOP_BIT
    && (forall i :: 0 <= i < |groups| ==> groups[i] != [])
    && FrameSent(Flatten(groups), g, MaxBlockCount(g))
    && (forall r :: r in Flatten(groups) ==> !r.Padding?)
  }

  lemma GroupingAcceptable(groups: seq<seq<Record>>, g: StreamGeometry, i: nat)
    requires Grouping(groups, g) && i < |groups|
    ensures GroupAcceptable(groups[i], g, MaxBlockCount(g))
  {
    hide FrameSent, Acceptable, GroupsPackable, MaxBlockCount, Flatten;
    forall k | 0 <= k < |groups[i]| ensures Acceptable(groups[i][k], g, MaxBlockCount(g)) {
      InFlatten(groups, i, k);
      BodyAcceptable(Flatten(groups), g, MaxBlockCount(g), groups[i][k]);
    }
  }

  /** What the packet walk makes of the whole frame. */
  lemma PrefixedParsed(groups: seq<seq<Record>>, g: StreamGeometry)
    requires Grouping(groups, g)
    ensures var data := PrefixedFrame(groups);
            && groups != [] && |data| >= HEADER_BYTES && |data| % 4 == 0 && ReadU32(data, 0) == |groups|
            && LengthPrefixedRun(data, false, g) ==
               Result(None, Through(groups, |groups|, FRESH.(framing := LengthPrefixed)))
  {
    hide Packets, FrameSent, Serialise, ReadU32, PutU32, PacketsRun, MaxBlockCount, GroupAcceptable, AllPackable,
         Offset, Counted;
    var data, frame := PrefixedFrame(groups), FRESH.(framing := LengthPrefixed);
    if groups == [] { NothingFlat(g); }
    PacketsLength(groups);
    GroupStartAligned(groups, |groups|);
    GroupsAtLeast(groups, |groups|);
    ReadPrefix(PutU32(|groups|), Packets(groups), 0);
    forall i | 0 <= i < |groups| ensures GroupAcceptable(groups[i], g, MaxBlockCount(g)) {
      GroupingAcceptable(groups, g, i);
    }
    PacketsRead(data, groups, 0, g, MaxBlockCount(g), frame);
    assert Through(groups, 0, frame) == frame by { ThroughNone(groups, frame); }
  }

  lemma ThroughNone(groups: seq<seq<Record>>, frame: FrameState)
    requires GroupsPackable(groups) && frame.spans == []
    ensures Through(groups, 0, frame) == frame
  {
    assert groups[..0] == [];
  }

  lemma NothingFlat(g: StreamGeometry)
    ensures !FrameSent(Flatten([]), g, MaxBlockCount(g))
  {
  }

  /** Round trip by length-prefixed framing, for any grouping: every record comes back, one span a packet. */
  lemma PrefixedRoundTrip(groups: seq<seq<Record>>, segments: seq<Segment>, criticalPackets: nat, g: StreamGeometry)
    requires Grouping(groups, g) && Tiles(segments, |PrefixedFrame(groups)|) && !AnyLost(segments)
    ensures var data := PrefixedFrame(groups);
            var r := ParseResult(data, segments, criticalPackets, g);
            && r.error.None? && Unpack(SpanBytes(data, r.frame.spans)) == Some(Flatten(groups))
            && !r.frame.partial && r.frame.coarseLevelIntact
            && |r.frame.spans| == |groups|
            && Flatten(groups) != [] && Flatten(groups)[0].Header?
            && r.frame.blockRecords == r.frame.announcedBlocks == Flatten(groups)[0].totalBlocks
  {
    hide Packets, FrameSent, Serialise, ReadU32, PutU32, LengthPrefixedRun, MaxBlockCount, CoarseBlockCount,
         AllPackable, Offset, RangeLost, Unpack, SpanBytes, Tiles, GroupStart, Run, PrefixedFrame, Flatten, BlocksUpTo,
         Counted;
    var data, rs := PrefixedFrame(groups), Flatten(groups);
    var frame := FRESH.(framing := LengthPrefixed);
    PrefixedParsed(groups, g);
    MapIrrelevant(data, segments, criticalPackets, g);
    NoMap(|data|);
    NoneLost([], 0, HEADER_BYTES);
    Announced(rs, g, MaxBlockCount(g));
    assert groups[..|groups|] == groups;
    GroupSpanBytes(data, groups, |groups|);
    SerialiseUnpack(rs);
    FlattenPackable(groups);
    OneHeader(rs, g, MaxBlockCount(g));
    CountedFrame(frame, rs);
  }

  /** Both framings of the same records: the decoder gets the same bytes, and is told the same counts. */
  lemma FramingsAgree(rs: seq<Record>, groups: seq<seq<Record>>, g: StreamGeometry)
    requires FrameSent(rs, g, MaxBlockCount(g)) && Grouping(groups, g) && Flatten(groups) == Content(rs)
    ensures AllPackable(rs)
    ensures var a, b := ParseResult(Serialise(rs), [], 0, g), ParseResult(PrefixedFrame(groups), [], 0, g);
            && a.error.None? && b.error.None?
            && Unpack(SpanBytes(Serialise(rs), a.frame.spans)) ==
               Unpack(SpanBytes(PrefixedFrame(groups), b.frame.spans))
            && a.frame.blockRecords == b.frame.blockRecords && a.frame.announcedBlocks == b.frame.announcedBlocks
  {
    hide FrameSent, Serialise, MaxBlockCount, ParseResult, Unpack, SpanBytes, PrefixedFrame, Flatten, Tiles, Grouping,
         Content, AllPackable;
    Announced(rs, g, MaxBlockCount(g));
    NoMap(Total(rs));
    assert GroupsPackable(groups) && |groups| < TOP_BIT by { Groups(groups, g); }
    NoMap(|PrefixedFrame(groups)|);
    RecordFramedRoundTrip(rs, [], 0, g);
    PrefixedRoundTrip(groups, [], 0, g);
    assert Content(rs) != [] && Content(rs)[0] == rs[0] by { ContentHead(rs); }
  }

  lemma Groups(groups: seq<seq<Record>>, g: StreamGeometry)
    requires Grouping(groups, g)
    ensures GroupsPackable(groups) && |groups| < TOP_BIT
  {
  }

  lemma {:induction false} ContentHead(rs: seq<Record>)
    requires rs != [] && rs[0].Header?
    ensures Content(rs) != [] && Content(rs)[0] == rs[0]
  {
    if |rs| > 1 { ContentHead(rs[..|rs| - 1]); }
  }

  // ---- The header that cannot be sent ----

  /** The header of a 16384x16384, 4:2:0 frame of no blocks. */
  function LargestHeader(sequence: nat): Record {
    Header(0x3FFF, 0x3FFF, sequence, 0, 0, 0, 0)
  }

  /** With sequence 6 the frame is taken ... */
  lemma SequenceSixTaken(g: StreamGeometry)
    requires g == StreamGeometry(16384, 16384, false)
    ensures AllPackable([LargestHeader(6)])
    ensures ParseResult(Serialise([LargestHeader(6)]), [], 0, g).error.None?
  {
    hide MaxBlockCount, ParseResult, Serialise, Unpack, SpanBytes;
    var rs := [LargestHeader(6)];
    assert BlocksUpTo(rs, 1) == BlocksUpTo(rs, 0) == 0;
    assert FrameSent(rs, g, MaxBlockCount(g));
    NoMap(Total(rs));
    RecordFramedRoundTrip(rs, [], 0, g);
  }

  /** A frame that is one padding record without payload has no header. */
  lemma PaddingAlone(input: Input, w: Walk)
    requires |input.data| == HEADER_BYTES && input.segments == [] && w.pos == w.spanStart == 0
    requires ReadU32(input.data, 0) == PADDING_MAGIC && ReadU32(input.data, 4) == 0
    ensures Run(input, w).error.None? && Run(input, w).frame.sequenceHeaderSeen == w.frame.sequenceHeaderSeen
  {
    hide ReadU32, HeaderStep, BlockStep, RangeLost;
    NoneLost(input.segments, 0, HEADER_BYTES);
    var next := Step(input, w).walk;
    assert Step(input, w) == PaddingStep(input, w, 0);
    assert next.pos == |input.data|;
    assert Run(input, w) == Run(input, next);
  }

  lemma AllOnesWord(r: Record)
    requires Fits(r) && AllOnes(r)
    ensures Word0(r) == PADDING_MAGIC && Extended(Word0(r)) && |Encode(r)| == HEADER_BYTES
  {
  }

  /** A frame of no blocks is refused for want of a header when its header is all ones. */
  lemma AllOnesRefused(r: Record, g: StreamGeometry)
    requires Fits(r) && AllOnes(r) && Word1(r) == 0
    ensures ParseResult(Encode(r), [], 0, g).error == Some(NoSequenceHeader)
  {
    hide MaxBlockCount, CoarseBlockCount, ReadU32, Encode, Run, Tiles, RangeLost, Word0, Word1, Fits, AllOnes;
    var data := Encode(r);
    EncodedWords(r);
    AllOnesWord(r);
    NoneLost([], 0, HEADER_BYTES);
    NoMap(|data|);
    PaddingAlone(InputOf(data, [], 0, g), StartOf([], 0));
  }

  /** ... and with sequence 7, as one frame in eight has, its header is passed over as padding. */
  lemma SequenceSevenRefused(g: StreamGeometry)
    ensures Fits(LargestHeader(7)) && AllOnes(LargestHeader(7))
    ensures ParseResult(Encode(LargestHeader(7)), [], 0, g).error == Some(NoSequenceHeader)
  {
    hide ParseResult, Encode;
    AllOnesRefused(LargestHeader(7), g);
  }
}
