/** The walk over a damaged frame, seen from the sender's side: which of the records sent are
    passed on. Recovery.Pass says what one step does to the list of records; the parser, which sees
    only bytes, is shown to do exactly that. */
module Recovery {
  import opened Words
  import opened Geometry
  import opened PacketMap
  import opened FramingSpec
  import opened FramingSound
  import opened Sender

  datatype Plan = Plan(records: seq<Record>, segments: seq<Segment>, coarseKnown: bool, coarseBlocks: nat)

  /** next: the record the walk stands before; got: those passed on so far. */
  datatype Tally = Tally(next: nat, got: seq<nat>, partial: bool, intact: bool, aligned: bool, pastCoarse: bool)

  ghost predicate HeaderLost(plan: Plan, k: nat)
    requires k < |plan.records|
  {
    RangeLost(plan.segments, Offset(plan.records, k), Offset(plan.records, k) + HEADER_BYTES)
  }

  ghost predicate RecordLost(plan: Plan, k: nat)
    requires k < |plan.records|
  {
    RangeLost(plan.segments, Offset(plan.records, k), Offset(plan.records, k + 1))
  }

  function Total(rs: seq<Record>): nat {
    Offset(rs, |rs|)
  }

  /** The first record, from j on, that starts at or beyond offset o. */
  function FirstFrom(rs: seq<Record>, o: nat, j: nat): (k: nat)
    requires j <= |rs|
    ensures j <= k <= |rs|
    decreases |rs| - j
  {
    if j == |rs| || Offset(rs, j) >= o then j else FirstFrom(rs, o, j + 1)
  }

  function ResumeOffset(plan: Plan, t: Tally): nat
    requires t.next < |plan.records|
  {
    if Flagged(plan.segments) || t.aligned then
      match NextReceived(plan.segments, Offset(plan.records, t.next), Flagged(plan.segments))
      case None => Total(plan.records)
      case Some(o) => Min(o, Total(plan.records))
    else Total(plan.records)
  }

  function LossTallied(plan: Plan, t: Tally): Tally {
    t.(partial := true, intact := t.intact && (t.pastCoarse || plan.coarseKnown))
  }

  /** One step of the walk, over records. */
  ghost function Pass(plan: Plan, t: Tally): (t': Tally)
    requires t.next < |plan.records|
    ensures t.next < t'.next <= |plan.records|
  {
    var k := t.next;
    if HeaderLost(plan, k) then
      LossTallied(plan, t).(next := FirstFrom(plan.records, ResumeOffset(plan, t), k + 1))
    else
      match plan.records[k]
      case Padding(_) => t.(next := k + 1)
      case Header(_, _, _, _, _, _, _) => t.(next := k + 1, got := t.got + [k])
      case Block(_, _, _, index, _) => PassBlock(plan, t, index)
  }

  ghost function PassBlock(plan: Plan, t: Tally, index: nat): (t': Tally)
    requires t.next < |plan.records|
    ensures t'.next == t.next + 1
  {
    var k := t.next;
    var passed := t.(pastCoarse := t.pastCoarse || index >= plan.coarseBlocks);
    if RecordLost(plan, k) then LossTallied(plan, passed).(next := k + 1, aligned := false)
    else passed.(next := k + 1, got := t.got + [k], aligned := AlignsAfter(plan, k, index))
  }

  ghost predicate AlignsAfter(plan: Plan, k: nat, index: nat)
    requires k < |plan.records|
  {
    && AnyLost(plan.segments) && Ordinary(plan.segments, Length(plan.records[k])) && index >= plan.coarseBlocks
    && InOnePacket(plan.segments, Offset(plan.records, k), Offset(plan.records, k + 1))
  }

  ghost function PassAll(plan: Plan, t: Tally): Tally
    requires t.next <= |plan.records|
    decreases |plan.records| - t.next
  {
    if t.next == |plan.records| then t else PassAll(plan, Pass(plan, t))
  }

  // ---- The frame sent ----

  /** The bytes of a full packet, when there are several: the first is full, and 8 of its bytes are not the
      frame's. */
  function FullPacket(cut: seq<Segment>): nat
    requires |cut| > 1
  {
    cut[0].size + 8
  }

  /** A record that does not fit a full packet together with an empty padding record. */
  predicate Oversized(cut: seq<Segment>, r: Record) {
    |cut| > 1 && Length(r) + Length(Padding(0)) > FullPacket(cut)
  }

  function BlocksUpTo(rs: seq<Record>, k: nat): nat
    requires k <= |rs|
  {
    if k == 0 then 0 else BlocksUpTo(rs, k - 1) + if rs[k - 1].Block? then 1 else 0
  }

  ghost predicate BodyRecord(r: Record, sequence: nat, maxBlocks: nat) {
    r.Padding? || (r.Block? && r.sequence == sequence && r.index < maxBlocks)
  }

  /** A sequence header for this stream, then block and padding records of its sequence, as many
      blocks as it announces. */
  ghost predicate FrameSent(rs: seq<Record>, g: StreamGeometry, maxBlocks: nat) {
    && rs != [] && AllPackable(rs) && rs[0].Header?
    && rs[0].widthMinus1 + 1 == g.width && rs[0].heightMinus1 + 1 == g.height
    && rs[0].code == 0 && (rs[0].chroma == 1 <==> g.chroma444)
    && rs[0].totalBlocks == BlocksUpTo(rs, |rs|) <= maxBlocks
    && forall k :: 0 < k < |rs| ==> BodyRecord(rs[k], rs[0].sequence, maxBlocks)
  }

  ghost predicate Setting(input: Input, plan: Plan) {
    && input.segments == plan.segments && input.coarseKnown == plan.coarseKnown
    && input.coarseBlocks == plan.coarseBlocks
    && FrameSent(plan.records, input.geometry, input.maxBlocks)
    && Received(Serialise(plan.records), plan.segments, input.data)
    && !HeaderLost(plan, 0)
  }

  // ---- Where the walk may resume ----

  ghost predicate IsBoundary(rs: seq<Record>, o: nat) {
    exists j :: 0 <= j <= |rs| && Offset(rs, j) == o
  }

  /** Every received packet from byte p on starts with a record. */
  ghost predicate LaterBoundaries(plan: Plan, p: nat) {
    forall i :: 0 <= i < |plan.segments| && !plan.segments[i].lost && plan.segments[i].offset >= p ==>
      IsBoundary(plan.records, plan.segments[i].offset)
  }

  /** The host's promise about the packets received. With flags: a flagged one starts with a record. Without:
      once an ordinary finer record came whole in one packet, every later one starts with a record. */
  ghost predicate HostAligns(plan: Plan) {
    if Flagged(plan.segments) then
      forall i :: 0 <= i < |plan.segments| && !plan.segments[i].lost && plan.segments[i].recordStart ==>
        IsBoundary(plan.records, plan.segments[i].offset)
    else
      forall k :: 0 <= k < |plan.records| && plan.records[k].Block? && AlignsAfter(plan, k, plan.records[k].index)
             ==> LaterBoundaries(plan, Offset(plan.records, k + 1))
  }

  ghost predicate AlignedTruly(plan: Plan, t: Tally)
    requires t.next <= |plan.records|
  {
    t.aligned && !Flagged(plan.segments) ==> LaterBoundaries(plan, Offset(plan.records, t.next))
  }

  lemma PassAlignedTruly(plan: Plan, t: Tally)
    requires HostAligns(plan) && t.next < |plan.records| && AlignedTruly(plan, t)
    ensures AlignedTruly(plan, Pass(plan, t))
  {
    hide AlignsAfter, HeaderLost, RecordLost, ResumeOffset;
    OffsetsGrow(plan.records, t.next, Pass(plan, t).next);
  }

  /** Wherever the walk resumes after a lost header, a record starts there. */
  lemma ResumesAtBoundary(plan: Plan, t: Tally)
    requires Contiguous(plan.segments) && HostAligns(plan) && t.next < |plan.records| && AlignedTruly(plan, t)
    ensures Offset(plan.records, t.next) < ResumeOffset(plan, t) <= Total(plan.records)
    ensures IsBoundary(plan.records, ResumeOffset(plan, t))
  {
    hide AlignsAfter, NextReceived;
    var rs, p := plan.records, Offset(plan.records, t.next);
    OffsetsGrow(rs, t.next, |rs|);
    assert IsBoundary(rs, Total(rs));
    NextReceivedLeast(plan.segments, p, Flagged(plan.segments));
  }

  lemma ResumesLater(plan: Plan, t: Tally)
    requires t.next < |plan.records|
    ensures Offset(plan.records, t.next) < ResumeOffset(plan, t) <= Total(plan.records)
  {
    OffsetsGrow(plan.records, t.next, |plan.records|);
  }

  // ---- Runs that resume on records only ----

  /** Wherever the walk resumes from here on, a record starts. */
  ghost predicate TrueRun(plan: Plan, t: Tally)
    requires t.next <= |plan.records|
    decreases |plan.records| - t.next
  {
    t.next == |plan.records| || (TrueStep(plan, t) && TrueRun(plan, Pass(plan, t)))
  }

  ghost predicate TrueStep(plan: Plan, t: Tally)
    requires t.next < |plan.records|
  {
    HeaderLost(plan, t.next) ==> IsBoundary(plan.records, ResumeOffset(plan, t))
  }

  /** A host that keeps its promise makes every run one of these. */
  lemma {:induction false} HostKeepsTrue(plan: Plan, t: Tally)
    requires Contiguous(plan.segments) && HostAligns(plan) && t.next <= |plan.records| && AlignedTruly(plan, t)
    ensures TrueRun(plan, t)
    decreases |plan.records| - t.next
  {
    hide Pass, HostAligns, AlignedTruly, HeaderLost, ResumeOffset, IsBoundary;
    if t.next < |plan.records| {
      ResumesAtBoundary(plan, t);
      PassAlignedTruly(plan, t);
      HostKeepsTrue(plan, Pass(plan, t));
    }
  }

  lemma {:induction false} FirstFromHits(rs: seq<Record>, o: nat, j: nat, k: nat)
    requires j <= k <= |rs| && Offset(rs, k) == o
    ensures Offset(rs, FirstFrom(rs, o, j)) == o && FirstFrom(rs, o, j) <= k
    decreases |rs| - j
  {
    if j < |rs| && Offset(rs, j) < o {
      FirstFromHits(rs, o, j + 1, k);
    } else {
      OffsetsGrow(rs, j, k);
    }
  }

  /** Resuming where a record starts is resuming at the first record from there on. */
  lemma ResumeIndexRight(plan: Plan, t: Tally)
    requires t.next < |plan.records| && IsBoundary(plan.records, ResumeOffset(plan, t))
    ensures Offset(plan.records, FirstFrom(plan.records, ResumeOffset(plan, t), t.next + 1)) == ResumeOffset(plan, t)
  {
    hide ResumeOffset;
    var rs, o := plan.records, ResumeOffset(plan, t);
    ResumesLater(plan, t);
    var j :| 0 <= j <= |rs| && Offset(rs, j) == o;
    if j <= t.next {
      OffsetsGrow(rs, j, t.next);
    }
    FirstFromHits(rs, o, t.next + 1, j);
  }

  // ---- The bytes passed on ----

  ghost function SpanBytes(data: seq<byte>, spans: seq<Span>): seq<byte> {
    if spans == [] then []
    else
      var last := spans[|spans| - 1];
      SpanBytes(data, spans[..|spans| - 1]) + Slice(data, last.offset, SpanEnd(last))
  }

  ghost function Slice(data: seq<byte>, lo: nat, hi: nat): seq<byte> {
    if lo <= hi <= |data| then data[lo..hi] else []
  }

  /** The encodings of the chosen records, one after the other. */
  ghost function Gather(rs: seq<Record>, got: seq<nat>): seq<byte>
    requires AllPackable(rs) && Chosen(rs, got)
  {
    if got == [] then [] else Gather(rs, got[..|got| - 1]) + Encode(rs[got[|got| - 1]])
  }

  ghost predicate Chosen(rs: seq<Record>, got: seq<nat>) {
    forall i :: 0 <= i < |got| ==> got[i] < |rs|
  }

  ghost function BlocksIn(rs: seq<Record>, got: seq<nat>): nat
    requires Chosen(rs, got)
  {
    if got == [] then 0 else BlocksIn(rs, got[..|got| - 1]) + if rs[got[|got| - 1]].Block? then 1 else 0
  }

  lemma GatherSnoc(rs: seq<Record>, got: seq<nat>, k: nat)
    requires AllPackable(rs) && Chosen(rs, got) && k < |rs|
    ensures Chosen(rs, got + [k])
    ensures Gather(rs, got + [k]) == Gather(rs, got) + Encode(rs[k])
    ensures BlocksIn(rs, got + [k]) == BlocksIn(rs, got) + if rs[k].Block? then 1 else 0
  {
    assert (got + [k])[..|got + [k]| - 1] == got;
  }

  ghost function WalkBytes(data: seq<byte>, w: Walk): seq<byte> {
    SpanBytes(data, w.frame.spans) + Slice(data, w.spanStart, w.pos)
  }

  lemma SkipBytes(data: seq<byte>, w: Walk, next: nat)
    requires w.spanStart <= w.pos <= |data| && next <= |data|
    ensures WalkBytes(data, SkipTo(w, next)) == WalkBytes(data, w)
  {
    CloseBytes(data, w);
    assert Slice(data, next, next) == [];
  }

  lemma CloseBytes(data: seq<byte>, w: Walk)
    requires w.spanStart <= w.pos <= |data|
    ensures SpanBytes(data, CloseSpan(w.frame, w.spanStart, w.pos).spans) == WalkBytes(data, w)
  {
    ClosedBytes(data, w.frame, w.spanStart, w.pos);
  }

  lemma ClosedBytes(data: seq<byte>, frame: FrameState, start: nat, end: nat)
    requires start <= end
    ensures SpanBytes(data, CloseSpan(frame, start, end).spans)
         == SpanBytes(data, frame.spans) + Slice(data, start, end)
  {
    if end > start {
      SpanAdded(data, frame.spans, start, end);
    } else {
      SpanEmpty(data, frame.spans, end);
    }
  }

  lemma SpanAdded(data: seq<byte>, spans: seq<Span>, start: nat, end: nat)
    requires start <= end
    ensures SpanBytes(data, spans + [Span(start, end - start)]) == SpanBytes(data, spans) + Slice(data, start, end)
  {
    hide Slice;
    assert (spans + [Span(start, end - start)])[..|spans|] == spans;
  }

  lemma SpanEmpty(data: seq<byte>, spans: seq<Span>, p: nat)
    ensures SpanBytes(data, spans) + Slice(data, p, p) == SpanBytes(data, spans)
  {
    var bytes := SpanBytes(data, spans);
    assert Slice(data, p, p) == [];
    assert bytes + [] == bytes;
  }

  lemma TakeBytes(data: seq<byte>, w: Walk, end: nat)
    requires w.spanStart <= w.pos <= end <= |data|
    ensures WalkBytes(data, w.(pos := end)) == WalkBytes(data, w) + data[w.pos..end]
  {
    assert data[w.spanStart..end] == data[w.spanStart..w.pos] + data[w.pos..end];
  }

  // ---- The parser follows the tally ----

  ghost predicate Follows(input: Input, plan: Plan, t: Tally, w: Walk)
    requires AllPackable(plan.records)
  {
    && PlaceFollows(input, plan, t, w)
    && FlagsFollow(plan, t, w)
    && HeaderFollows(plan, t, w)
  }

  ghost predicate PlaceFollows(input: Input, plan: Plan, t: Tally, w: Walk)
    requires AllPackable(plan.records)
  {
    && t.next <= |plan.records| && w.pos == Offset(plan.records, t.next) && w.spanStart <= w.pos <= |input.data|
    && Chosen(plan.records, t.got) && WalkBytes(input.data, w) == Gather(plan.records, t.got)
  }

  ghost predicate FlagsFollow(plan: Plan, t: Tally, w: Walk) {
    && w.frame.partial == t.partial && w.frame.coarseLevelIntact == t.intact
    && w.aligned == t.aligned && w.pastCoarse == t.pastCoarse
    && Chosen(plan.records, t.got) && w.frame.blockRecords == BlocksIn(plan.records, t.got) % WORD
  }

  ghost predicate HeaderFollows(plan: Plan, t: Tally, w: Walk) {
    if t.next == 0 then !w.frame.sequenceHeaderSeen
    else
      && plan.records != [] && plan.records[0].Header? && w.frame.sequenceHeaderSeen
      && w.sequence == plan.records[0].sequence && w.frame.announcedBlocks == plan.records[0].totalBlocks
  }

  lemma SizesAgree(input: Input, plan: Plan)
    requires Setting(input, plan)
    ensures |input.data| == Total(plan.records) && AllPackable(plan.records)
    ensures plan.records != [] && plan.records[0].Header?
  {
  }

  lemma HeaderFits(input: Input, plan: Plan, k: nat)
    requires Setting(input, plan) && k < |plan.records|
    ensures Offset(plan.records, k) + HEADER_BYTES <= Offset(plan.records, k + 1) <= |input.data|
    ensures Offset(plan.records, k + 1) == Offset(plan.records, k) + Length(plan.records[k])
  {
    hide HeaderLost, Setting, AllPackable;
    SizesAgree(input, plan);
    OffsetsGrow(plan.records, k + 1, |plan.records|);
  }

  lemma ReceivedData(input: Input, plan: Plan)
    requires Setting(input, plan)
    ensures AllPackable(plan.records) && Received(Serialise(plan.records), plan.segments, input.data)
  {
  }

  /** A received header reads as packed. */
  lemma WordsAgree(input: Input, plan: Plan, k: nat)
    requires Setting(input, plan) && k < |plan.records| && !HeaderLost(plan, k)
    ensures Offset(plan.records, k) + HEADER_BYTES <= |input.data| && Packable(plan.records[k])
    ensures ReadU32(input.data, Offset(plan.records, k)) == Word0(plan.records[k])
    ensures ReadU32(input.data, Offset(plan.records, k) + 4) == Word1(plan.records[k])
  {
    hide FrameSent, Received, Serialise, Word0, Word1, Packable, RangeLost, Offset, ReadU32, Setting;
    SizesAgree(input, plan);
    ReceivedData(input, plan);
    HeaderRead(plan.records, plan.segments, input.data, k);
  }

  /** What the parser does at a record boundary. */
  lemma StepLost(input: Input, plan: Plan, t: Tally, w: Walk)
    requires Setting(input, plan) && t.next < |plan.records| && w.pos == Offset(plan.records, t.next)
             && w.aligned == t.aligned
    requires HeaderLost(plan, t.next)
    ensures w.pos < |input.data|
    ensures Step(input, w) == Next(SkipTo(NoteLoss(w, input.coarseKnown), ResumeOffset(plan, t)))
  {
    hide RangeLost, FrameSent, Received;
    HeaderFits(input, plan, t.next);
    SizesAgree(input, plan);
  }

  lemma StepPadding(input: Input, plan: Plan, k: nat, w: Walk)
    requires Setting(input, plan) && k < |plan.records| && w.pos == Offset(plan.records, k)
    requires !HeaderLost(plan, k) && plan.records[k].Padding?
    ensures w.pos < |input.data| && Step(input, w).Next?
    ensures exists total: u32 ::
              Step(input, w) ==
              Next(SkipTo(w.(frame := w.frame.(paddingBytes := total)), Offset(plan.records, k + 1)))
  {
    hide RangeLost, FrameSent, Received, Word0, Word1, Length;
    HeaderFits(input, plan, k);
    WordsAgree(input, plan, k);
    PaddingFields(plan.records[k]);
    var total := (w.frame.paddingBytes as int + Length(plan.records[k])) % WORD;
    assert Step(input, w) == Next(SkipTo(w.(frame := w.frame.(paddingBytes := total)), Offset(plan.records, k + 1)));
  }

  lemma StepHeader(input: Input, plan: Plan, w: Walk)
    requires Setting(input, plan) && w.pos == 0 && !w.frame.sequenceHeaderSeen
    ensures w.pos < |input.data|
    ensures plan.records != [] && plan.records[0].Header? && 0 <= plan.records[0].totalBlocks < WORD
    ensures Step(input, w) ==
            Next(w.(frame := w.frame.(sequenceHeaderSeen := true, announcedBlocks := plan.records[0].totalBlocks),
                    sequence := plan.records[0].sequence, pos := HEADER_BYTES))
    ensures Offset(plan.records, 1) == HEADER_BYTES
  {
    hide RangeLost, Received, Word0, Word1, WidthField, HeightField, SequenceField, TotalField, CodeField, ChromaField;
    HeaderFits(input, plan, 0);
    WordsAgree(input, plan, 0);
    HeaderFields(plan.records[0]);
    assert Offset(plan.records, 1) == Offset(plan.records, 0) + Length(plan.records[0]);
  }

  lemma StepBlock(input: Input, plan: Plan, k: nat, w: Walk)
    requires Setting(input, plan) && k < |plan.records| && w.pos == Offset(plan.records, k)
    requires !HeaderLost(plan, k) && plan.records[k].Block?
    requires w.frame.sequenceHeaderSeen && w.sequence == plan.records[0].sequence
    ensures w.pos < |input.data|
    ensures var r, end := plan.records[k], Offset(plan.records, k + 1);
            var passed := w.(pastCoarse := w.pastCoarse || r.index >= plan.coarseBlocks);
            Step(input, w) == if RecordLost(plan, k) then
                Next(SkipTo(NoteLoss(passed, plan.coarseKnown).(aligned := false), end))
              else
                Next(passed.(aligned := AlignsAfter(plan, k, r.index), frame := WithBlock(w.frame), pos := end))
  {
    hide RangeLost, Received, Word0, Word1, SequenceField, IndexField, PayloadWordsField, Length, InOnePacket, AnyLost;
    HeaderFits(input, plan, k);
    WordsAgree(input, plan, k);
    BlockFields(plan.records[k]);
    assert BodyRecord(plan.records[k], plan.records[0].sequence, input.maxBlocks);
  }

  /** A record taken whole adds its encoding. */
  lemma TakeRecord(input: Input, plan: Plan, t: Tally, w: Walk)
    requires Setting(input, plan) && PlaceFollows(input, plan, t, w) && t.next < |plan.records|
             && !RecordLost(plan, t.next)
    ensures var end := Offset(plan.records, t.next + 1);
            PlaceFollows(input, plan, t.(next := t.next + 1, got := t.got + [t.next]), w.(pos := end))
  {
    hide RangeLost, FrameSent, Received, Encode, Serialise, WalkBytes, Gather;
    SizesAgree(input, plan);
    ReceivedData(input, plan);
    var k, rs, sent := t.next, plan.records, Serialise(plan.records);
    HeaderFits(input, plan, k);
    RecordBytes(rs, k);
    ReceivedSlice(sent, plan.segments, input.data, Offset(rs, k), Offset(rs, k + 1));
    TakeBytes(input.data, w, Offset(rs, k + 1));
    GatherSnoc(rs, t.got, k);
  }

  lemma SkipRecords(input: Input, plan: Plan, t: Tally, w: Walk, next: nat)
    requires AllPackable(plan.records) && PlaceFollows(input, plan, t, w) && t.next < next <= |plan.records|
    requires |input.data| == Total(plan.records)
    ensures PlaceFollows(input, plan, t.(next := next), SkipTo(w, Offset(plan.records, next)))
  {
    hide WalkBytes, Gather;
    OffsetsGrow(plan.records, next, |plan.records|);
    SkipBytes(input.data, w, Offset(plan.records, next));
  }

  lemma PlaceDependsOn(input: Input, plan: Plan, t: Tally, t': Tally, w: Walk, w': Walk)
    requires AllPackable(plan.records)
    requires t.next == t'.next && t.got == t'.got
    requires w.pos == w'.pos && w.spanStart == w'.spanStart && w.frame.spans == w'.frame.spans
    ensures PlaceFollows(input, plan, t, w) == PlaceFollows(input, plan, t', w')
  {
    assert WalkBytes(input.data, w) == WalkBytes(input.data, w');
  }

  /** Past record 0 only the flags and the counts can change. */
  lemma HeaderStays(plan: Plan, t: Tally, w: Walk, t': Tally, w': Walk)
    requires HeaderFollows(plan, t, w) && t.next > 0 && t'.next > 0
    requires w'.sequence == w.sequence && w'.frame.sequenceHeaderSeen == w.frame.sequenceHeaderSeen
    requires w'.frame.announcedBlocks == w.frame.announcedBlocks
    ensures HeaderFollows(plan, t', w')
  {
  }

  /** A loss is noted alike on both sides, and moves nothing. */
  lemma LossFlags(plan: Plan, t: Tally, w: Walk, next: nat, o: nat)
    requires FlagsFollow(plan, t, w)
    ensures FlagsFollow(plan, LossTallied(plan, t).(next := next), SkipTo(NoteLoss(w, plan.coarseKnown), o))
    ensures SkipTo(NoteLoss(w, plan.coarseKnown), o).frame.spans == SkipTo(w, o).frame.spans
    ensures SkipTo(NoteLoss(w, plan.coarseKnown), o).frame.sequenceHeaderSeen == w.frame.sequenceHeaderSeen
    ensures SkipTo(NoteLoss(w, plan.coarseKnown), o).frame.announcedBlocks == w.frame.announcedBlocks
  {
    hide Chosen, BlocksIn;
  }

  lemma LostFollows(input: Input, plan: Plan, t: Tally, w: Walk)
    requires Setting(input, plan) && Follows(input, plan, t, w) && t.next < |plan.records| && HeaderLost(plan, t.next)
    requires IsBoundary(plan.records, ResumeOffset(plan, t))
    ensures w.pos < |input.data| && Step(input, w).Next? && Follows(input, plan, Pass(plan, t), Step(input, w).walk)
  {
    hide Step, HeaderLost, RecordLost, FrameSent, Received, PlaceFollows, FlagsFollow, HeaderFollows, ResumeOffset,
         FirstFrom, Offset, CloseSpan, IsBoundary;
    SizesAgree(input, plan);
    PlaceBasics(input, plan, t, w);
    FlagAgrees(plan, t, w);
    StepLost(input, plan, t, w);
    ResumeIndexRight(plan, t);
    var t', o := Pass(plan, t), ResumeOffset(plan, t);
    var w' := SkipTo(NoteLoss(w, plan.coarseKnown), o);
    SkipRecords(input, plan, t, w, t'.next);
    LossFlags(plan, t, w, t'.next, o);
    PlaceDependsOn(input, plan, t.(next := t'.next), t', SkipTo(w, o), w');
    HeaderStays(plan, t, w, t', w');
  }

  lemma FlagAgrees(plan: Plan, t: Tally, w: Walk)
    requires FlagsFollow(plan, t, w)
    ensures w.aligned == t.aligned
  {
  }

  lemma PaddingFollows(input: Input, plan: Plan, t: Tally, w: Walk)
    requires Setting(input, plan) && Follows(input, plan, t, w) && t.next < |plan.records| && !HeaderLost(plan, t.next)
    requires plan.records[t.next].Padding?
    ensures w.pos < |input.data| && Step(input, w).Next? && Follows(input, plan, Pass(plan, t), Step(input, w).walk)
  {
    hide Step, HeaderLost, RecordLost, Received, FrameSent, PlaceFollows, BlocksIn, Chosen;
    SizesAgree(input, plan);
    PlaceBasics(input, plan, t, w);
    StepPadding(input, plan, t.next, w);
    SkipRecords(input, plan, t, w, t.next + 1);
    PlaceDependsOn(input, plan, t.(next := t.next + 1), Pass(plan, t),
                   SkipTo(w, Offset(plan.records, t.next + 1)), Step(input, w).walk);
  }

  lemma PlaceBasics(input: Input, plan: Plan, t: Tally, w: Walk)
    requires AllPackable(plan.records) && PlaceFollows(input, plan, t, w)
    ensures t.next <= |plan.records| && w.pos == Offset(plan.records, t.next) && Chosen(plan.records, t.got)
  {
  }

  lemma HeaderTaken(input: Input, plan: Plan, t: Tally, w: Walk)
    requires Setting(input, plan) && Follows(input, plan, t, w) && t.next == 0
    ensures w.pos < |input.data| && Step(input, w).Next? && Follows(input, plan, Pass(plan, t), Step(input, w).walk)
  {
    hide Step, HeaderLost, RecordLost, Received, FrameSent, PlaceFollows, BlocksIn, Chosen;
    SizesAgree(input, plan);
    PlaceBasics(input, plan, t, w);
    StepHeader(input, plan, w);
    HeaderWhole(plan);
    TakeRecord(input, plan, t, w);
    GatherSnoc(plan.records, t.got, 0);
    PlaceDependsOn(input, plan, t.(next := 1, got := t.got + [0]), Pass(plan, t), w.(pos := HEADER_BYTES),
                   Step(input, w).walk);
  }

  lemma HeaderWhole(plan: Plan)
    requires plan.records != [] && plan.records[0].Header?
    ensures Offset(plan.records, 0) == 0 && Offset(plan.records, 1) == HEADER_BYTES
    ensures RecordLost(plan, 0) == HeaderLost(plan, 0)
  {
    assert Offset(plan.records, 1) == Offset(plan.records, 0) + Length(plan.records[0]);
  }

  /** Passing a block takes note of its index and, when it came whole, counts it. */
  lemma BlockFlags(plan: Plan, t: Tally, w: Walk, index: nat, end: nat)
    requires FlagsFollow(plan, t, w) && t.next < |plan.records| && plan.records[t.next].Block?
             && AllPackable(plan.records)
    ensures !RecordLost(plan, t.next) ==>
              FlagsFollow(plan, PassBlock(plan, t, index),
                          w.(pastCoarse := w.pastCoarse || index >= plan.coarseBlocks,
                             aligned := AlignsAfter(plan, t.next, index), frame := WithBlock(w.frame), pos := end))
  {
    hide BlocksIn, RecordLost, AlignsAfter, AllPackable;
    GatherSnoc(plan.records, t.got, t.next);
    ModNext(BlocksIn(plan.records, t.got));
  }

  lemma LostBlockFollows(input: Input, plan: Plan, t: Tally, w: Walk, index: nat)
    requires Setting(input, plan) && Follows(input, plan, t, w) && 0 < t.next < |plan.records|
             && RecordLost(plan, t.next)
    ensures var passed := w.(pastCoarse := w.pastCoarse || index >= plan.coarseBlocks);
            Follows(input, plan, PassBlock(plan, t, index),
                    SkipTo(NoteLoss(passed, plan.coarseKnown).(aligned := false), Offset(plan.records, t.next + 1)))
  {
    hide RecordLost, Setting, PlaceFollows, HeaderFollows, Offset, BlocksIn, Chosen;
    SizesAgree(input, plan);
    var passed, end := w.(pastCoarse := w.pastCoarse || index >= plan.coarseBlocks), Offset(plan.records, t.next + 1);
    var t', w' := PassBlock(plan, t, index), SkipTo(NoteLoss(passed, plan.coarseKnown).(aligned := false), end);
    SkipRecords(input, plan, t, w, t.next + 1);
    PlaceDependsOn(input, plan, t.(next := t.next + 1), t', SkipTo(w, end), w');
    HeaderStays(plan, t, w, t', w');
  }

  lemma WholeBlockFollows(input: Input, plan: Plan, t: Tally, w: Walk, index: nat)
    requires Setting(input, plan) && Follows(input, plan, t, w) && 0 < t.next < |plan.records|
             && !RecordLost(plan, t.next)
    requires plan.records[t.next].Block?
    ensures Follows(input, plan, PassBlock(plan, t, index),
                    w.(pastCoarse := w.pastCoarse || index >= plan.coarseBlocks,
                       aligned := AlignsAfter(plan, t.next, index), frame := WithBlock(w.frame),
                       pos := Offset(plan.records, t.next + 1)))
  {
    hide RecordLost, Setting, PlaceFollows, FlagsFollow, HeaderFollows, Offset, AlignsAfter;
    SizesAgree(input, plan);
    var end := Offset(plan.records, t.next + 1);
    var t', w' := PassBlock(plan, t, index),
                  w.(pastCoarse := w.pastCoarse || index >= plan.coarseBlocks,
                     aligned := AlignsAfter(plan, t.next, index), frame := WithBlock(w.frame), pos := end);
    TakeRecord(input, plan, t, w);
    BlockFlags(plan, t, w, index, end);
    PlaceDependsOn(input, plan, t.(next := t.next + 1, got := t.got + [t.next]), t', w.(pos := end), w');
    HeaderStays(plan, t, w, t', w');
  }

  lemma BlockFollows(input: Input, plan: Plan, t: Tally, w: Walk)
    requires Setting(input, plan) && Follows(input, plan, t, w) && 0 < t.next < |plan.records|
             && !HeaderLost(plan, t.next)
    requires plan.records[t.next].Block?
    ensures w.pos < |input.data| && Step(input, w).Next? && Follows(input, plan, Pass(plan, t), Step(input, w).walk)
  {
    hide Step, HeaderLost, RecordLost, Setting, Follows, PassBlock, AlignsAfter, Offset, SkipTo, NoteLoss, WithBlock;
    SizesAgree(input, plan);
    var index := plan.records[t.next].index;
    FollowsBasics(input, plan, t, w);
    StepBlock(input, plan, t.next, w);
    assert Pass(plan, t) == PassBlock(plan, t, index);
    if RecordLost(plan, t.next) {
      LostBlockFollows(input, plan, t, w, index);
    } else {
      WholeBlockFollows(input, plan, t, w, index);
    }
  }

  lemma FollowsBasics(input: Input, plan: Plan, t: Tally, w: Walk)
    requires AllPackable(plan.records) && Follows(input, plan, t, w) && t.next > 0
    ensures t.next <= |plan.records| && w.pos == Offset(plan.records, t.next)
    ensures w.frame.sequenceHeaderSeen && plan.records[0].Header? && w.sequence == plan.records[0].sequence
  {
    hide WalkBytes, Gather, BlocksIn;
  }

  /** One step of the parser is one step of the tally. */
  lemma StepFollows(input: Input, plan: Plan, t: Tally, w: Walk)
    requires Setting(input, plan) && Follows(input, plan, t, w) && t.next < |plan.records| && TrueStep(plan, t)
    ensures w.pos < |input.data| && Step(input, w).Next? && Follows(input, plan, Pass(plan, t), Step(input, w).walk)
  {
    hide Step, Follows, HeaderLost, Received, Pass, IsBoundary;
    if t.next == 0 {
      HeaderTaken(input, plan, t, w);
    } else if HeaderLost(plan, t.next) {
      LostFollows(input, plan, t, w);
    } else if plan.records[t.next].Padding? {
      PaddingFollows(input, plan, t, w);
    } else {
      assert BodyRecord(plan.records[t.next], plan.records[0].sequence, input.maxBlocks);
      BlockFollows(input, plan, t, w);
    }
  }

  /** The whole run: it never fails, and ends with what the tally says. */
  lemma {:induction false} RunFollows(input: Input, plan: Plan, t: Tally, w: Walk)
    requires Setting(input, plan) && Follows(input, plan, t, w) && t.next <= |plan.records|
    requires TrueRun(plan, t)
    ensures w.pos <= |input.data|
    ensures Run(input, w).error.None? && FrameFollows(input, plan, PassAll(plan, t), Run(input, w).frame)
    decreases |plan.records| - t.next
  {
    hide Step, HeaderLost, Received, FrameSent, Pass, TrueStep;
    SizesAgree(input, plan);
    if t.next == |plan.records| {
      AllFollowed(input, plan, t, w);
    } else {
      StepFollows(input, plan, t, w);
      RunFollows(input, plan, Pass(plan, t), Step(input, w).walk);
    }
  }

  /** What the finished frame holds, for a finished tally. */
  ghost predicate FrameFollows(input: Input, plan: Plan, t: Tally, frame: FrameState) {
    && AllPackable(plan.records) && Chosen(plan.records, t.got)
    && SpanBytes(input.data, frame.spans) == Gather(plan.records, t.got)
    && frame.partial == t.partial && frame.coarseLevelIntact == t.intact
    && frame.blockRecords == BlocksIn(plan.records, t.got) % WORD
    && frame.sequenceHeaderSeen && plan.records != [] && plan.records[0].Header?
    && frame.announcedBlocks == plan.records[0].totalBlocks
  }

  lemma AllFollowed(input: Input, plan: Plan, t: Tally, w: Walk)
    requires AllPackable(plan.records) && Follows(input, plan, t, w) && t.next == |plan.records| > 0
    requires |input.data| == Total(plan.records)
    ensures w.pos == |input.data| && Run(input, w).error.None? && FrameFollows(input, plan, t, Run(input, w).frame)
  {
    hide Step, Gather, SpanBytes;
    CloseBytes(input.data, w);
  }
}
