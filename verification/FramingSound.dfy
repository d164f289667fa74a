/** What every successful parse guarantees, whatever the bytes and the packet map:
    the spans are whole, received, well-placed runs of records that pass every check. */
module FramingSound {
  import opened Words
  import opened Geometry
  import opened PacketMap
  import opened FramingSpec

  /** The length a record's own header claims. */
  function RecordSize(data: seq<byte>, p: nat): nat
    requires p + HEADER_BYTES <= |data|
  {
    if Extended(ReadU32(data, p)) then HEADER_BYTES else PayloadWordsField(ReadU32(data, p)) * 4
  }

  ghost predicate RecordAt(data: seq<byte>, p: nat, end: nat) {
    p + HEADER_BYTES <= end <= |data| && HEADER_BYTES <= RecordSize(data, p) <= end - p
  }

  /** [lo, hi) splits exactly into records, each as long as its header says. */
  ghost predicate Whole(data: seq<byte>, lo: nat, hi: nat)
    decreases hi - lo
  {
    lo == hi || (RecordAt(data, lo, hi) && Whole(data, lo + RecordSize(data, lo), hi))
  }

  /** The record starts of [lo, hi), in order. */
  ghost function Starts(data: seq<byte>, lo: nat, hi: nat): seq<nat>
    decreases hi - lo
  {
    if lo < hi && RecordAt(data, lo, hi) then [lo] + Starts(data, lo + RecordSize(data, lo), hi) else []
  }

  ghost function SpanStarts(data: seq<byte>, spans: seq<Span>): seq<nat> {
    if spans == [] then []
    else
      var last := spans[|spans| - 1];
      SpanStarts(data, spans[..|spans| - 1]) + Starts(data, last.offset, last.offset + last.size)
  }

  function SpanEnd(span: Span): nat {
    span.offset + span.size
  }

  /** A sequence header the stream's geometry allows. */
  ghost predicate AcceptedHeader(data: seq<byte>, p: nat, g: StreamGeometry, maxBlocks: nat) {
    && p + HEADER_BYTES <= |data|
    && Extended(ReadU32(data, p)) && ReadU32(data, p) != PADDING_MAGIC
    && HeaderError(ReadU32(data, p), ReadU32(data, p + 4), g, maxBlocks) == None
  }

  /** A block record at least as long as its header, with an index the frame can hold. */
  ghost predicate AcceptedBlock(data: seq<byte>, p: nat, maxBlocks: nat) {
    && p + HEADER_BYTES <= |data|
    && !Extended(ReadU32(data, p)) && PayloadWordsField(ReadU32(data, p)) >= HEADER_WORDS
    && IndexField(ReadU32(data, p + 4)) < maxBlocks
  }

  /** The spans are non-empty, inside the frame, in order, and separated by gaps. */
  ghost predicate WellPlaced(spans: seq<Span>, size: nat) {
    && (forall i :: 0 <= i < |spans| ==> spans[i].size > 0 && SpanEnd(spans[i]) <= size)
    && (forall i, j :: 0 <= i < j < |spans| ==> SpanEnd(spans[i]) < spans[j].offset)
  }

  ghost predicate SpansWhole(data: seq<byte>, spans: seq<Span>) {
    forall i :: 0 <= i < |spans| ==> Whole(data, spans[i].offset, SpanEnd(spans[i]))
  }

  ghost predicate SpansReceived(segments: seq<Segment>, spans: seq<Span>) {
    forall i :: 0 <= i < |spans| ==> !RangeLost(segments, spans[i].offset, SpanEnd(spans[i]))
  }

  /** The delivered records are one sequence header and then block records of its sequence. */
  ghost predicate OneFrame(data: seq<byte>, starts: seq<nat>, g: StreamGeometry, maxBlocks: nat, frame: FrameState) {
    && starts != []
    && AcceptedHeader(data, starts[0], g, maxBlocks)
    && frame.announcedBlocks == TotalField(ReadU32(data, starts[0] + 4))
    && (forall k :: 0 < k < |starts| ==> OwnBlock(data, starts[0], starts[k], maxBlocks))
    && frame.blockRecords == (|starts| - 1) % WORD
  }

  ghost predicate OwnBlock(data: seq<byte>, header: nat, p: nat, maxBlocks: nat) {
    && AcceptedBlock(data, p, maxBlocks)
    && header + HEADER_BYTES <= |data|
    && SequenceField(ReadU32(data, p)) == SequenceField(ReadU32(data, header))
  }

  // ---- Splitting ----

  /** A record after a whole run makes a longer whole run, with one start more. */
  lemma {:induction false} SplitSnoc(data: seq<byte>, lo: nat, mid: nat, hi: nat)
    requires Whole(data, lo, mid) && lo <= mid < hi && RecordAt(data, mid, hi) && RecordSize(data, mid) == hi - mid
    ensures Whole(data, lo, hi) && Starts(data, lo, hi) == Starts(data, lo, mid) + [mid]
    decreases mid - lo
  {
    if lo == mid {
      assert Whole(data, hi, hi) && Starts(data, hi, hi) == [];
    } else {
      SplitSnoc(data, lo + RecordSize(data, lo), mid, hi);
    }
  }

  lemma SpanStartsSnoc(data: seq<byte>, spans: seq<Span>, span: Span)
    ensures SpanStarts(data, spans + [span]) == SpanStarts(data, spans) + Starts(data, span.offset, SpanEnd(span))
  {
    assert (spans + [span])[..|spans + [span]| - 1] == spans;
  }

  lemma SpanAdded(data: seq<byte>, spans: seq<Span>, start: nat, end: nat)
    requires WellPlaced(spans, |data|) && SpansWhole(data, spans)
    requires start < end <= |data| && Whole(data, start, end)
    requires forall i :: 0 <= i < |spans| ==> SpanEnd(spans[i]) < start
    ensures WellPlaced(spans + [Span(start, end - start)], |data|)
    ensures SpansWhole(data, spans + [Span(start, end - start)])
    ensures SpanStarts(data, spans + [Span(start, end - start)]) == SpanStarts(data, spans) + Starts(data, start, end)
  {
    hide Whole, Starts, SpanStarts;
    SpanStartsSnoc(data, spans, Span(start, end - start));
  }

  // ---- The invariant of the walk ----

  /** Starts of every record passed on so far, the open span included. */
  ghost function Taken(data: seq<byte>, w: Walk): seq<nat> {
    SpanStarts(data, w.frame.spans) + Starts(data, w.spanStart, w.pos)
  }

  ghost predicate PlacedInv(input: Input, w: Walk) {
    && w.spanStart <= w.pos <= |input.data|
    && WellPlaced(w.frame.spans, |input.data|)
    && (forall i :: 0 <= i < |w.frame.spans| ==> SpanEnd(w.frame.spans[i]) < w.spanStart)
    && SpansWhole(input.data, w.frame.spans) && Whole(input.data, w.spanStart, w.pos)
    && SpansReceived(input.segments, w.frame.spans) && !RangeLost(input.segments, w.spanStart, w.pos)
  }

  ghost predicate FrameInv(input: Input, w: Walk) {
    TakenRight(input, Taken(input.data, w), w.sequence, w.frame)
  }

  ghost predicate TakenRight(input: Input, taken: seq<nat>, sequence: nat, frame: FrameState) {
    if frame.sequenceHeaderSeen then
      OneFrame(input.data, taken, input.geometry, input.maxBlocks, frame)
      && sequence == SequenceField(ReadU32(input.data, taken[0]))
    else taken == [] && frame.blockRecords == 0
  }

  /** Closing a span keeps what was taken, and keeps the spans well placed. */
  lemma SkipKeeps(input: Input, w: Walk, next: nat)
    requires PlacedInv(input, w) && w.pos < next <= |input.data|
    ensures PlacedInv(input, SkipTo(w, next)) && Taken(input.data, SkipTo(w, next)) == Taken(input.data, w)
  {
    hide Whole, RangeLost, SpanStarts, SpansWhole, WellPlaced;
    NothingTaken(input.data, next);
    NothingTaken(input.data, w.pos);
    NothingLost(input.segments, next);
    if w.pos > w.spanStart {
      SpanAdded(input.data, w.frame.spans, w.spanStart, w.pos);
    }
  }

  lemma NothingTaken(data: seq<byte>, p: nat)
    ensures Whole(data, p, p) && Starts(data, p, p) == []
  {
  }

  lemma NothingLost(segments: seq<Segment>, p: nat)
    ensures !RangeLost(segments, p, p)
  {
  }

  lemma TakeKeeps(input: Input, w: Walk, end: nat)
    requires PlacedInv(input, w) && w.pos < end
    requires RecordAt(input.data, w.pos, end) && RecordSize(input.data, w.pos) == end - w.pos
    requires !RangeLost(input.segments, w.pos, end)
    ensures PlacedInv(input, w.(pos := end)) && Taken(input.data, w.(pos := end)) == Taken(input.data, w) + [w.pos]
  {
    SplitSnoc(input.data, w.spanStart, w.pos, end);
    forall b | w.spanStart <= b < end ensures !ByteLost(input.segments, b) {
      if b < w.pos {
        assert !RangeLost(input.segments, w.spanStart, w.pos);
      } else {
        assert !RangeLost(input.segments, w.pos, end);
      }
    }
  }

  lemma StepKeepsPlaced(input: Input, w: Walk)
    requires PlacedInv(input, w) && w.pos < |input.data| && Step(input, w).Next?
    ensures PlacedInv(input, Step(input, w).walk)
    ensures Taken(input.data, Step(input, w).walk) == Taken(input.data, w)
         || Taken(input.data, Step(input, w).walk) == Taken(input.data, w) + [w.pos]
  {
    hide PlacedInv, RangeLost, Taken, LaterPacketsAligned, Resume, ReadU32, HeaderError, SequenceField,
         PayloadWordsField, IndexField, TotalField;
    var next := Step(input, w).walk;
    PlacedBounds(input, w);
    if next.spanStart == next.pos {
      SkipKeeps(input, w, next.pos);
      PlacedDependsOn(input, SkipTo(w, next.pos), next);
    } else {
      TakeKeeps(input, w, next.pos);
      PlacedDependsOn(input, w.(pos := next.pos), next);
    }
  }

  lemma PlacedBounds(input: Input, w: Walk)
    requires PlacedInv(input, w)
    ensures w.spanStart <= w.pos
  {
  }

  lemma PlacedDependsOn(input: Input, v: Walk, w: Walk)
    requires v.pos == w.pos && v.spanStart == w.spanStart && v.frame.spans == w.frame.spans
    ensures PlacedInv(input, v) == PlacedInv(input, w) && Taken(input.data, v) == Taken(input.data, w)
  {
  }

  lemma StepKeepsFrame(input: Input, w: Walk)
    requires PlacedInv(input, w) && FrameInv(input, w) && w.pos < |input.data| && Step(input, w).Next?
    ensures FrameInv(input, Step(input, w).walk)
  {
    hide PlacedInv, RangeLost, Taken, LaterPacketsAligned, Resume, HeaderError, SequenceField, PayloadWordsField,
         TakenRight, ReadU32, IndexField, TotalField;
    var next := Step(input, w).walk;
    PlacedBounds(input, w);
    var taken := Taken(input.data, w);
    if next.spanStart == next.pos {
      SkipKeeps(input, w, next.pos);
      PlacedDependsOn(input, SkipTo(w, next.pos), next);
      CountsDecide(input, taken, w.sequence, w.frame, next.frame);
    } else {
      TakeKeeps(input, w, next.pos);
      PlacedDependsOn(input, w.(pos := next.pos), next);
      if Extended(ReadU32(input.data, w.pos)) {
        HeaderTaken(input, taken, w);
      } else {
        BlockTaken(input, taken, w.pos, w.sequence, w.frame);
      }
    }
  }

  lemma CountsDecide(input: Input, taken: seq<nat>, sequence: nat, f: FrameState, f': FrameState)
    requires f'.sequenceHeaderSeen == f.sequenceHeaderSeen && f'.announcedBlocks == f.announcedBlocks
    requires f'.blockRecords == f.blockRecords
    ensures TakenRight(input, taken, sequence, f) == TakenRight(input, taken, sequence, f')
  {
  }

  lemma HeaderTaken(input: Input, taken: seq<nat>, w: Walk)
    requires TakenRight(input, taken, w.sequence, w.frame) && !w.frame.sequenceHeaderSeen
    requires AcceptedHeader(input.data, w.pos, input.geometry, input.maxBlocks)
    ensures TakenRight(input, taken + [w.pos], SequenceField(ReadU32(input.data, w.pos)),
                       WithHeader(w.frame, ReadU32(input.data, w.pos + 4)))
  {
    hide AcceptedHeader;
  }

  lemma BlockTaken(input: Input, taken: seq<nat>, p: nat, sequence: nat, frame: FrameState)
    requires TakenRight(input, taken, sequence, frame) && frame.sequenceHeaderSeen
    requires AcceptedBlock(input.data, p, input.maxBlocks) && SequenceField(ReadU32(input.data, p)) == sequence
    ensures TakenRight(input, taken + [p], sequence, WithBlock(frame))
  {
    hide AcceptedBlock;
    assert (taken + [p])[0] == taken[0];
    assert OwnBlock(input.data, taken[0], p, input.maxBlocks);
    ModNext(|taken| - 1);
  }

  lemma ModNext(n: nat)
    ensures (n % WORD + 1) % WORD == (n + 1) % WORD
  {
  }

  lemma {:induction false} RunKeeps(input: Input, w: Walk)
    requires PlacedInv(input, w) && FrameInv(input, w)
    ensures var frame := Run(input, w).frame;
            Run(input, w).error.None? && frame.sequenceHeaderSeen ==>
              && WellPlaced(frame.spans, |input.data|)
              && SpansWhole(input.data, frame.spans) && SpansReceived(input.segments, frame.spans)
              && OneFrame(input.data, SpanStarts(input.data, frame.spans), input.geometry, input.maxBlocks, frame)
    decreases |input.data| - w.pos
  {
    if w.pos == |input.data| {
      CloseKeeps(input, w);
    } else if Step(input, w).Next? {
      StepKeepsPlaced(input, w);
      StepKeepsFrame(input, w);
      RunKeeps(input, Step(input, w).walk);
    }
  }

  lemma CloseKeeps(input: Input, w: Walk)
    requires PlacedInv(input, w)
    ensures var spans := CloseSpan(w.frame, w.spanStart, w.pos).spans;
            && WellPlaced(spans, |input.data|)
            && SpansWhole(input.data, spans) && SpansReceived(input.segments, spans)
            && SpanStarts(input.data, spans) == Taken(input.data, w)
  {
    hide Whole, RangeLost, SpanStarts, SpansWhole, WellPlaced;
    NothingTaken(input.data, w.pos);
    if w.pos > w.spanStart {
      SpanAdded(input.data, w.frame.spans, w.spanStart, w.pos);
    }
  }

  /** Record framing, arbitrary bytes, any map parse accepts: success means non-empty, ordered
      spans with gaps between them and no lost byte in them, which split exactly into one
      leading sequence header and blockRecords block records of its sequence. */
  lemma RecordFrameSound(data: seq<byte>, segments: seq<Segment>, criticalPackets: nat, g: StreamGeometry)
    requires ParseResult(data, segments, criticalPackets, g).error.None?
    requires ParseResult(data, segments, criticalPackets, g).frame.framing.Records?
    ensures var frame := ParseResult(data, segments, criticalPackets, g).frame;
            && WellPlaced(frame.spans, |data|)
            && SpansWhole(data, frame.spans) && SpansReceived(segments, frame.spans)
            && OneFrame(data, SpanStarts(data, frame.spans), g, MaxBlockCount(g), frame)
  {
    hide MaxBlockCount, CoarseBlockCount, Run, PacketsRun, Tiles, RangeLost, LeadingIntact;
    if Extended(ReadU32(data, 0)) {
      var input, w := InputOf(data, segments, criticalPackets, g), StartOf(segments, criticalPackets);
      StartPlaced(input, w);
      RunKeeps(input, w);
    } else {
      LengthPrefixedKind(data, AnyLost(segments), g);
    }
  }

  lemma StartPlaced(input: Input, w: Walk)
    requires w.pos == w.spanStart == 0 && w.frame.spans == [] && !w.frame.sequenceHeaderSeen
             && w.frame.blockRecords == 0
    ensures PlacedInv(input, w) && FrameInv(input, w)
  {
    hide Whole, Starts, RangeLost, OneFrame;
    NothingTaken(input.data, 0);
    NothingLost(input.segments, 0);
  }

  // ---- Length-prefixed framing ----

  /** Walking length-prefixed packets never touches these. */
  ghost predicate SameKind(a: FrameState, b: FrameState) {
    a.framing == b.framing && a.partial == b.partial && a.coarseLevelIntact == b.coarseLevelIntact
  }

  lemma {:induction false} PacketRunKind(data: seq<byte>, base: nat, pos: nat, end: nat, g: StreamGeometry,
                                         maxBlocks: nat, frame: FrameState)
    requires base <= pos <= end <= |data|
    ensures SameKind(PacketRun(data, base, pos, end, g, maxBlocks, frame).frame, frame)
    decreases end - pos
  {
    if pos + HEADER_BYTES <= end {
      var word0, word1 := ReadU32(data, pos), ReadU32(data, pos + 4);
      if word0 == PADDING_MAGIC {
      } else if Extended(word0) {
        PacketRunKind(data, base, pos + HEADER_BYTES, end, g, maxBlocks, WithHeader(frame, word1));
      } else if PayloadWordsField(word0) >= HEADER_WORDS && PayloadWordsField(word0) * 4 <= end - pos {
        PacketRunKind(data, base, pos + PayloadWordsField(word0) * 4, end, g, maxBlocks, WithBlock(frame));
      }
    }
  }

  lemma {:induction false} PacketsRunKind(data: seq<byte>, count: nat, pos: nat, g: StreamGeometry, maxBlocks: nat,
                                          frame: FrameState)
    requires pos <= |data|
    ensures SameKind(PacketsRun(data, count, pos, g, maxBlocks, frame).frame, frame)
    decreases count
  {
    if count > 0 && |data| - pos >= 4 {
      var size, start := ReadU32(data, pos), pos + 4;
      if size <= |data| - start {
        PacketRunKind(data, start, start, start + size, g, maxBlocks, frame);
        PacketsRunKind(data, count - 1, start + size, g, maxBlocks,
                       PacketRun(data, start, start, start + size, g, maxBlocks, frame).frame);
      }
    }
  }

  lemma LengthPrefixedKind(data: seq<byte>, anyLost: bool, g: StreamGeometry)
    requires |data| >= HEADER_BYTES
    ensures SameKind(LengthPrefixedRun(data, anyLost, g).frame, FRESH.(framing := LengthPrefixed))
  {
    hide MaxBlockCount;
    var count := ReadU32(data, 0);
    PacketsRunKind(data, count, 4, g, MaxBlockCount(g), FRESH.(framing := LengthPrefixed));
  }

  /** Every delivered record passes the checks: no padding, no foreign geometry, no index out of range. */
  ghost predicate AllAccepted(data: seq<byte>, starts: seq<nat>, g: StreamGeometry, maxBlocks: nat) {
    forall k :: 0 <= k < |starts| ==>
      AcceptedHeader(data, starts[k], g, maxBlocks) || AcceptedBlock(data, starts[k], maxBlocks)
  }

  lemma {:induction false} AcceptedPacket(data: seq<byte>, base: nat, pos: nat, end: nat, g: StreamGeometry,
                                          maxBlocks: nat, frame: FrameState)
    requires base <= pos <= end <= |data| && Whole(data, base, pos)
    requires AllAccepted(data, Starts(data, base, pos), g, maxBlocks)
    requires PacketRun(data, base, pos, end, g, maxBlocks, frame).error.None?
    ensures Whole(data, base, end) && AllAccepted(data, Starts(data, base, end), g, maxBlocks)
    ensures PacketRun(data, base, pos, end, g, maxBlocks, frame).frame.spans == CloseSpan(frame, base, end).spans
    decreases end - pos
  {
    if pos < end {
      var word0, word1 := ReadU32(data, pos), ReadU32(data, pos + 4);
      var next := pos + RecordSize(data, pos);
      SplitSnoc(data, base, pos, next);
      AcceptedPacket(data, base, next, end, g, maxBlocks,
                     if Extended(word0) then WithHeader(frame, word1) else WithBlock(frame));
    }
  }

  ghost predicate PrefixedInv(data: seq<byte>, pos: nat, g: StreamGeometry, maxBlocks: nat, frame: FrameState) {
    && WellPlaced(frame.spans, |data|) && SpansWhole(data, frame.spans)
    && EndsBy(frame.spans, pos)
    && AllAccepted(data, SpanStarts(data, frame.spans), g, maxBlocks)
  }

  ghost predicate EndsBy(spans: seq<Span>, pos: nat) {
    forall i :: 0 <= i < |spans| ==> SpanEnd(spans[i]) <= pos
  }

  lemma EndsLater(spans: seq<Span>, a: nat, b: nat)
    requires EndsBy(spans, a) && a <= b
    ensures EndsBy(spans, b)
  {
  }

  /** One packet more. */
  lemma PacketAccepted(data: seq<byte>, pos: nat, size: nat, g: StreamGeometry, maxBlocks: nat, frame: FrameState)
    requires PrefixedInv(data, pos, g, maxBlocks, frame) && 0 < size && pos + 4 + size <= |data|
    requires PacketRun(data, pos + 4, pos + 4, pos + 4 + size, g, maxBlocks, frame).error.None?
    ensures PrefixedInv(data, pos + 4 + size, g, maxBlocks,
                        PacketRun(data, pos + 4, pos + 4, pos + 4 + size, g, maxBlocks, frame).frame)
  {
    hide Whole, SpanStarts, SpansWhole, WellPlaced, PacketRun;
    var start := pos + 4;
    NothingTaken(data, start);
    AcceptedPacket(data, start, start, start + size, g, maxBlocks, frame);
    SpanAdded(data, frame.spans, start, start + size);
  }

  lemma {:induction false} AcceptedPackets(data: seq<byte>, count: nat, pos: nat, g: StreamGeometry, maxBlocks: nat,
                                           frame: FrameState)
    requires pos <= |data| && PrefixedInv(data, pos, g, maxBlocks, frame)
    requires PacketsRun(data, count, pos, g, maxBlocks, frame).error.None?
    ensures PrefixedInv(data, |data|, g, maxBlocks, PacketsRun(data, count, pos, g, maxBlocks, frame).frame)
    decreases count
  {
    hide EndsBy, SpansWhole, WellPlaced, AllAccepted, PacketRun;
    if count > 0 {
      var size, start := ReadU32(data, pos), pos + 4;
      PacketAccepted(data, pos, size, g, maxBlocks, frame);
      AcceptedPackets(data, count - 1, start + size, g, maxBlocks,
                      PacketRun(data, start, start, start + size, g, maxBlocks, frame).frame);
    } else {
      EndsLater(frame.spans, pos, |data|);
    }
  }

  /** Both framings: every span a successful parse hands on splits into records that pass every check. */
  lemma DeliveredAccepted(data: seq<byte>, segments: seq<Segment>, criticalPackets: nat, g: StreamGeometry)
    requires ParseResult(data, segments, criticalPackets, g).error.None?
    ensures var frame := ParseResult(data, segments, criticalPackets, g).frame;
            && WellPlaced(frame.spans, |data|) && SpansWhole(data, frame.spans)
            && AllAccepted(data, SpanStarts(data, frame.spans), g, MaxBlockCount(g))
  {
    hide MaxBlockCount, CoarseBlockCount, Run, PacketsRun, Tiles, RangeLost, SpanStarts, SpansWhole;
    if Extended(ReadU32(data, 0)) {
      RunKind(InputOf(data, segments, criticalPackets, g), StartOf(segments, criticalPackets));
      RecordFrameSound(data, segments, criticalPackets, g);
    } else {
      var frame := FRESH.(framing := LengthPrefixed);
      NoSpans(data, g, frame);
      AcceptedPackets(data, ReadU32(data, 0), 4, g, MaxBlockCount(g), frame);
    }
  }

  lemma NoSpans(data: seq<byte>, g: StreamGeometry, frame: FrameState)
    requires frame.spans == []
    ensures PrefixedInv(data, 4, g, MaxBlockCount(g), frame)
  {
  }

  lemma {:induction false} RunKind(input: Input, w: Walk)
    requires w.pos <= |input.data|
    ensures Run(input, w).frame.framing == w.frame.framing
    decreases |input.data| - w.pos
  {
    hide RangeLost, LaterPacketsAligned, Resume, HeaderError, ReadU32, SequenceField, PayloadWordsField, IndexField,
         TotalField;
    if w.pos < |input.data| && Step(input, w).Next? {
      RunKind(input, Step(input, w).walk);
    }
  }

  /** What a successful parse was given: whole words, a map that tiles them or none, and the first header; and, when
      the frame is length-prefixed, every packet. */
  lemma AcceptedInput(data: seq<byte>, segments: seq<Segment>, criticalPackets: nat, g: StreamGeometry)
    requires ParseResult(data, segments, criticalPackets, g).error.None?
    ensures |data| >= HEADER_BYTES && |data| % 4 == 0 && Tiles(segments, |data|)
    ensures forall i :: 0 <= i < |segments| && segments[i].offset < HEADER_BYTES ==> !segments[i].lost
    ensures ParseResult(data, segments, criticalPackets, g).frame.framing.LengthPrefixed? ==> !AnyLost(segments)
  {
    hide Run, PacketsRun, MaxBlockCount, CoarseBlockCount, LeadingIntact;
    if Extended(ReadU32(data, 0)) {
      RunKind(InputOf(data, segments, criticalPackets, g), StartOf(segments, criticalPackets));
    }
    LostStart(segments, HEADER_BYTES);
  }

  lemma LostStart(segments: seq<Segment>, n: nat)
    requires Contiguous(segments)
    ensures !RangeLost(segments, 0, n) <==>
            forall i :: 0 <= i < |segments| && segments[i].offset < n ==> !segments[i].lost
  {
    forall i | 0 <= i < |segments| && segments[i].lost
      ensures Holds(segments[i], segments[i].offset) && ByteLost(segments, segments[i].offset)
    {
    }
  }

  // ---- Never more announced than there are blocks ----

  lemma {:induction false} RunBounded(input: Input, w: Walk)
    requires w.pos <= |input.data| && w.frame.announcedBlocks <= input.maxBlocks
    ensures Run(input, w).frame.announcedBlocks <= input.maxBlocks
    decreases |input.data| - w.pos
  {
    hide RangeLost, LaterPacketsAligned, Resume, ReadU32, SequenceField, PayloadWordsField, IndexField, TotalField;
    if w.pos < |input.data| && Step(input, w).Next? {
      RunBounded(input, Step(input, w).walk);
    }
  }

  lemma {:induction false} PacketRunBounded(data: seq<byte>, base: nat, pos: nat, end: nat, g: StreamGeometry,
                                            maxBlocks: nat, frame: FrameState)
    requires base <= pos <= end <= |data| && frame.announcedBlocks <= maxBlocks
    ensures PacketRun(data, base, pos, end, g, maxBlocks, frame).frame.announcedBlocks <= maxBlocks
    decreases end - pos
  {
    hide ReadU32, PayloadWordsField, TotalField;
    if pos + HEADER_BYTES <= end {
      var word0, word1 := ReadU32(data, pos), ReadU32(data, pos + 4);
      if word0 == PADDING_MAGIC {
      } else if Extended(word0) {
        if HeaderError(word0, word1, g, maxBlocks).None? {
          PacketRunBounded(data, base, pos + HEADER_BYTES, end, g, maxBlocks, WithHeader(frame, word1));
        }
      } else if PayloadWordsField(word0) >= HEADER_WORDS && PayloadWordsField(word0) * 4 <= end - pos {
        PacketRunBounded(data, base, pos + PayloadWordsField(word0) * 4, end, g, maxBlocks, WithBlock(frame));
      }
    }
  }

  lemma {:induction false} PacketsRunBounded(data: seq<byte>, count: nat, pos: nat, g: StreamGeometry, maxBlocks: nat,
                                             frame: FrameState)
    requires pos <= |data| && frame.announcedBlocks <= maxBlocks
    ensures PacketsRun(data, count, pos, g, maxBlocks, frame).frame.announcedBlocks <= maxBlocks
    decreases count
  {
    hide PacketRun, ReadU32;
    if count > 0 && |data| - pos >= 4 {
      var size, start := ReadU32(data, pos), pos + 4;
      if size <= |data| - start {
        PacketRunBounded(data, start, start, start + size, g, maxBlocks, frame);
        PacketsRunBounded(data, count - 1, start + size, g, maxBlocks,
                          PacketRun(data, start, start, start + size, g, maxBlocks, frame).frame);
      }
    }
  }

  /** Any bytes, any map, either framing: no frame announces more blocks than its geometry has, so none waits for
      blocks that cannot come. */
  lemma AnnouncedBound(data: seq<byte>, segments: seq<Segment>, criticalPackets: nat, g: StreamGeometry)
    ensures ParseResult(data, segments, criticalPackets, g).frame.announcedBlocks <= MaxBlockCount(g)
  {
    hide MaxBlockCount, CoarseBlockCount, Run, PacketsRun, Tiles, RangeLost, ReadU32, LeadingIntact;
    if |data| >= HEADER_BYTES {
      RunBounded(InputOf(data, segments, criticalPackets, g), StartOf(segments, criticalPackets));
      PacketsRunBounded(data, ReadU32(data, 0), 4, g, MaxBlockCount(g), FRESH.(framing := LengthPrefixed));
    }
  }
}
