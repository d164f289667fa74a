/** A frame none of whose packets was lost: its packet map makes no difference, and every byte of it is
    accounted for. */
module Lossless {
  import opened Words
  import opened Geometry
  import opened PacketMap
  import opened FramingSpec
  import opened FramingSound

  // ---- The map makes no difference ----

  lemma NoneLost(segments: seq<Segment>, lo: nat, hi: nat)
    requires !AnyLost(segments)
    ensures !RangeLost(segments, lo, hi)
  {
  }

  /** Two inputs that differ in their packet maps only, and neither map holds a loss. */
  ghost predicate SameFrame(a: Input, b: Input) {
    && a.data == b.data && a.geometry == b.geometry && a.maxBlocks == b.maxBlocks && a.coarseBlocks == b.coarseBlocks
    && !AnyLost(a.segments) && !AnyLost(b.segments)
  }

  lemma StepSame(a: Input, b: Input, w: Walk)
    requires SameFrame(a, b) && w.pos < |a.data|
    ensures Step(a, w) == Step(b, w)
  {
    hide AnyLost, RangeLost, Resume, InOnePacket, Ordinary, HeaderError, IndexField, SequenceField, PayloadWordsField,
         ReadU32;
    forall lo: nat, hi: nat ensures !RangeLost(a.segments, lo, hi) && !RangeLost(b.segments, lo, hi) {
      NoneLost(a.segments, lo, hi);
      NoneLost(b.segments, lo, hi);
    }
  }

  lemma {:induction false} RunSame(a: Input, b: Input, w: Walk)
    requires SameFrame(a, b) && w.pos <= |a.data|
    ensures Run(a, w) == Run(b, w)
    decreases |a.data| - w.pos
  {
    hide Step, AnyLost;
    if w.pos < |a.data| {
      StepSame(a, b, w);
      if Step(a, w).Next? { RunSame(a, b, Step(a, w).walk); }
    }
  }

  /** With nothing lost, any packet map, any flags and any announced count give what no map gives:
      the same frame, the same error. */
  lemma MapIrrelevant(data: seq<byte>, segments: seq<Segment>, criticalPackets: nat, g: StreamGeometry)
    requires Tiles(segments, |data|) && !AnyLost(segments)
    ensures ParseResult(data, segments, criticalPackets, g) == ParseResult(data, [], 0, g)
  {
    hide Run, RangeLost, MaxBlockCount, CoarseBlockCount, LengthPrefixedRun, ReadU32;
    NoneLost(segments, 0, HEADER_BYTES);
    NoneLost([], 0, HEADER_BYTES);
    var a, b := InputOf(data, segments, criticalPackets, g), InputOf(data, [], 0, g);
    if |data| >= HEADER_BYTES {
      RunSame(a, b, StartOf(segments, criticalPackets));
    }
  }

  // ---- Every byte accounted for ----

  ghost function SpanTotal(spans: seq<Span>): nat {
    if spans == [] then 0 else SpanTotal(spans[..|spans| - 1]) + spans[|spans| - 1].size
  }

  lemma SpanTotalSnoc(spans: seq<Span>, span: Span)
    ensures SpanTotal(spans + [span]) == SpanTotal(spans) + span.size
  {
    assert (spans + [span])[..|spans + [span]| - 1] == spans;
  }

  /** Bytes behind the walk: in spans, in the open span, or padding. */
  ghost predicate Accounted(w: Walk) {
    && w.spanStart <= w.pos
    && exists padding: nat :: w.frame.paddingBytes == padding % WORD
        && SpanTotal(w.frame.spans) + (w.pos - w.spanStart) + padding == w.pos
  }

  lemma CloseTotal(frame: FrameState, start: nat, end: nat)
    requires start <= end
    ensures SpanTotal(CloseSpan(frame, start, end).spans) == SpanTotal(frame.spans) + (end - start)
    ensures CloseSpan(frame, start, end).paddingBytes == frame.paddingBytes
  {
    SpanTotalSnoc(frame.spans, Span(start, end - start));
  }

  lemma PaddingAccounted(w: Walk, padBytes: nat)
    requires Accounted(w) && padBytes > 0
    ensures Accounted(SkipTo(w.(frame := w.frame.(paddingBytes := (w.frame.paddingBytes + padBytes) % WORD)),
                             w.pos + padBytes))
  {
    hide SpanTotal, CloseSpan;
    var padding: nat :| w.frame.paddingBytes == padding % WORD
        && SpanTotal(w.frame.spans) + (w.pos - w.spanStart) + padding == w.pos;
    var padded := w.frame.(paddingBytes := (w.frame.paddingBytes + padBytes) % WORD);
    var w' := SkipTo(w.(frame := padded), w.pos + padBytes);
    CloseTotal(padded, w.spanStart, w.pos);
    SumWraps(padding, padBytes);
    assert w'.frame.paddingBytes == (padding + padBytes) % WORD;
    assert SpanTotal(w'.frame.spans) + (w'.pos - w'.spanStart) + (padding + padBytes) == w'.pos;
  }

  lemma SumWraps(a: nat, b: nat)
    ensures (a % WORD + b) % WORD == (a + b) % WORD
  {
  }

  lemma TakingAccounted(w: Walk, w': Walk)
    requires Accounted(w) && w.pos <= w'.pos && w'.spanStart == w.spanStart
    requires w'.frame.spans == w.frame.spans && w'.frame.paddingBytes == w.frame.paddingBytes
    ensures Accounted(w')
  {
    var padding: nat :| w.frame.paddingBytes == padding % WORD
        && SpanTotal(w.frame.spans) + (w.pos - w.spanStart) + padding == w.pos;
    assert SpanTotal(w'.frame.spans) + (w'.pos - w'.spanStart) + padding == w'.pos;
  }

  lemma StepAccounted(input: Input, w: Walk)
    requires !AnyLost(input.segments) && w.pos < |input.data| && Accounted(w) && Step(input, w).Next?
    ensures Accounted(Step(input, w).walk)
  {
    hide Accounted, AnyLost, RangeLost, Resume, InOnePacket, LaterPacketsAligned, HeaderError, IndexField,
         SequenceField, PayloadWordsField, ReadU32, SkipTo, Extended;
    forall lo: nat, hi: nat ensures !RangeLost(input.segments, lo, hi) {
      NoneLost(input.segments, lo, hi);
    }
    if ReadU32(input.data, w.pos) == PADDING_MAGIC {
      PaddingAccounted(w, HEADER_BYTES + ReadU32(input.data, w.pos + 4) * 4);
    } else {
      TakingAccounted(w, Step(input, w).walk);
    }
  }

  lemma {:induction false} RunAccounts(input: Input, w: Walk)
    requires !AnyLost(input.segments) && w.pos <= |input.data| && Accounted(w) && Run(input, w).error.None?
    ensures var frame := Run(input, w).frame;
            exists padding: nat :: frame.paddingBytes == padding % WORD
                && SpanTotal(frame.spans) + padding == |input.data|
    decreases |input.data| - w.pos
  {
    hide Step, AnyLost;
    if w.pos == |input.data| {
      CloseTotal(w.frame, w.spanStart, w.pos);
    } else {
      StepAccounted(input, w);
      RunAccounts(input, Step(input, w).walk);
    }
  }

  /** A length-prefixed packet becomes one span. */
  lemma {:induction false} PacketAccounts(data: seq<byte>, base: nat, pos: nat, end: nat, g: StreamGeometry,
                                          maxBlocks: nat, frame: FrameState)
    requires base <= pos <= end <= |data| && base < end
    requires PacketRun(data, base, pos, end, g, maxBlocks, frame).error.None?
    ensures PacketRun(data, base, pos, end, g, maxBlocks, frame).frame.spans == frame.spans + [Span(base, end - base)]
    decreases end - pos
  {
    hide ReadU32, PayloadWordsField, IndexField, HeaderError, TotalField, Extended;
    if pos < end {
      var word0, word1 := ReadU32(data, pos), ReadU32(data, pos + 4);
      if Extended(word0) {
        PacketAccounts(data, base, pos + HEADER_BYTES, end, g, maxBlocks, WithHeader(frame, word1));
      } else {
        PacketAccounts(data, base, pos + PayloadWordsField(word0) * 4, end, g, maxBlocks, WithBlock(frame));
      }
    }
  }

  lemma {:induction false} PacketsAccount(data: seq<byte>, count: nat, pos: nat, g: StreamGeometry, maxBlocks: nat,
                                          frame: FrameState)
    requires pos <= |data| && PacketsRun(data, count, pos, g, maxBlocks, frame).error.None?
    ensures var spans := PacketsRun(data, count, pos, g, maxBlocks, frame).frame.spans;
            SpanTotal(spans) + 4 * count + pos == SpanTotal(frame.spans) + |data| && |spans| == |frame.spans| + count
    decreases count
  {
    hide ReadU32, PacketRun, SpanTotal;
    if count > 0 {
      var size, start := ReadU32(data, pos), pos + 4;
      PacketAccounts(data, start, start, start + size, g, maxBlocks, frame);
      SpanTotalSnoc(frame.spans, Span(start, size));
      PacketsAccount(data, count - 1, start + size, g, maxBlocks,
                     PacketRun(data, start, start, start + size, g, maxBlocks, frame).frame);
    }
  }

  /** Conservation, for any bytes at all: what a frame without losses hands on, its padding and its packet
      lengths make up the frame. (A frame of 4 GiB or more would wrap the padding count.) */
  lemma BytesConserved(data: seq<byte>, segments: seq<Segment>, criticalPackets: nat, g: StreamGeometry)
    requires !AnyLost(segments) && |data| < WORD
    requires ParseResult(data, segments, criticalPackets, g).error.None?
    ensures var frame := ParseResult(data, segments, criticalPackets, g).frame;
            && (frame.framing.Records? ==> SpanTotal(frame.spans) + frame.paddingBytes == |data|)
            && (frame.framing.LengthPrefixed? ==> SpanTotal(frame.spans) + 4 + 4 * |frame.spans| == |data|)
  {
    hide Run, PacketsRun, RangeLost, MaxBlockCount, CoarseBlockCount, Tiles, LeadingIntact, AnyLost, ReadU32;
    if Extended(ReadU32(data, 0)) {
      var input, w := InputOf(data, segments, criticalPackets, g), StartOf(segments, criticalPackets);
      RunKind(input, w);
      StartAccounted(w);
      RunAccounts(input, w);
      var padding: nat :| Run(input, w).frame.paddingBytes == padding % WORD
          && SpanTotal(Run(input, w).frame.spans) + padding == |data|;
    } else {
      LengthPrefixedKind(data, AnyLost(segments), g);
      PacketsAccount(data, ReadU32(data, 0), 4, g, MaxBlockCount(g), FRESH.(framing := LengthPrefixed));
    }
  }

  lemma StartAccounted(w: Walk)
    requires w.pos == w.spanStart == 0 && w.frame.spans == [] && w.frame.paddingBytes == 0
    ensures Accounted(w)
  {
    assert w.frame.paddingBytes == 0 % WORD && SpanTotal(w.frame.spans) + (w.pos - w.spanStart) + 0 == w.pos;
  }
}
