/** Length-prefixed framing from the sender's side: records grouped into packets, each with its length
    in front, and a count before them all. The parser hands on the same records either way. */
module Prefixed {
  import opened Words
  import opened Geometry
  import opened PacketMap
  import opened FramingSpec
  import FramingSound
  import opened Sender
  import opened Recovery
  import opened Delivery
  import opened RoundTrip

  function Flatten(groups: seq<seq<Record>>): seq<Record> {
    if groups == [] then [] else Flatten(groups[..|groups| - 1]) + groups[|groups| - 1]
  }

  ghost predicate GroupsPackable(groups: seq<seq<Record>>) {
    forall i :: 0 <= i < |groups| ==> AllPackable(groups[i]) && Total(groups[i]) < WORD
  }

  ghost function Packets(groups: seq<seq<Record>>): seq<byte>
    requires GroupsPackable(groups)
  {
    if groups == [] then []
    else
      var last := groups[|groups| - 1];
      Packets(groups[..|groups| - 1]) + (PutU32(Total(last)) + Serialise(last))
  }

  /** A frame in length-prefixed framing. */
  ghost function PrefixedFrame(groups: seq<seq<Record>>): seq<byte>
    requires GroupsPackable(groups) && |groups| < TOP_BIT
  {
    PutU32(|groups|) + Packets(groups)
  }

  /** Where packet i starts, counted from after the frame's count word. */
  function GroupStart(groups: seq<seq<Record>>, i: nat): nat
    requires i <= |groups|
  {
    if i == 0 then 0 else GroupStart(groups, i - 1) + 4 + Total(groups[i - 1])
  }

  lemma {:induction false} GroupStartOfPrefix(groups: seq<seq<Record>>, front: seq<seq<Record>>, i: nat)
    requires front <= groups && i <= |front|
    ensures GroupStart(front, i) == GroupStart(groups, i)
  {
    if i > 0 { GroupStartOfPrefix(groups, front, i - 1); }
  }

  lemma {:induction false} GroupStartsGrow(groups: seq<seq<Record>>, i: nat, j: nat)
    requires i <= j <= |groups|
    ensures GroupStart(groups, i) + 4 * (j - i) <= GroupStart(groups, j)
  {
    if i < j { GroupStartsGrow(groups, i, j - 1); }
  }

  lemma {:induction false} PacketsLength(groups: seq<seq<Record>>)
    requires GroupsPackable(groups)
    ensures |Packets(groups)| == GroupStart(groups, |groups|)
  {
    hide AllPackable, Serialise, PutU32, Offset;
    if groups != [] {
      var front := groups[..|groups| - 1];
      PacketsLength(front);
      GroupStartOfPrefix(groups, front, |front|);
    }
  }

  /** Packet i is where GroupStart says. */
  lemma {:induction false} GroupBytes(groups: seq<seq<Record>>, i: nat)
    requires GroupsPackable(groups) && i < |groups|
    ensures GroupStart(groups, i) <= GroupStart(groups, i + 1) <= |Packets(groups)|
    ensures Packets(groups)[GroupStart(groups, i)..GroupStart(groups, i + 1)]
            == PutU32(Total(groups[i])) + Serialise(groups[i])
    decreases |groups|
  {
    hide Packets, AllPackable, Serialise, PutU32, Offset;
    GroupStartsGrow(groups, i + 1, |groups|);
    PacketsLength(groups);
    var front, last := groups[..|groups| - 1], groups[|groups| - 1];
    PacketsSnoc(groups);
    if i < |groups| - 1 {
      GroupBytes(front, i);
      GroupStartOfPrefix(groups, front, i);
      GroupStartOfPrefix(groups, front, i + 1);
      SliceOfPrefix(Packets(front), PutU32(Total(last)) + Serialise(last), GroupStart(groups, i),
                    GroupStart(groups, i + 1));
    } else {
      SliceOfSuffix(Packets(front), PutU32(Total(last)) + Serialise(last));
    }
  }

  lemma PacketsSnoc(groups: seq<seq<Record>>)
    requires GroupsPackable(groups) && groups != []
    ensures var front, last := groups[..|groups| - 1], groups[|groups| - 1];
            && GroupsPackable(front) && |Packets(front)| == GroupStart(groups, |groups| - 1)
            && Packets(groups) == Packets(front) + (PutU32(Total(last)) + Serialise(last))
  {
    hide AllPackable, Serialise, PutU32, Offset;
    PacketsLength(groups[..|groups| - 1]);
    GroupStartOfPrefix(groups, groups[..|groups| - 1], |groups| - 1);
  }

  lemma {:induction false} GroupStartAligned(groups: seq<seq<Record>>, i: nat)
    requires GroupsPackable(groups) && i <= |groups|
    ensures GroupStart(groups, i) % 4 == 0
  {
    hide AllPackable, Offset;
    if i > 0 {
      GroupStartAligned(groups, i - 1);
      OffsetsAligned(groups[i - 1], |groups[i - 1]|);
    }
  }

  lemma {:induction false} GroupsAtLeast(groups: seq<seq<Record>>, i: nat)
    requires i <= |groups| && forall k :: 0 <= k < |groups| ==> groups[k] != []
    ensures GroupStart(groups, i) >= 12 * i
  {
    if i > 0 {
      GroupsAtLeast(groups, i - 1);
      OffsetsGrow(groups[i - 1], 0, |groups[i - 1]|);
    }
  }

  // ---- What a run of records does to the frame's counts ----

  function Counted(frame: FrameState, rs: seq<Record>): FrameState
    requires AllPackable(rs)
  {
    if rs == [] then frame
    else
      var last, before := rs[|rs| - 1], Counted(frame, rs[..|rs| - 1]);
      match last
      case Header(_, _, _, _, _, _, _) => WithHeader(before, Word1(last))
      case Block(_, _, _, _, _) => WithBlock(before)
      case Padding(_) => before
  }

  lemma {:induction false} CountedConcat(frame: FrameState, a: seq<Record>, b: seq<Record>)
    requires AllPackable(a) && AllPackable(b)
    ensures AllPackable(a + b) && Counted(frame, a + b) == Counted(Counted(frame, a), b)
    decreases |b|
  {
    hide Packable, WithHeader, WithBlock, Word1;
    if b == [] {
      assert a + b == a;
    } else {
      CountedConcat(frame, a, b[..|b| - 1]);
      assert (a + b)[..|a + b| - 1] == a + b[..|b| - 1];
    }
  }

  /** Counting leaves the spans alone, and does not look at them. */
  lemma {:induction false} CountedSpans(frame: FrameState, spans: seq<Span>, rs: seq<Record>)
    requires AllPackable(rs)
    ensures Counted(frame.(spans := spans), rs) == Counted(frame, rs).(spans := spans)
    ensures Counted(frame, rs).spans == frame.spans
  {
    hide Packable, Word1;
    if rs != [] { CountedSpans(frame, spans, rs[..|rs| - 1]); }
  }

  /** A record the parser takes inside a length-prefixed packet. */
  ghost predicate Acceptable(r: Record, g: StreamGeometry, maxBlocks: nat) {
    && Packable(r)
    && (r.Header? || r.Block?)
    && (r.Block? ==> r.index < maxBlocks)
    && (r.Header? ==> r.widthMinus1 + 1 == g.width && r.heightMinus1 + 1 == g.height && r.code == 0
                      && (r.chroma == 1 <==> g.chroma444) && r.totalBlocks <= maxBlocks)
  }

  lemma AcceptableRead(data: seq<byte>, p: nat, end: nat, r: Record, g: StreamGeometry, maxBlocks: nat, base: nat,
                       frame: FrameState)
    requires Acceptable(r, g, maxBlocks) && base <= p && p + Length(r) <= end <= |data| && p + HEADER_BYTES <= |data|
    requires ReadU32(data, p) == Word0(r) && ReadU32(data, p + 4) == Word1(r)
    ensures PacketRun(data, base, p, end, g, maxBlocks, frame)
            == PacketRun(data, base, p + Length(r), end, g, maxBlocks,
                         if r.Header? then WithHeader(frame, Word1(r)) else WithBlock(frame))
  {
    hide Word0, Word1, ReadU32, WidthField, HeightField, TotalField, CodeField, ChromaField, IndexField,
         PayloadWordsField, SequenceField, WithHeader, WithBlock, Packable;
    if r.Header? { HeaderFields(r); } else { BlockFields(r); }
  }

  /** The header words of a record inside a packet. */
  lemma ReadInside(data: seq<byte>, base: nat, group: seq<Record>, j: nat)
    requires AllPackable(group) && j < |group| && base + Total(group) <= |data|
    requires data[base..base + Total(group)] == Serialise(group)
    ensures Offset(group, j) + HEADER_BYTES <= Offset(group, j + 1) <= Total(group)
    ensures ReadU32(data, base + Offset(group, j)) == Word0(group[j])
            && ReadU32(data, base + Offset(group, j) + 4) == Word1(group[j])
  {
    hide Word0, Word1, ReadU32, Serialise, Packable, RangeLost;
    var inner := data[base..base + Total(group)];
    OffsetsGrow(group, j, j + 1);
    OffsetsGrow(group, j + 1, |group|);
    WholeRead(group, j);
    SubRead(data, base, inner, Offset(group, j));
    SubRead(data, base, inner, Offset(group, j) + 4);
  }

  lemma WholeRead(rs: seq<Record>, k: nat)
    requires AllPackable(rs) && k < |rs|
    ensures Offset(rs, k) + HEADER_BYTES <= Offset(rs, k + 1) <= |Serialise(rs)|
    ensures ReadU32(Serialise(rs), Offset(rs, k)) == Word0(rs[k])
            && ReadU32(Serialise(rs), Offset(rs, k) + 4) == Word1(rs[k])
  {
    hide Word0, Word1, ReadU32, Serialise, Packable, Offset;
    NothingLostNowhere(Offset(rs, k), Offset(rs, k) + HEADER_BYTES);
    HeaderRead(rs, [], Serialise(rs), k);
  }

  lemma NothingLostNowhere(lo: nat, hi: nat)
    ensures !RangeLost([], lo, hi)
  {
  }

  /** One packet: all its records are counted, and its bytes are one span. */
  lemma {:induction false} PacketRead(data: seq<byte>, base: nat, group: seq<Record>, j: nat, g: StreamGeometry,
                                      maxBlocks: nat, frame: FrameState)
    requires AllPackable(group) && j <= |group| && base + Total(group) <= |data|
    requires data[base..base + Total(group)] == Serialise(group)
    requires forall k :: 0 <= k < |group| ==> Acceptable(group[k], g, maxBlocks)
    ensures Offset(group, j) <= Total(group)
    ensures PacketRun(data, base, base + Offset(group, j), base + Total(group), g, maxBlocks,
                      Counted(frame, group[..j]))
            == Result(None, CloseSpan(Counted(frame, group), base, base + Total(group)))
    decreases |group| - j
  {
    hide Serialise, Packable, Acceptable, WithHeader, WithBlock, PacketRun, ReadU32, Word0, Word1, Counted, Offset,
         CloseSpan;
    OffsetsGrow(group, j, |group|);
    if j == |group| {
      assert group[..j] == group;
      PacketDone(data, base, base + Total(group), g, maxBlocks, Counted(frame, group));
    } else {
      ReadInside(data, base, group, j);
      NextOffset(group, j);
      AcceptableKind(group[j], g, maxBlocks);
      CountedNext(frame, group, j);
      AcceptableRead(data, base + Offset(group, j), base + Total(group), group[j], g, maxBlocks, base,
                     Counted(frame, group[..j]));
      PacketRead(data, base, group, j + 1, g, maxBlocks, frame);
    }
  }

  lemma NextOffset(rs: seq<Record>, k: nat)
    requires k < |rs|
    ensures Offset(rs, k + 1) == Offset(rs, k) + Length(rs[k])
  {
  }

  lemma CountedNext(frame: FrameState, rs: seq<Record>, k: nat)
    requires AllPackable(rs) && k < |rs| && !rs[k].Padding?
    ensures Counted(frame, rs[..k + 1])
            == if rs[k].Header? then WithHeader(Counted(frame, rs[..k]), Word1(rs[k]))
                else WithBlock(Counted(frame, rs[..k]))
  {
    hide Packable, WithHeader, WithBlock, Word1;
    assert rs[..k + 1][..k] == rs[..k];
  }

  lemma AcceptableKind(r: Record, g: StreamGeometry, maxBlocks: nat)
    requires Acceptable(r, g, maxBlocks)
    ensures r.Header? || r.Block?
  {
  }

  lemma PacketDone(data: seq<byte>, base: nat, end: nat, g: StreamGeometry, maxBlocks: nat, frame: FrameState)
    requires base <= end <= |data|
    ensures PacketRun(data, base, end, end, g, maxBlocks, frame) == Result(None, CloseSpan(frame, base, end))
  {
  }

  // ---- The whole frame ----

  /** The span each of the first i packets leaves. */
  ghost function GroupSpans(groups: seq<seq<Record>>, i: nat): (spans: seq<Span>)
    requires i <= |groups|
    ensures |spans| == i
  {
    if i == 0 then [] else GroupSpans(groups, i - 1) + [Span(8 + GroupStart(groups, i - 1), Total(groups[i - 1]))]
  }

  lemma {:induction false} FlattenPackable(groups: seq<seq<Record>>)
    requires GroupsPackable(groups)
    ensures AllPackable(Flatten(groups))
  {
    hide Packable, Offset;
    if groups != [] { FlattenPackable(groups[..|groups| - 1]); }
  }

  /** The frame's counts and spans after i packets. */
  ghost function Through(groups: seq<seq<Record>>, i: nat, frame: FrameState): FrameState
    requires GroupsPackable(groups) && i <= |groups|
  {
    FlattenPackable(groups[..i]);
    Counted(frame, Flatten(groups[..i])).(spans := GroupSpans(groups, i))
  }

  lemma ThroughNext(groups: seq<seq<Record>>, i: nat, frame: FrameState)
    requires GroupsPackable(groups) && i < |groups| && groups[i] != []
    ensures var start := 8 + GroupStart(groups, i);
            CloseSpan(Counted(Through(groups, i, frame), groups[i]), start, start + Total(groups[i])) ==
            Through(groups, i + 1, frame)
  {
    hide Counted, Packable, Offset, AllPackable, Flatten;
    FlattenPackable(groups[..i]);
    var before, group, counted := Flatten(groups[..i]), groups[i], Counted(frame, Flatten(groups[..i]));
    FlattenNext(groups, i);
    CountedConcat(frame, before, group);
    CountedSpans(counted, GroupSpans(groups, i), group);
    NotEmpty(group);
  }

  lemma NotEmpty(group: seq<Record>)
    requires group != []
    ensures Total(group) > 0
  {
    OffsetsGrow(group, 0, |group|);
  }

  lemma FlattenNext(groups: seq<seq<Record>>, i: nat)
    requires i < |groups|
    ensures Flatten(groups[..i + 1]) == Flatten(groups[..i]) + groups[i]
  {
    assert groups[..i + 1][..i] == groups[..i];
  }

  /** Where packet i's length and records lie in the frame. */
  lemma PacketBytes(groups: seq<seq<Record>>, i: nat)
    requires GroupsPackable(groups) && |groups| < TOP_BIT && i < |groups|
    ensures var data, pos := PrefixedFrame(groups), 4 + GroupStart(groups, i);
            && pos + 4 + Total(groups[i]) == 4 + GroupStart(groups, i + 1) <= |data|
            && ReadU32(data, pos) == Total(groups[i])
            && data[pos + 4..pos + 4 + Total(groups[i])] == Serialise(groups[i])
  {
    hide Packets, AllPackable, Serialise, ReadU32, PutU32, Offset;
    var data, pos, size := PrefixedFrame(groups), 4 + GroupStart(groups, i), Total(groups[i]);
    var packets, part := Packets(groups), PutU32(size) + Serialise(groups[i]);
    GroupBytes(groups, i);
    assert data[pos..pos + 4 + size] == packets[pos - 4..pos + size];
    SubRead(data, pos, part, 0);
    ReadPrefix(PutU32(size), Serialise(groups[i]), 0);
    SliceOfSlice(data, pos, pos + 4 + size, 4, 4 + size);
    SliceOfSuffix(PutU32(size), Serialise(groups[i]));
  }

  lemma {:induction false} PacketsRead(data: seq<byte>, groups: seq<seq<Record>>, i: nat, g: StreamGeometry,
                                       maxBlocks: nat, frame: FrameState)
    requires GroupsPackable(groups) && |groups| < TOP_BIT && i <= |groups| && data == PrefixedFrame(groups)
    requires forall k :: 0 <= k < |groups| ==> GroupAcceptable(groups[k], g, maxBlocks)
    ensures 4 + GroupStart(groups, i) <= |data|
    ensures PacketsRun(data, |groups| - i, 4 + GroupStart(groups, i), g, maxBlocks, Through(groups, i, frame))
            == Result(None, Through(groups, |groups|, frame))
    decreases |groups| - i
  {
    hide Packets, AllPackable, Serialise, ReadU32, PutU32, Through, PacketRun, GroupAcceptable, Offset;
    GroupStartsGrow(groups, i, |groups|);
    PacketsLength(groups);
    if i < |groups| {
      PacketBytes(groups, i);
      GroupRead(data, 8 + GroupStart(groups, i), groups[i], g, maxBlocks, Through(groups, i, frame));
      ThroughNext(groups, i, frame);
      PacketsRead(data, groups, i + 1, g, maxBlocks, frame);
    }
  }

  /** A packet of records the parser takes; not empty, as the parser refuses empty packets. */
  ghost predicate GroupAcceptable(group: seq<Record>, g: StreamGeometry, maxBlocks: nat) {
    group != [] && forall k :: 0 <= k < |group| ==> Acceptable(group[k], g, maxBlocks)
  }

  lemma GroupRead(data: seq<byte>, base: nat, group: seq<Record>, g: StreamGeometry, maxBlocks: nat, frame: FrameState)
    requires AllPackable(group) && base + Total(group) <= |data| && GroupAcceptable(group, g, maxBlocks)
    requires data[base..base + Total(group)] == Serialise(group)
    ensures group != [] && Total(group) > 0 && Total(group) % 4 == 0
    ensures PacketRun(data, base, base, base + Total(group), g, maxBlocks, frame)
            == Result(None, CloseSpan(Counted(frame, group), base, base + Total(group)))
  {
    hide Serialise, Packable, Acceptable, PacketRun;
    NotEmpty(group);
    OffsetsAligned(group, |group|);
    assert group[..0] == [];
    PacketRead(data, base, group, 0, g, maxBlocks, frame);
  }

  /** The bytes of those spans are the records, one after the other. */
  lemma {:induction false} GroupSpanBytes(data: seq<byte>, groups: seq<seq<Record>>, i: nat)
    requires GroupsPackable(groups) && |groups| < TOP_BIT && i <= |groups| && data == PrefixedFrame(groups)
    ensures AllPackable(Flatten(groups[..i]))
    ensures SpanBytes(data, GroupSpans(groups, i)) == Serialise(Flatten(groups[..i]))
  {
    hide Packets, AllPackable, Serialise, ReadU32, PutU32, Offset, PrefixedFrame, GroupStart, SpanBytes;
    if i == 0 {
      assert groups[..0] == [];
      NothingSpanned(data);
    } else {
      GroupSpanBytes(data, groups, i - 1);
      PacketBytes(groups, i - 1);
      FlattenNext(groups, i - 1);
      SpanBytesSnoc(data, GroupSpans(groups, i - 1), Span(8 + GroupStart(groups, i - 1), Total(groups[i - 1])));
      SerialiseConcat(Flatten(groups[..i - 1]), groups[i - 1]);
    }
  }

  lemma NothingSpanned(data: seq<byte>)
    ensures AllPackable(Flatten([])) && Serialise(Flatten([])) == [] && SpanBytes(data, []) == []
  {
  }

  lemma SpanBytesSnoc(data: seq<byte>, spans: seq<Span>, span: Span)
    requires span.offset + span.size <= |data|
    ensures SpanBytes(data, spans + [span]) == SpanBytes(data, spans) + data[span.offset..span.offset + span.size]
  {
    assert (spans + [span])[..|spans + [span]| - 1] == spans;
  }

  lemma SerialiseNothing()
    ensures Serialise([]) == []
  {
  }

  lemma {:induction false} SerialiseConcat(a: seq<Record>, b: seq<Record>)
    requires AllPackable(a) && AllPackable(b)
    ensures AllPackable(a + b) && Serialise(a + b) == Serialise(a) + Serialise(b)
    decreases |b|
  {
    hide Packable, Encode, Serialise, Offset;
    if b == [] {
      assert a + b == a;
      SerialiseNothing();
    } else {
      var front, last := b[..|b| - 1], Encode(b[|b| - 1]);
      SerialiseConcat(a, front);
      assert (a + b)[..|a + b| - 1] == a + front;
      SerialiseSnoc(b);
      SerialiseSnoc(a + b);
      assert Serialise(a) + (Serialise(front) + last) == Serialise(a) + Serialise(front) + last;
    }
  }

  // ---- Both framings ----

  /** The records but padding: what both framings carry. */
  function Content(rs: seq<Record>): seq<Record> {
    if rs == [] then [] else Content(rs[..|rs| - 1]) + if rs[|rs| - 1].Padding? then [] else [rs[|rs| - 1]]
  }

  /** What the counts come to for a frame's records. */
  lemma {:induction false} CountedFrame(frame: FrameState, rs: seq<Record>)
    requires AllPackable(rs) && rs != [] && rs[0].Header? && (forall k :: 0 < k < |rs| ==> !rs[k].Header?)
    requires frame.blockRecords == 0
    ensures var counted := Counted(frame, rs);
            && counted.sequenceHeaderSeen && counted.announcedBlocks == rs[0].totalBlocks
            && counted.blockRecords == BlocksUpTo(rs, |rs|) % WORD
            && counted.framing == frame.framing && counted.partial == frame.partial
            && counted.coarseLevelIntact == frame.coarseLevelIntact
  {
    hide Packable, Word1, TotalField;
    var front := rs[..|rs| - 1];
    BlocksOfPrefix(rs, front, |front|);
    if |rs| == 1 {
      HeaderFields(rs[0]);
      assert front == [] && BlocksUpTo(rs, 0) == 0;
    } else {
      CountedFrame(frame, front);
      FramingSound.ModNext(BlocksUpTo(front, |front|));
    }
  }

  lemma {:induction false} BlocksOfPrefix(rs: seq<Record>, front: seq<Record>, k: nat)
    requires front <= rs && k <= |front|
    ensures BlocksUpTo(front, k) == BlocksUpTo(rs, k)
  {
    if k > 0 { BlocksOfPrefix(rs, front, k - 1); }
  }
}
