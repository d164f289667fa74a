/** What survives of a damaged frame: which records the parser hands on, and what its verdicts mean. */
module Delivery {
  import opened Words
  import opened Geometry
  import opened PacketMap
  import opened FramingSpec
  import opened FramingSound
  import opened Sender
  import opened Recovery

  function PlanOf(rs: seq<Record>, segments: seq<Segment>, criticalPackets: nat, g: StreamGeometry): Plan {
    Plan(rs, segments, CoarseKnown(segments, criticalPackets), CoarseBlockCount(g))
  }

  ghost predicate LeadingArrived(segments: seq<Segment>, criticalPackets: nat) {
    CoarseKnown(segments, criticalPackets) ==> LeadingIntact(segments, criticalPackets)
  }

  ghost function Outset(segments: seq<Segment>, criticalPackets: nat): Tally {
    Tally(0, [], false, LeadingArrived(segments, criticalPackets), false, false)
  }

  /** What is delivered of a frame sent. */
  ghost function Delivered(rs: seq<Record>, segments: seq<Segment>, criticalPackets: nat, g: StreamGeometry): Tally {
    PassAll(PlanOf(rs, segments, criticalPackets, g), Outset(segments, criticalPackets))
  }

  // ---- Only true records, whole, in order ----

  ghost predicate Genuine(plan: Plan, got: seq<nat>, next: nat)
    requires next <= |plan.records|
  {
    && (forall i, j :: 0 <= i < j < |got| ==> got[i] < got[j])
    && (forall i :: 0 <= i < |got| ==> got[i] < next && !plan.records[got[i]].Padding? && !RecordLost(plan, got[i]))
  }

  lemma GenuineSnoc(plan: Plan, got: seq<nat>, k: nat, next: nat)
    requires k < next <= |plan.records| && Genuine(plan, got, k)
    requires !plan.records[k].Padding? && !RecordLost(plan, k)
    ensures Genuine(plan, got + [k], next)
  {
    hide RecordLost;
  }

  lemma GenuineLater(plan: Plan, got: seq<nat>, k: nat, next: nat)
    requires k <= next <= |plan.records| && Genuine(plan, got, k)
    ensures Genuine(plan, got, next)
  {
    hide RecordLost;
  }

  lemma HeaderIsWhole(plan: Plan, k: nat)
    requires k < |plan.records| && plan.records[k].Header?
    ensures RecordLost(plan, k) == HeaderLost(plan, k)
  {
    assert Offset(plan.records, k + 1) == Offset(plan.records, k) + Length(plan.records[k]);
  }

  lemma PassGenuine(plan: Plan, t: Tally)
    requires t.next < |plan.records| && Genuine(plan, t.got, t.next)
    ensures Genuine(plan, Pass(plan, t).got, Pass(plan, t).next)
  {
    hide HeaderLost, RecordLost, ResumeOffset, FirstFrom, AlignsAfter, Genuine;
    var t' := Pass(plan, t);
    GenuineLater(plan, t.got, t.next, t'.next);
    if plan.records[t.next].Header? { HeaderIsWhole(plan, t.next); }
    if t'.got != t.got { GenuineSnoc(plan, t.got, t.next, t'.next); }
  }

  lemma {:induction false} PassAllGenuine(plan: Plan, t: Tally)
    requires t.next <= |plan.records| && Genuine(plan, t.got, t.next)
    ensures PassAll(plan, t).next == |plan.records| && Genuine(plan, PassAll(plan, t).got, |plan.records|)
    ensures t.got <= PassAll(plan, t).got
    decreases |plan.records| - t.next
  {
    hide HeaderLost, RecordLost, ResumeOffset, FirstFrom, AlignsAfter, Genuine;
    if t.next < |plan.records| {
      PassGenuine(plan, t);
      PassAllGenuine(plan, Pass(plan, t));
    }
  }

  // ---- Partial means: a header or a block was damaged ----

  /** A byte that matters was lost: a byte of a record header, or of a block. */
  ghost predicate Damaged(plan: Plan, k: nat)
    requires k < |plan.records|
  {
    HeaderLost(plan, k) || (plan.records[k].Block? && RecordLost(plan, k))
  }

  ghost predicate AnyDamaged(plan: Plan, from: nat) {
    exists k :: from <= k < |plan.records| && Damaged(plan, k)
  }

  /** The records other than padding among the first k. */
  function Kept(rs: seq<Record>, k: nat): seq<nat>
    requires k <= |rs|
  {
    if k == 0 then [] else Kept(rs, k - 1) + if rs[k - 1].Padding? then [] else [k - 1]
  }

  lemma PassWhole(plan: Plan, t: Tally)
    requires t.next < |plan.records| && !Damaged(plan, t.next) && t.got == Kept(plan.records, t.next)
    ensures var t' := Pass(plan, t);
            t'.next == t.next + 1 && t'.got == Kept(plan.records, t'.next) && t'.partial == t.partial
                && t'.intact == t.intact
  {
    hide HeaderLost, RecordLost, AlignsAfter;
  }

  lemma PassDamaged(plan: Plan, t: Tally)
    requires t.next < |plan.records| && Damaged(plan, t.next)
    ensures Pass(plan, t).partial
  {
    hide HeaderLost, RecordLost, ResumeOffset, FirstFrom, AlignsAfter;
  }

  lemma {:induction false} PartialStays(plan: Plan, t: Tally)
    requires t.next <= |plan.records| && t.partial
    ensures PassAll(plan, t).partial
    decreases |plan.records| - t.next
  {
    hide HeaderLost, RecordLost, ResumeOffset, FirstFrom, AlignsAfter;
    if t.next < |plan.records| {
      PartialStays(plan, Pass(plan, t));
    }
  }

  /** The walk is partial exactly when something that matters was lost, and otherwise hands on
      every record but padding. */
  lemma {:induction false} PartialExactly(plan: Plan, t: Tally)
    requires t.next <= |plan.records| && !t.partial && t.got == Kept(plan.records, t.next)
    ensures PassAll(plan, t).partial == AnyDamaged(plan, t.next)
    ensures !PassAll(plan, t).partial ==>
              PassAll(plan, t).got == Kept(plan.records, |plan.records|) && PassAll(plan, t).intact == t.intact
    decreases |plan.records| - t.next
  {
    hide Damaged, Pass;
    if t.next < |plan.records| {
      if Damaged(plan, t.next) {
        PassDamaged(plan, t);
        PartialStays(plan, Pass(plan, t));
      } else {
        PassWhole(plan, t);
        PartialExactly(plan, Pass(plan, t));
      }
    }
  }

  lemma {:induction false} KeptChosen(rs: seq<Record>, k: nat)
    requires k <= |rs|
    ensures Chosen(rs, Kept(rs, k)) && BlocksIn(rs, Kept(rs, k)) == BlocksUpTo(rs, k)
  {
    if k > 0 {
      KeptChosen(rs, k - 1);
      var front := Kept(rs, k - 1);
      if !rs[k - 1].Padding? {
        assert (front + [k - 1])[..|front + [k - 1]| - 1] == front;
      } else {
        assert front + [] == front;
      }
    }
  }

  lemma {:induction false} BlocksInBound(rs: seq<Record>, got: seq<nat>)
    requires Chosen(rs, got) && forall i, j :: 0 <= i < j < |got| ==> got[i] < got[j]
    ensures BlocksIn(rs, got) <= BlocksUpTo(rs, if got == [] then 0 else got[|got| - 1] + 1)
  {
    if got != [] {
      var front := got[..|got| - 1];
      BlocksInBound(rs, front);
      if front != [] {
        assert got[|got| - 2] < got[|got| - 1];
        BlocksGrow(rs, got[|got| - 2] + 1, got[|got| - 1]);
      }
    }
  }

  lemma {:induction false} BlocksGrow(rs: seq<Record>, j: nat, k: nat)
    requires j <= k <= |rs|
    ensures BlocksUpTo(rs, j) <= BlocksUpTo(rs, k)
  {
    if j < k { BlocksGrow(rs, j, k - 1); }
  }

  // ---- The theorem ----

  /** The frame as sent, the packets as received: what every damaged frame is assumed to be. */
  ghost predicate Arrival(rs: seq<Record>, segments: seq<Segment>, data: seq<byte>, g: StreamGeometry) {
    && FrameSent(rs, g, MaxBlockCount(g))
    && Received(Serialise(rs), segments, data) && Tiles(segments, |data|)
    && !RangeLost(segments, 0, HEADER_BYTES)
  }

  lemma ArrivalReadsHeader(rs: seq<Record>, segments: seq<Segment>, data: seq<byte>, g: StreamGeometry)
    requires Arrival(rs, segments, data, g)
    ensures |data| >= HEADER_BYTES && |data| % 4 == 0 && |data| == Total(rs) && Extended(ReadU32(data, 0))
    ensures AllPackable(rs) && rs != [] && rs[0].Header?
  {
    hide Tiles, RangeLost, Serialise, Word0, Word1, MaxBlockCount, TotalField, CodeField, ChromaField, WidthField,
         HeightField, SequenceField, ReadU32;
    ReceivedLength(Serialise(rs), segments, data);
    OffsetsAligned(rs, |rs|);
    assert Offset(rs, 0) == 0;
    HeaderRead(rs, segments, data, 0);
    HeaderFields(rs[0]);
  }

  /** Every resumption of this walk is at a record that was sent. */
  ghost predicate Truthful(rs: seq<Record>, segments: seq<Segment>, criticalPackets: nat, g: StreamGeometry) {
    TrueRun(PlanOf(rs, segments, criticalPackets, g), Outset(segments, criticalPackets))
  }

  /** A host that keeps its promise about packet starts makes it so under every loss pattern. */
  lemma PromiseKept(rs: seq<Record>, segments: seq<Segment>, criticalPackets: nat, g: StreamGeometry)
    requires Contiguous(segments) && HostAligns(PlanOf(rs, segments, criticalPackets, g))
    ensures Truthful(rs, segments, criticalPackets, g)
  {
    hide HostAligns, TrueRun, CoarseBlockCount, LeadingIntact;
    HostKeepsTrue(PlanOf(rs, segments, criticalPackets, g), Outset(segments, criticalPackets));
  }

  /** Parser and record-level walk start together. */
  lemma WalkStarts(rs: seq<Record>, segments: seq<Segment>, data: seq<byte>, criticalPackets: nat, g: StreamGeometry)
    requires Arrival(rs, segments, data, g)
    ensures AllPackable(rs)
    ensures Setting(InputOf(data, segments, criticalPackets, g), PlanOf(rs, segments, criticalPackets, g))
    ensures Follows(InputOf(data, segments, criticalPackets, g), PlanOf(rs, segments, criticalPackets, g),
                    Outset(segments, criticalPackets), StartOf(segments, criticalPackets))
  {
    hide RangeLost, Serialise, MaxBlockCount, CoarseBlockCount, LeadingIntact, FrameSent, Received;
    ArrivalReadsHeader(rs, segments, data, g);
    assert Offset(rs, 0) == 0;
    assert Slice(data, 0, 0) == [];
  }

  lemma RunDelivers(rs: seq<Record>, segments: seq<Segment>, data: seq<byte>, criticalPackets: nat, g: StreamGeometry)
    requires Arrival(rs, segments, data, g) && Truthful(rs, segments, criticalPackets, g)
    ensures var r := Run(InputOf(data, segments, criticalPackets, g), StartOf(segments, criticalPackets));
            && r.error.None?
            && FrameFollows(InputOf(data, segments, criticalPackets, g), PlanOf(rs, segments, criticalPackets, g),
                            Delivered(rs, segments, criticalPackets, g), r.frame)
  {
    hide Arrival, Setting, Follows, MaxBlockCount, CoarseBlockCount, LeadingIntact, Run, PassAll, TrueRun, FrameFollows;
    WalkStarts(rs, segments, data, criticalPackets, g);
    RunFollows(InputOf(data, segments, criticalPackets, g), PlanOf(rs, segments, criticalPackets, g),
               Outset(segments, criticalPackets), StartOf(segments, criticalPackets));
  }

  /** The sequence header is always handed on. */
  lemma HeaderDelivered(rs: seq<Record>, segments: seq<Segment>, criticalPackets: nat, g: StreamGeometry)
    requires rs != [] && rs[0].Header? && !HeaderLost(PlanOf(rs, segments, criticalPackets, g), 0)
    ensures var t := Delivered(rs, segments, criticalPackets, g); t.got != [] && t.got[0] == 0
  {
    hide HeaderLost, RecordLost, AlignsAfter, ResumeOffset, FirstFrom, CoarseBlockCount;
    var plan, t := PlanOf(rs, segments, criticalPackets, g), Outset(segments, criticalPackets);
    HeaderIsWhole(plan, 0);
    PassGenuine(plan, t);
    PassAllGenuine(plan, Pass(plan, t));
  }

  /** How many blocks come out: never more than announced, and all of them unless partial. */
  lemma BlocksDelivered(rs: seq<Record>, segments: seq<Segment>, criticalPackets: nat, g: StreamGeometry)
    ensures var plan, t := PlanOf(rs, segments, criticalPackets, g), Delivered(rs, segments, criticalPackets, g);
            && Genuine(plan, t.got, |rs|) && Chosen(rs, t.got) && BlocksIn(rs, t.got) <= BlocksUpTo(rs, |rs|)
            && t.partial == AnyDamaged(plan, 0)
            && (!t.partial ==> t.got == Kept(rs, |rs|) && BlocksIn(rs, t.got) == BlocksUpTo(rs, |rs|))
  {
    hide PassAll, AnyDamaged, RecordLost, LeadingIntact, CoarseBlockCount;
    var plan, t := PlanOf(rs, segments, criticalPackets, g), Outset(segments, criticalPackets);
    PassAllGenuine(plan, t);
    PartialExactly(plan, t);
    KeptChosen(rs, |rs|);
    var got := PassAll(plan, t).got;
    BlocksInBound(rs, got);
    BlocksGrow(rs, if got == [] then 0 else got[|got| - 1] + 1, |rs|);
  }

  lemma Announced(rs: seq<Record>, g: StreamGeometry, maxBlocks: nat)
    requires FrameSent(rs, g, maxBlocks)
    ensures rs != [] && rs[0].Header? && rs[0].totalBlocks == BlocksUpTo(rs, |rs|) < WORD && AllPackable(rs)
  {
    assert Packable(rs[0]);
  }

  /** Every loss pattern that spares the first 8 bytes of a frame and has the parser resume on records sent
      only, as it always does when the host keeps its promise: parse succeeds; what it hands on is, byte for
      byte, the encodings of some of the records sent, in order, the sequence header first, none of them
      padding and none missing a byte; and it is partial exactly when a header or a block was damaged, in
      which case alone anything but padding is missing. */
  lemma DamagedFrame(rs: seq<Record>, segments: seq<Segment>, data: seq<byte>, criticalPackets: nat, g: StreamGeometry)
    requires Arrival(rs, segments, data, g) && Truthful(rs, segments, criticalPackets, g)
    ensures var r := ParseResult(data, segments, criticalPackets, g);
            var plan, t := PlanOf(rs, segments, criticalPackets, g), Delivered(rs, segments, criticalPackets, g);
            && r.error.None? && AllPackable(rs) && Chosen(rs, t.got)
            && SpanBytes(data, r.frame.spans) == Gather(rs, t.got)
            && Genuine(plan, t.got, |rs|) && t.got != [] && t.got[0] == 0
            && r.frame.blockRecords == BlocksIn(rs, t.got) && r.frame.announcedBlocks == BlocksUpTo(rs, |rs|)
            && r.frame.partial == t.partial == AnyDamaged(plan, 0)
            && r.frame.coarseLevelIntact == t.intact
            && (!t.partial ==> t.got == Kept(rs, |rs|) && r.frame.blockRecords == r.frame.announcedBlocks)
  {
    hide Run, FrameSent, Received, Serialise, RangeLost, MaxBlockCount, CoarseBlockCount, LeadingIntact, Delivered,
         Genuine, AnyDamaged, Truthful, Tiles, Gather, SpanBytes, Kept, BlocksUpTo, BlocksIn, Chosen;
    Announced(rs, g, MaxBlockCount(g));
    ArrivalReadsHeader(rs, segments, data, g);
    RunDelivers(rs, segments, data, criticalPackets, g);
    HeaderSpared(rs, segments, criticalPackets, g);
    HeaderDelivered(rs, segments, criticalPackets, g);
    BlocksDelivered(rs, segments, criticalPackets, g);
  }

  lemma OneHeader(rs: seq<Record>, g: StreamGeometry, maxBlocks: nat)
    requires FrameSent(rs, g, maxBlocks)
    ensures forall k :: 0 < k < |rs| ==> !rs[k].Header?
  {
    hide Packable, BlocksUpTo;
    forall k | 0 < k < |rs| ensures !rs[k].Header? {
      assert BodyRecord(rs[k], rs[0].sequence, maxBlocks);
    }
  }

  lemma HeaderSpared(rs: seq<Record>, segments: seq<Segment>, criticalPackets: nat, g: StreamGeometry)
    requires rs != [] && !RangeLost(segments, 0, HEADER_BYTES)
    ensures !HeaderLost(PlanOf(rs, segments, criticalPackets, g), 0)
  {
    assert Offset(rs, 0) == 0;
  }
}
