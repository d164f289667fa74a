/** When the parser loses no more than the network did, and what its verdict on the coarsest level is worth. */
module Verdicts {
  import opened Words
  import opened Geometry
  import opened PacketMap
  import opened FramingSpec
  import opened FramingSound
  import opened Sender
  import opened Recovery
  import opened Delivery

  // ---- The layouts hosts promise ----

  ghost predicate RecordsUncut(plan: Plan, m: nat) {
    forall k :: m <= k < |plan.records| ==>
      InOnePacket(plan.segments, Offset(plan.records, k), Offset(plan.records, k + 1))
  }

  /** The host's order, without flags: up to record m no finer record but oversized ones, from m on no record
      that crosses a packet boundary. */
  ghost predicate HostLayout(plan: Plan, m: nat) {
    && m <= |plan.records| && RecordsUncut(plan, m)
    && forall k :: 0 <= k < m && plan.records[k].Block? && plan.records[k].index >= plan.coarseBlocks
         ==> Oversized(plan.segments, plan.records[k])
  }

  lemma {:induction false} RecordHolding(rs: seq<Record>, b: nat, n: nat) returns (k: nat)
    requires n <= |rs| && b < Offset(rs, n)
    ensures k < n && Offset(rs, k) <= b < Offset(rs, k + 1)
  {
    if Offset(rs, n - 1) <= b { k := n - 1; } else { k := RecordHolding(rs, b, n - 1); }
  }

  /** A packet that starts among uncut records starts with one of them. */
  lemma UncutStart(plan: Plan, m: nat, i: nat)
    requires m <= |plan.records| && RecordsUncut(plan, m) && Tiles(plan.segments, Total(plan.records))
    requires i < |plan.segments| && plan.segments[i].offset >= Offset(plan.records, m)
    ensures IsBoundary(plan.records, plan.segments[i].offset)
  {
    hide Offset;
    var rs, o := plan.records, plan.segments[i].offset;
    SegmentInside(plan.segments, Total(rs), i);
    var k := RecordHolding(rs, o, |rs|);
    if k < m { OffsetsGrow(rs, k + 1, m); }
    var j :| 0 <= j < |plan.segments| && plan.segments[j].offset <= Offset(rs, k)
        && Offset(rs, k + 1) <= End(plan.segments[j]);
    HolderUnique(plan.segments, o, i, j);
    assert Offset(rs, k) == o;
  }

  lemma SegmentInside(segments: seq<Segment>, size: nat, i: nat)
    requires Tiles(segments, size) && i < |segments|
    ensures segments[i].offset < End(segments[i]) <= size
  {
    if i < |segments| - 1 { StartsGrow(segments, i, |segments| - 1); }
  }

  /** The layout is all unflagged recovery needs: wherever the parser infers that later packets
      start with records, they do. */
  lemma LayoutAligns(plan: Plan, m: nat)
    requires HostLayout(plan, m) && Tiles(plan.segments, Total(plan.records)) && !Flagged(plan.segments)
    ensures HostAligns(plan)
  {
    hide Offset, InOnePacket, IsBoundary, RecordsUncut;
    var rs := plan.records;
    forall k | 0 <= k < |rs| && rs[k].Block? && AlignsAfter(plan, k, rs[k].index)
      ensures LaterBoundaries(plan, Offset(rs, k + 1))
    {
      assert k >= m;
      OffsetsGrow(rs, m, k + 1);
      forall i | 0 <= i < |plan.segments| && plan.segments[i].offset >= Offset(rs, k + 1)
        ensures IsBoundary(rs, plan.segments[i].offset)
      {
        UncutStart(plan, m, i);
      }
    }
  }

  // ---- Every packet starts with a record: the parser loses only what the network lost ----

  /** Every packet starts with a record, and those received are flagged. */
  ghost predicate AllFlagged(plan: Plan) {
    && plan.segments != [] && Contiguous(plan.segments) && plan.segments[0].offset == 0
    && plan.segments[0].recordStart
    && forall i :: 0 <= i < |plan.segments| ==>
        (plan.segments[i].lost || plan.segments[i].recordStart) && IsBoundary(plan.records, plan.segments[i].offset)
  }

  /** The records other than padding among the first k that lost no byte. */
  ghost function Arrived(plan: Plan, k: nat): seq<nat>
    requires k <= |plan.records|
  {
    if k == 0 then []
    else Arrived(plan, k - 1) + if plan.records[k - 1].Padding? || RecordLost(plan, k - 1) then [] else [k - 1]
  }

  /** Everything between a lost header and the next received packet is lost. */
  lemma LostBetween(plan: Plan, t: Tally, j: nat)
    requires AllFlagged(plan) && End(plan.segments[|plan.segments| - 1]) == Total(plan.records)
    requires t.next < |plan.records| && HeaderLost(plan, t.next) && t.next <= j < |plan.records|
    requires Offset(plan.records, j) < ResumeOffset(plan, t)
    ensures RecordLost(plan, j)
  {
    hide Offset, NextReceived, IsBoundary;
    var rs, p, o := plan.records, Offset(plan.records, t.next), Offset(plan.records, j);
    OffsetsGrow(rs, t.next, j);
    OffsetsGrow(rs, j, j + 1);
    OffsetsGrow(rs, j + 1, |rs|);
    var i := HolderExists(plan.segments, o, |plan.segments|);
    if plan.segments[i].offset > p {
      NextReceivedLeast(plan.segments, p, true);
      assert plan.segments[i].lost;
    } else {
      HeaderInOne(plan, t.next, i);
    }
    assert ByteLost(plan.segments, o);
  }

  /** A record does not cross into a packet that starts with a record. */
  lemma NoneInside(rs: seq<Record>, k: nat, o: nat)
    requires k < |rs| && IsBoundary(rs, o)
    ensures !(Offset(rs, k) < o < Offset(rs, k + 1))
  {
    var j :| 0 <= j <= |rs| && Offset(rs, j) == o;
    if j <= k { OffsetsGrow(rs, j, k); } else { OffsetsGrow(rs, k + 1, j); }
  }

  lemma HeaderInOne(plan: Plan, k: nat, i: nat)
    requires AllFlagged(plan) && k < |plan.records| && HeaderLost(plan, k)
    requires i < |plan.segments| && Holds(plan.segments[i], Offset(plan.records, k))
    ensures plan.segments[i].lost
  {
    hide Offset, IsBoundary;
    var rs, p := plan.records, Offset(plan.records, k);
    var b :| p <= b < p + HEADER_BYTES && ByteLost(plan.segments, b);
    var j :| 0 <= j < |plan.segments| && plan.segments[j].lost && Holds(plan.segments[j], b);
    OffsetsGrow(rs, k, k + 1);
    NoneInside(rs, k, plan.segments[j].offset);
    HolderUnique(plan.segments, p, i, j);
  }

  lemma {:induction false} ArrivedSkips(plan: Plan, j: nat, k: nat)
    requires j <= k <= |plan.records| && forall i :: j <= i < k ==> RecordLost(plan, i)
    ensures Arrived(plan, k) == Arrived(plan, j)
  {
    hide RecordLost;
    if j < k { ArrivedSkips(plan, j, k - 1); }
  }

  lemma {:induction false} BeforeFirst(rs: seq<Record>, o: nat, j: nat, i: nat)
    requires j <= |rs| && j <= i < FirstFrom(rs, o, j)
    ensures i < |rs| && Offset(rs, i) < o
    decreases |rs| - j
  {
    if j < i { BeforeFirst(rs, o, j + 1, i); }
  }

  lemma PassArrived(plan: Plan, t: Tally)
    requires AllFlagged(plan) && End(plan.segments[|plan.segments| - 1]) == Total(plan.records)
    requires t.next < |plan.records| && t.got == Arrived(plan, t.next)
    ensures Pass(plan, t).got == Arrived(plan, Pass(plan, t).next)
  {
    hide AllFlagged, HeaderLost, RecordLost, ResumeOffset, FirstFrom, AlignsAfter, Offset;
    var k, t' := t.next, Pass(plan, t);
    if HeaderLost(plan, k) {
      ResumesLater(plan, t);
      forall i | k <= i < t'.next ensures RecordLost(plan, i) {
        if i > k { BeforeFirst(plan.records, ResumeOffset(plan, t), k + 1, i); }
        LostBetween(plan, t, i);
      }
      ArrivedSkips(plan, k, t'.next);
    } else if plan.records[k].Header? {
      HeaderIsWhole(plan, k);
    }
  }

  lemma {:induction false} PassAllArrived(plan: Plan, t: Tally)
    requires AllFlagged(plan) && End(plan.segments[|plan.segments| - 1]) == Total(plan.records)
    requires t.next <= |plan.records| && t.got == Arrived(plan, t.next)
    ensures PassAll(plan, t).got == Arrived(plan, |plan.records|)
    decreases |plan.records| - t.next
  {
    hide AllFlagged, Pass, Arrived;
    if t.next < |plan.records| {
      PassArrived(plan, t);
      PassAllArrived(plan, Pass(plan, t));
    }
  }

  /** Record k came whole in one received packet. */
  ghost predicate CarriedWhole(plan: Plan, k: nat)
    requires k < |plan.records|
  {
    exists i :: 0 <= i < |plan.segments| && !plan.segments[i].lost
             && plan.segments[i].offset <= Offset(plan.records, k)
             && Offset(plan.records, k + 1) <= End(plan.segments[i])
  }

  /** With every packet starting on a record, a record is in one packet, and arrives with it. */
  lemma CarriedOrLost(plan: Plan, k: nat)
    requires AllFlagged(plan) && End(plan.segments[|plan.segments| - 1]) == Total(plan.records) && k < |plan.records|
    ensures RecordLost(plan, k) <==> !CarriedWhole(plan, k)
  {
    hide Offset, IsBoundary;
    var rs, segments := plan.records, plan.segments;
    OffsetsGrow(rs, k, k + 1);
    OffsetsGrow(rs, k + 1, |rs|);
    var i := HolderExists(segments, Offset(rs, k), |segments|);
    assert Offset(rs, k + 1) <= End(segments[i]) by {
      if i + 1 < |segments| { NoneInside(rs, k, segments[i + 1].offset); }
    }
    forall b, j | Offset(rs, k) <= b < Offset(rs, k + 1) && 0 <= j < |segments| && Holds(segments[j], b)
      ensures j == i {
      HolderUnique(segments, b, i, j);
    }
    if segments[i].lost {
      assert ByteLost(segments, Offset(rs, k));
      forall j | 0 <= j < |segments| && segments[j].offset <= Offset(rs, k) && Offset(rs, k + 1) <= End(segments[j])
        ensures j == i {
        assert Holds(segments[j], Offset(rs, k));
      }
    }
  }

  lemma {:induction false} ArrivedMembers(plan: Plan, n: nat, k: nat)
    requires n <= |plan.records|
    ensures k in Arrived(plan, n) <==> k < n && !plan.records[k].Padding? && !RecordLost(plan, k)
  {
    hide RecordLost;
    if n > 0 { ArrivedMembers(plan, n - 1, k); }
  }

  /** Nothing damaged means nothing lost, when every packet starts with a record. */
  lemma AnyLostDamages(plan: Plan)
    requires AllFlagged(plan) && End(plan.segments[|plan.segments| - 1]) == Total(plan.records)
    ensures AnyDamaged(plan, 0) == AnyLost(plan.segments)
  {
    hide Offset;
    var rs, segments := plan.records, plan.segments;
    if AnyLost(segments) {
      var i :| 0 <= i < |segments| && segments[i].lost;
      var k :| 0 <= k <= |rs| && Offset(rs, k) == segments[i].offset;
      SegmentInside(segments, Total(rs), i);
      assert Holds(segments[i], Offset(rs, k)) && ByteLost(segments, Offset(rs, k));
      assert HeaderLost(plan, k);
      assert Damaged(plan, k);
    }
  }

  /** Every packet starts with a record, flagged if received: parse succeeds, the records delivered are exactly
      those that are not padding and came in a received packet, and partial says whether any packet was lost. */
  lemma FlaggedFrame(rs: seq<Record>, segments: seq<Segment>, data: seq<byte>, criticalPackets: nat, g: StreamGeometry)
    requires Arrival(rs, segments, data, g) && AllFlagged(PlanOf(rs, segments, criticalPackets, g))
    ensures var r := ParseResult(data, segments, criticalPackets, g);
            var plan, got := PlanOf(rs, segments, criticalPackets, g), Delivered(rs, segments, criticalPackets, g).got;
            && r.error.None? && AllPackable(rs) && Chosen(rs, got) && SpanBytes(data, r.frame.spans) == Gather(rs, got)
            && (forall k :: k in got <==> 0 <= k < |rs| && !rs[k].Padding? && CarriedWhole(plan, k))
            && r.frame.partial == AnyLost(segments)
  {
    hide ParseResult, RecordLost, CarriedWhole, FrameSent, Received, RangeLost, Gather, Chosen, SpanBytes, Genuine,
         AnyLost, Serialise, IsBoundary, CoarseBlockCount, MaxBlockCount, Packable, PassAll;
    var plan, got := PlanOf(rs, segments, criticalPackets, g), Delivered(rs, segments, criticalPackets, g).got;
    ArrivalReadsHeader(rs, segments, data, g);
    assert HostAligns(plan);
    PromiseKept(rs, segments, criticalPackets, g);
    DamagedFrame(rs, segments, data, criticalPackets, g);
    PassAllArrived(plan, Outset(segments, criticalPackets));
    AnyLostDamages(plan);
    forall k | 0 <= k < |rs| ensures k in got <==> !rs[k].Padding? && CarriedWhole(plan, k) {
      ArrivedMembers(plan, |rs|, k);
      CarriedOrLost(plan, k);
    }
    forall k | k in got ensures 0 <= k < |rs| {
      ArrivedMembers(plan, |rs|, k);
    }
  }

  // ---- The coarsest level ----

  ghost predicate CoarseRecord(plan: Plan, k: nat)
    requires k < |plan.records|
  {
    plan.records[k].Block? && plan.records[k].index < plan.coarseBlocks
  }

  /** What the host promises of the coarsest level: with a count announced, its records are within
      that many packets; without, they precede every finer block. */
  ghost predicate CoarseFirst(plan: Plan, criticalPackets: nat) {
    if plan.coarseKnown then
      criticalPackets > 0 && plan.segments != []
      && (forall k :: 0 <= k < |plan.records| && CoarseRecord(plan, k)
            ==> Offset(plan.records, k + 1) <= End(plan.segments[Min(criticalPackets, |plan.segments|) - 1]))
    else
      forall j, k :: 0 <= j < k < |plan.records| && plan.records[j].Block? && CoarseRecord(plan, k) ==>
        CoarseRecord(plan, j)
  }

  ghost predicate CoarseGot(plan: Plan, t: Tally) {
    forall k :: 0 <= k < t.next && k < |plan.records| && CoarseRecord(plan, k) ==> k in t.got
  }

  /** Once a finer block was passed, no coarse one is left. */
  ghost predicate PastTruly(plan: Plan, t: Tally) {
    t.pastCoarse ==> forall k :: t.next <= k < |plan.records| ==> !CoarseRecord(plan, k)
  }

  lemma PassCoarseInferred(plan: Plan, t: Tally, criticalPackets: nat)
    requires !plan.coarseKnown && CoarseFirst(plan, criticalPackets) && t.next < |plan.records|
    requires PastTruly(plan, t) && (t.intact ==> CoarseGot(plan, t))
    ensures PastTruly(plan, Pass(plan, t)) && (Pass(plan, t).intact ==> CoarseGot(plan, Pass(plan, t)))
  {
    hide HeaderLost, RecordLost, ResumeOffset, FirstFrom, AlignsAfter;
    if plan.records[t.next].Block? && !CoarseRecord(plan, t.next) {
      assert forall k :: t.next < k < |plan.records| ==> !CoarseRecord(plan, k);
    }
  }

  /** The records within the leading packets lost nothing when those packets did not. */
  lemma LeadingWhole(plan: Plan, count: nat, lo: nat, hi: nat)
    requires Contiguous(plan.segments) && 0 < count <= |plan.segments| && plan.segments[0].offset == 0
    requires LeadingIntact(plan.segments, count) && hi <= End(plan.segments[count - 1])
    ensures !RangeLost(plan.segments, lo, hi)
  {
    forall b, i | lo <= b < hi && 0 <= i < |plan.segments| && Holds(plan.segments[i], b)
      ensures !plan.segments[i].lost {
      var j := HolderExists(plan.segments, b, count);
      HolderUnique(plan.segments, b, i, j);
    }
  }

  lemma PassCoarseAnnounced(plan: Plan, t: Tally, criticalPackets: nat)
    requires plan.coarseKnown && CoarseFirst(plan, criticalPackets) && t.next < |plan.records|
    requires criticalPackets > 0 && plan.segments != [] && Contiguous(plan.segments) && plan.segments[0].offset == 0
    requires LeadingIntact(plan.segments, criticalPackets) && CoarseGot(plan, t)
    ensures CoarseGot(plan, Pass(plan, t))
  {
    hide HeaderLost, RecordLost, ResumeOffset, FirstFrom, AlignsAfter, Offset, LeadingIntact, CoarseFirst;
    var t' := Pass(plan, t);
    forall k | 0 <= k < t'.next && k < |plan.records| && CoarseRecord(plan, k) ensures k in t'.got {
      if k >= t.next {
        CoarseUnharmed(plan, criticalPackets, t.next, k);
      }
    }
  }

  lemma CoarseUnharmed(plan: Plan, criticalPackets: nat, j: nat, k: nat)
    requires plan.coarseKnown && CoarseFirst(plan, criticalPackets) && j <= k < |plan.records| && CoarseRecord(plan, k)
    requires criticalPackets > 0 && plan.segments != [] && Contiguous(plan.segments) && plan.segments[0].offset == 0
    requires LeadingIntact(plan.segments, criticalPackets)
    ensures !HeaderLost(plan, j) && !RecordLost(plan, j)
  {
    hide Offset, RangeLost, Contiguous;
    var rs, count := plan.records, Min(criticalPackets, |plan.segments|);
    OffsetsGrow(rs, j, j + 1);
    OffsetsGrow(rs, j + 1, k + 1);
    LeadingWhole(plan, count, Offset(rs, j), Offset(rs, j) + HEADER_BYTES);
    LeadingWhole(plan, count, Offset(rs, j), Offset(rs, j + 1));
  }

  lemma PassKnown(plan: Plan, t: Tally)
    requires plan.coarseKnown && t.next < |plan.records|
    ensures Pass(plan, t).intact == t.intact
  {
    hide HeaderLost, RecordLost, ResumeOffset, FirstFrom, AlignsAfter;
  }

  lemma {:induction false} PassAllCoarse(plan: Plan, t: Tally, criticalPackets: nat)
    requires CoarseFirst(plan, criticalPackets) && t.next <= |plan.records|
    requires t.intact ==> CoarseGot(plan, t)
    requires plan.coarseKnown ==>
               && criticalPackets > 0 && plan.segments != [] && Contiguous(plan.segments)
               && plan.segments[0].offset == 0
               && t.intact == LeadingIntact(plan.segments, criticalPackets)
    requires !plan.coarseKnown ==> PastTruly(plan, t)
    ensures PassAll(plan, t).intact ==> CoarseGot(plan, PassAll(plan, t))
    ensures plan.coarseKnown ==> PassAll(plan, t).intact == LeadingIntact(plan.segments, criticalPackets)
    decreases |plan.records| - t.next
  {
    hide Pass, CoarseFirst, CoarseGot, PastTruly, LeadingIntact, Contiguous;
    if t.next < |plan.records| {
      if plan.coarseKnown {
        PassKnown(plan, t);
        if t.intact { PassCoarseAnnounced(plan, t, criticalPackets); }
      } else {
        PassCoarseInferred(plan, t, criticalPackets);
      }
      PassAllCoarse(plan, Pass(plan, t), criticalPackets);
    }
  }

  /** The coarse verdict can be trusted: a frame parsed with the coarsest level intact hands on every
      coarse block sent, whether the host announced its packets or only sent it first. With the
      packets announced, the verdict is exactly whether they all came. */
  lemma CoarseVerdict(rs: seq<Record>, segments: seq<Segment>, data: seq<byte>, criticalPackets: nat, g: StreamGeometry)
    requires Arrival(rs, segments, data, g) && Truthful(rs, segments, criticalPackets, g)
    requires CoarseFirst(PlanOf(rs, segments, criticalPackets, g), criticalPackets)
    ensures var r := ParseResult(data, segments, criticalPackets, g);
            var plan, got := PlanOf(rs, segments, criticalPackets, g), Delivered(rs, segments, criticalPackets, g).got;
            && r.error.None? && AllPackable(rs) && Chosen(rs, got) && SpanBytes(data, r.frame.spans) == Gather(rs, got)
            && (r.frame.coarseLevelIntact ==> forall k :: 0 <= k < |rs| && CoarseRecord(plan, k) ==> k in got)
            && (criticalPackets > 0 && segments != [] ==>
                (r.frame.coarseLevelIntact <==>
                 forall i :: 0 <= i < |segments| && i < criticalPackets ==> !segments[i].lost))
  {
    hide ParseResult, FrameSent, Received, RangeLost, Gather, Chosen, SpanBytes, Genuine, Serialise, Truthful,
         CoarseFirst, Contiguous, CoarseBlockCount, MaxBlockCount, Packable, PassAll, LeadingIntact, CoarseRecord,
         AnyDamaged;
    var plan, t := PlanOf(rs, segments, criticalPackets, g), Outset(segments, criticalPackets);
    DamagedFrame(rs, segments, data, criticalPackets, g);
    PassAllCoarse(plan, t, criticalPackets);
    PassAllEnds(plan, t);
    LeadingMeans(segments, criticalPackets);
  }

  lemma LeadingMeans(segments: seq<Segment>, count: nat)
    ensures LeadingIntact(segments, count) <==> forall i :: 0 <= i < |segments| && i < count ==> !segments[i].lost
  {
  }

  lemma {:induction false} PassAllEnds(plan: Plan, t: Tally)
    requires t.next <= |plan.records|
    ensures PassAll(plan, t).next == |plan.records|
    decreases |plan.records| - t.next
  {
    hide Pass;
    if t.next < |plan.records| { PassAllEnds(plan, Pass(plan, t)); }
  }

  /** The first record to be damaged. */
  ghost predicate FirstDamaged(plan: Plan, n: nat) {
    n < |plan.records| && Damaged(plan, n) && forall j :: 0 <= j < n ==> !Damaged(plan, j)
  }

  /** The header of a finer block among the first n records was received. */
  ghost predicate FinerSeen(plan: Plan, n: nat)
    requires n <= |plan.records|
  {
    exists i :: 0 <= i < n && plan.records[i].Block? && !CoarseRecord(plan, i) && !HeaderLost(plan, i)
  }

  /** The header of a finer block was received up to the first record damaged, if any was. */
  ghost predicate SeenInTime(plan: Plan) {
    forall n: nat :: FirstDamaged(plan, n) ==> FinerSeen(plan, n + 1)
  }

  lemma FinerSeenNext(plan: Plan, n: nat)
    requires n < |plan.records|
    ensures FinerSeen(plan, n + 1) <==>
            (FinerSeen(plan, n) || (plan.records[n].Block? && !CoarseRecord(plan, n) && !HeaderLost(plan, n)))
  {
    hide HeaderLost, CoarseRecord;
  }

  /** Once a finer block was seen, or the coarsest level counted as damaged, the verdict stands. */
  lemma {:induction false} VerdictStands(plan: Plan, t: Tally)
    requires t.next <= |plan.records| && (t.pastCoarse || !t.intact)
    ensures PassAll(plan, t).intact == t.intact
    decreases |plan.records| - t.next
  {
    hide HeaderLost, RecordLost, ResumeOffset, FirstFrom, AlignsAfter;
    if t.next < |plan.records| { VerdictStands(plan, Pass(plan, t)); }
  }

  lemma PassSeen(plan: Plan, t: Tally)
    requires !plan.coarseKnown && t.next < |plan.records| && t.intact && (t.pastCoarse <==> FinerSeen(plan, t.next))
    ensures Pass(plan, t).pastCoarse <==> FinerSeen(plan, t.next + 1)
    ensures Pass(plan, t).intact <==> !Damaged(plan, t.next) || FinerSeen(plan, t.next + 1)
    ensures !Damaged(plan, t.next) ==> Pass(plan, t).next == t.next + 1
  {
    hide HeaderLost, RecordLost, ResumeOffset, FirstFrom, AlignsAfter, FinerSeen;
    FinerSeenNext(plan, t.next);
  }

  lemma {:induction false} InferredExactly(plan: Plan, t: Tally)
    requires !plan.coarseKnown && t.next <= |plan.records| && t.intact && (t.pastCoarse <==> FinerSeen(plan, t.next))
    requires forall j :: 0 <= j < t.next ==> !Damaged(plan, j)
    ensures PassAll(plan, t).intact <==> SeenInTime(plan)
    decreases |plan.records| - t.next
  {
    hide Pass, Damaged, FinerSeen;
    if t.next < |plan.records| {
      PassSeen(plan, t);
      if Damaged(plan, t.next) {
        assert FirstDamaged(plan, t.next);
        VerdictStands(plan, Pass(plan, t));
      } else {
        InferredExactly(plan, Pass(plan, t));
      }
    }
  }

  /** Without an announcement the verdict is exactly: nothing was damaged, or the header of a finer block was
      received up to the first record that was. */
  lemma CoarseExactly(rs: seq<Record>, segments: seq<Segment>, data: seq<byte>, criticalPackets: nat, g: StreamGeometry)
    requires Arrival(rs, segments, data, g) && Truthful(rs, segments, criticalPackets, g)
    requires criticalPackets == 0 || segments == []
    ensures var plan := PlanOf(rs, segments, criticalPackets, g);
            ParseResult(data, segments, criticalPackets, g).frame.coarseLevelIntact <==> SeenInTime(plan)
  {
    hide ParseResult, Arrival, Truthful, SeenInTime, CoarseBlockCount, MaxBlockCount, PassAll, AnyDamaged, Genuine,
         LeadingIntact;
    assert !FinerSeen(PlanOf(rs, segments, criticalPackets, g), 0);
    DamagedFrame(rs, segments, data, criticalPackets, g);
    InferredExactly(PlanOf(rs, segments, criticalPackets, g), Outset(segments, criticalPackets));
  }

  // ---- The verdict on frames that are not partial ----

  lemma StepVerdict(input: Input, w: Walk)
    requires w.pos < |input.data| && Step(input, w).Next?
    ensures var frame := Step(input, w).walk.frame;
            !frame.partial ==> !w.frame.partial && frame.coarseLevelIntact == w.frame.coarseLevelIntact
  {
    hide RangeLost, LaterPacketsAligned, Resume, HeaderError, ReadU32, SequenceField, PayloadWordsField, IndexField,
         TotalField;
  }

  lemma {:induction false} RunVerdict(input: Input, w: Walk)
    requires w.pos <= |input.data|
    ensures var frame := Run(input, w).frame;
            !frame.partial ==> !w.frame.partial && frame.coarseLevelIntact == w.frame.coarseLevelIntact
    decreases |input.data| - w.pos
  {
    hide Step;
    if w.pos < |input.data| && Step(input, w).Next? {
      StepVerdict(input, w);
      RunVerdict(input, Step(input, w).walk);
    }
  }

  /** The header's remark that the coarsest level is always intact when the frame is not partial
      (pyrowaveframing.h:80), put right: any bytes, any map, either framing, a frame that is not
      partial has it intact exactly when no announced critical packet was lost. */
  lemma WholeFrameVerdict(data: seq<byte>, segments: seq<Segment>, criticalPackets: nat, g: StreamGeometry)
    requires ParseResult(data, segments, criticalPackets, g).error.None?
    requires !ParseResult(data, segments, criticalPackets, g).frame.partial
    ensures ParseResult(data, segments, criticalPackets, g).frame.coarseLevelIntact <==>
            forall i :: 0 <= i < |segments| && i < criticalPackets ==> !segments[i].lost
  {
    hide Run, PacketsRun, RangeLost, MaxBlockCount, CoarseBlockCount, Tiles;
    if Extended(ReadU32(data, 0)) {
      RunVerdict(InputOf(data, segments, criticalPackets, g), StartOf(segments, criticalPackets));
    } else {
      LengthPrefixedKind(data, AnyLost(segments), g);
    }
  }

  /** Where the remark fails: padding alone was lost, in a packet counted as critical. */
  lemma PaddingLost(rs: seq<Record>, segments: seq<Segment>, data: seq<byte>, criticalPackets: nat, g: StreamGeometry)
    requires Arrival(rs, segments, data, g) && Truthful(rs, segments, criticalPackets, g)
    requires !AnyDamaged(PlanOf(rs, segments, criticalPackets, g), 0)
    ensures var r := ParseResult(data, segments, criticalPackets, g);
            && r.error.None? && !r.frame.partial
            && (r.frame.coarseLevelIntact <==>
                forall i :: 0 <= i < |segments| && i < criticalPackets ==> !segments[i].lost)
  {
    hide *;
    DamagedFrame(rs, segments, data, criticalPackets, g);
    WholeFrameVerdict(data, segments, criticalPackets, g);
  }

  /** A frame of no blocks and two words of padding, the second of them lost. */
  function PaddedRecords(): seq<Record> {
    [Header(127, 127, 0, 0, 0, 0, 0), Padding(2)]
  }

  function PaddedPackets(): seq<Segment> {
    [Segment(0, 16, false, true), Segment(16, 8, true, false)]
  }

  lemma PaddedSent(g: StreamGeometry, maxBlocks: nat)
    requires g == StreamGeometry(128, 128, false)
    ensures FrameSent(PaddedRecords(), g, maxBlocks) && Offset(PaddedRecords(), 1) == 8
            && Offset(PaddedRecords(), 2) == 24
  {
    var rs := PaddedRecords();
    assert forall k :: 0 < k < |rs| ==> BodyRecord(rs[k], rs[0].sequence, maxBlocks);
  }

  lemma PaddedLosses(lo: nat, hi: nat)
    requires hi <= 16
    ensures !RangeLost(PaddedPackets(), lo, hi)
  {
  }

  /** ... and it is decoded whole, yet not counted as intact. */
  lemma WholeYetNotIntact(g: StreamGeometry)
    requires g == StreamGeometry(128, 128, false)
    ensures AllPackable(PaddedRecords())
    ensures var r := ParseResult(Serialise(PaddedRecords()), PaddedPackets(), 2, g);
            r.error.None? && !r.frame.partial && !r.frame.coarseLevelIntact
  {
    hide MaxBlockCount, CoarseBlockCount, ParseResult, FrameSent, Serialise, RangeLost, Offset, InOnePacket;
    var rs, segments := PaddedRecords(), PaddedPackets();
    var plan := PlanOf(rs, segments, 2, g);
    PaddedSent(g, MaxBlockCount(g));
    Announced(rs, g, MaxBlockCount(g));
    PaddedLosses(0, 8);
    PaddedLosses(8, 16);
    assert Offset(rs, 0) == 0 by { PaddedStart(rs); }
    assert Arrival(rs, segments, Serialise(rs), g);
    assert HostAligns(plan);
    PromiseKept(rs, segments, 2, g);
    assert forall k :: 0 <= k < |rs| ==> !Damaged(plan, k);
    PaddingLost(rs, segments, Serialise(rs), 2, g);
    assert segments[1].lost;
  }

  lemma PaddedStart(rs: seq<Record>)
    ensures Offset(rs, 0) == 0
  {
  }
}
