/** Which of the records sent are handed on, exactly, for the two kinds of host the parser recovers for: hosts
    that flag the packets starting with a record, and hosts that pack without flags. */
module Survivors {
  import opened Words
  import opened Geometry
  import opened PacketMap
  import opened FramingSpec
  import opened FramingSound
  import opened Sender
  import opened Recovery
  import opened Delivery
  import opened Verdicts

  // ---- Records the walk can reach ----

  /** The records among the first k that are not padding, lost no byte, and are within reach. */
  ghost function Surviving(plan: Plan, reach: iset<nat>, k: nat): seq<nat>
    requires k <= |plan.records|
  {
    if k == 0 then []
    else Surviving(plan, reach, k - 1) + if Survives(plan, reach, k - 1) then [k - 1] else []
  }

  ghost predicate Survives(plan: Plan, reach: iset<nat>, k: nat)
    requires k < |plan.records|
  {
    !plan.records[k].Padding? && !RecordLost(plan, k) && k in reach
  }

  lemma {:induction false} SurvivingMembers(plan: Plan, reach: iset<nat>, n: nat, k: nat)
    requires n <= |plan.records|
    ensures k in Surviving(plan, reach, n) <==> k < n && Survives(plan, reach, k)
  {
    hide RecordLost;
    if n > 0 { SurvivingMembers(plan, reach, n - 1, k); }
  }

  lemma {:induction false} SurvivingSkips(plan: Plan, reach: iset<nat>, j: nat, k: nat)
    requires j <= k <= |plan.records| && forall i :: j <= i < k ==> !Survives(plan, reach, i)
    ensures Surviving(plan, reach, k) == Surviving(plan, reach, j)
  {
    hide Survives;
    if j < k { SurvivingSkips(plan, reach, j, k - 1); }
  }

  /** The walk stands within reach, or skips only what does not survive. */
  ghost predicate Reaches(plan: Plan, reach: iset<nat>, t: Tally)
    requires t.next < |plan.records|
  {
    if HeaderLost(plan, t.next) then forall i :: t.next <= i < Pass(plan, t).next ==> !Survives(plan, reach, i)
    else t.next in reach
  }

  lemma PassSurvives(plan: Plan, reach: iset<nat>, t: Tally)
    requires t.next < |plan.records| && Reaches(plan, reach, t) && t.got == Surviving(plan, reach, t.next)
    ensures Pass(plan, t).got == Surviving(plan, reach, Pass(plan, t).next)
  {
    hide HeaderLost, RecordLost, ResumeOffset, FirstFrom, AlignsAfter;
    if HeaderLost(plan, t.next) {
      SurvivingSkips(plan, reach, t.next, Pass(plan, t).next);
    } else if plan.records[t.next].Header? {
      HeaderIsWhole(plan, t.next);
    }
  }

  /** A received packet the walk passed over. */
  lemma PassedPacket(plan: Plan, t: Tally, i: nat)
    requires Contiguous(plan.segments) && t.next < |plan.records| && (Flagged(plan.segments) || t.aligned)
    requires i < |plan.segments| && Offset(plan.records, t.next) < plan.segments[i].offset < ResumeOffset(plan, t)
    ensures !Resumable(plan.segments[i], Flagged(plan.segments))
  {
    hide Offset;
    NextReceivedLeast(plan.segments, Offset(plan.records, t.next), Flagged(plan.segments));
  }

  // ---- Hosts that flag ----

  /** Of the packets received, exactly those that start with a record are flagged. */
  ghost predicate TruthfulFlags(plan: Plan) {
    && plan.segments != [] && Contiguous(plan.segments) && plan.segments[0].offset == 0 && !plan.segments[0].lost
    && forall i :: 0 <= i < |plan.segments| && !plan.segments[i].lost ==>
        (plan.segments[i].recordStart <==> IsBoundary(plan.records, plan.segments[i].offset))
  }

  /** Record j starts a received packet, and from it to record k every header came. */
  ghost predicate ReachedFrom(plan: Plan, j: nat, k: nat) {
    && j <= k <= |plan.records|
    && (exists i :: 0 <= i < |plan.segments| && !plan.segments[i].lost
                 && plan.segments[i].offset == Offset(plan.records, j))
    && forall m :: j <= m < k ==> !HeaderLost(plan, m)
  }

  ghost predicate Reached(plan: Plan, k: nat) {
    exists j :: ReachedFrom(plan, j, k)
  }

  ghost function FlaggedReach(plan: Plan): iset<nat> {
    iset k: nat | Reached(plan, k)
  }

  lemma FlagsFlagged(plan: Plan)
    requires TruthfulFlags(plan)
    ensures Flagged(plan.segments) && HostAligns(plan)
  {
    assert Offset(plan.records, 0) == 0;
  }

  lemma NotPassedOver(plan: Plan, t: Tally, j: nat, k: nat)
    requires TruthfulFlags(plan) && t.next < j <= |plan.records| && Offset(plan.records, j) < ResumeOffset(plan, t)
    ensures !ReachedFrom(plan, j, k)
  {
    hide Offset, HeaderLost, NextReceived, ResumeOffset;
    FlagsFlagged(plan);
    OffsetsGrow(plan.records, t.next, j);
    forall i | 0 <= i < |plan.segments| && plan.segments[i].offset == Offset(plan.records, j)
      ensures plan.segments[i].lost
    {
      PassedPacket(plan, t, i);
    }
  }

  /** What a walk passes over after a lost header is out of reach. */
  lemma FlaggedSkip(plan: Plan, t: Tally)
    requires TruthfulFlags(plan) && t.next < |plan.records| && HeaderLost(plan, t.next)
    ensures Reaches(plan, FlaggedReach(plan), t)
  {
    hide Offset, RangeLost, ResumeOffset, TruthfulFlags, FirstFrom;
    var rs, n, next := plan.records, t.next, Pass(plan, t).next;
    OffsetsGrow(rs, n, n + 1);
    LostWithHeader(plan, n);
    forall k, j | n < k < next && ReachedFrom(plan, j, k) ensures false {
      if j > n {
        BeforeFirst(rs, ResumeOffset(plan, t), n + 1, j);
        NotPassedOver(plan, t, j, k);
      }
    }
  }

  lemma LostWithHeader(plan: Plan, k: nat)
    requires k < |plan.records| && HeaderLost(plan, k)
    ensures RecordLost(plan, k)
  {
  }

  /** It stops at a received packet that starts with a record. */
  lemma FlaggedResumes(plan: Plan, t: Tally)
    requires TruthfulFlags(plan) && t.next < |plan.records| && HeaderLost(plan, t.next)
    ensures Pass(plan, t).next < |plan.records| ==> Reached(plan, Pass(plan, t).next)
  {
    hide Offset, RangeLost, IsBoundary, FirstFrom;
    FlagsFlagged(plan);
    ResumesAtBoundary(plan, t);
    ResumeIndexRight(plan, t);
    NextReceivedLeast(plan.segments, Offset(plan.records, t.next), true);
    var next := Pass(plan, t).next;
    if next < |plan.records| {
      OffsetsGrow(plan.records, next, |plan.records|);
      assert ReachedFrom(plan, next, next);
    }
  }

  lemma {:induction false} FlaggedWalk(plan: Plan, t: Tally)
    requires TruthfulFlags(plan) && t.next <= |plan.records|
    requires t.next < |plan.records| ==> Reached(plan, t.next)
    requires t.got == Surviving(plan, FlaggedReach(plan), t.next)
    ensures PassAll(plan, t).got == Surviving(plan, FlaggedReach(plan), |plan.records|)
    decreases |plan.records| - t.next
  {
    hide Pass, TruthfulFlags, Surviving, HeaderLost, Survives;
    if t.next < |plan.records| {
      if HeaderLost(plan, t.next) {
        FlaggedSkip(plan, t);
        FlaggedResumes(plan, t);
      } else {
        var j :| ReachedFrom(plan, j, t.next);
        PassNext(plan, t);
        assert ReachedFrom(plan, j, t.next + 1);
      }
      PassSurvives(plan, FlaggedReach(plan), t);
      FlaggedWalk(plan, Pass(plan, t));
    }
  }

  lemma PassNext(plan: Plan, t: Tally)
    requires t.next < |plan.records| && !HeaderLost(plan, t.next)
    ensures Pass(plan, t).next == t.next + 1
  {
    hide HeaderLost, RecordLost, AlignsAfter;
  }

  /** Exactly what a host that flags gets through: the records that lost no byte and can be reached, header by
      header, from a received packet that starts with a record. */
  lemma FlaggedExactly(rs: seq<Record>, segments: seq<Segment>, data: seq<byte>, criticalPackets: nat,
                       g: StreamGeometry)
    requires Arrival(rs, segments, data, g) && TruthfulFlags(PlanOf(rs, segments, criticalPackets, g))
    ensures var r := ParseResult(data, segments, criticalPackets, g);
            var plan, got := PlanOf(rs, segments, criticalPackets, g), Delivered(rs, segments, criticalPackets, g).got;
            && r.error.None? && AllPackable(rs) && Chosen(rs, got) && SpanBytes(data, r.frame.spans) == Gather(rs, got)
            && forall k :: k in got <==> 0 <= k < |rs| && !rs[k].Padding? && !RecordLost(plan, k) && Reached(plan, k)
  {
    hide ParseResult, RecordLost, FrameSent, Received, RangeLost, Gather, Chosen, SpanBytes, Genuine, Serialise,
         TruthfulFlags, CoarseBlockCount, MaxBlockCount, Packable, PassAll, Reached, Surviving, HostAligns;
    var plan, got := PlanOf(rs, segments, criticalPackets, g), Delivered(rs, segments, criticalPackets, g).got;
    FlagsFlagged(plan);
    PromiseKept(rs, segments, criticalPackets, g);
    DamagedFrame(rs, segments, data, criticalPackets, g);
    StartReached(plan);
    FlaggedWalk(plan, Outset(segments, criticalPackets));
    forall k: nat ensures k in got <==> k < |rs| && Survives(plan, FlaggedReach(plan), k) {
      SurvivingMembers(plan, FlaggedReach(plan), |rs|, k);
    }
  }

  lemma StartReached(plan: Plan)
    requires TruthfulFlags(plan)
    ensures Reached(plan, 0) && Surviving(plan, FlaggedReach(plan), 0) == []
  {
    assert Offset(plan.records, 0) == 0;
    assert ReachedFrom(plan, 0, 0);
  }

  // ---- Hosts that pack ----

  /** Nothing is flagged; from record m on every block is finer and not oversized, and no record crosses a packet
      boundary; before m the only finer blocks are oversized. */
  ghost predicate PackingHost(plan: Plan, m: nat) {
    && Tiles(plan.segments, Total(plan.records)) && !Flagged(plan.segments) && HostLayout(plan, m)
    && forall k :: m <= k < |plan.records| && plan.records[k].Block? ==>
        plan.records[k].index >= plan.coarseBlocks && !Oversized(plan.segments, plan.records[k])
  }

  ghost predicate Unbroken(plan: Plan, k: nat)
    requires k <= |plan.records|
  {
    forall j :: 0 <= j < k ==> !HeaderLost(plan, j)
  }

  /** A packed block that came, with every header before it: it shows the parser that the host packs. */
  ghost predicate Shows(plan: Plan, m: nat, i: nat) {
    m <= i < |plan.records| && plan.records[i].Block? && Unbroken(plan, i + 1)
  }

  ghost predicate Shown(plan: Plan, m: nat, k: nat) {
    exists i :: 0 <= i < k && Shows(plan, m, i)
  }

  ghost predicate PackedReached(plan: Plan, m: nat, k: nat) {
    k < |plan.records| && (Unbroken(plan, k + 1) || Shown(plan, m, k))
  }

  ghost function PackedReach(plan: Plan, m: nat): iset<nat> {
    iset k: nat | PackedReached(plan, m, k)
  }

  /** What the walk knows: before the first lost header, whether a packed block came; after it, that one did. */
  ghost predicate Packs(plan: Plan, m: nat, t: Tally)
    requires t.next <= |plan.records|
  {
    || (Unbroken(plan, t.next) && (t.aligned <==> AnyLost(plan.segments) && Shown(plan, m, t.next)))
    || (t.aligned && AnyLost(plan.segments) && Shown(plan, m, t.next))
    || t.next == |plan.records|
  }

  /** A record in one packet whose header came came whole. */
  lemma UncutWhole(plan: Plan, k: nat, p: nat)
    requires Contiguous(plan.segments) && k < |plan.records| && p < |plan.segments|
    requires plan.segments[p].offset <= Offset(plan.records, k) && Offset(plan.records, k + 1) <= End(plan.segments[p])
    ensures plan.segments[p].lost <==> HeaderLost(plan, k)
    ensures plan.segments[p].lost <==> RecordLost(plan, k)
  {
    hide Offset;
    var rs, segments := plan.records, plan.segments;
    OffsetsGrow(rs, k, k + 1);
    assert Holds(segments[p], Offset(rs, k));
    if segments[p].lost {
      assert ByteLost(segments, Offset(rs, k));
    } else {
      forall b, i | Offset(rs, k) <= b < Offset(rs, k + 1) && 0 <= i < |segments| && Holds(segments[i], b)
        ensures !segments[i].lost
      {
        HolderUnique(segments, b, i, p);
      }
    }
  }

  lemma SomeLost(segments: seq<Segment>, lo: nat, hi: nat)
    requires RangeLost(segments, lo, hi)
    ensures AnyLost(segments)
  {
  }

  lemma ShownGrows(plan: Plan, m: nat, j: nat, k: nat)
    requires j <= k && Shown(plan, m, j)
    ensures Shown(plan, m, k)
  {
    hide Shows;
  }

  lemma OrdinaryFits(cut: seq<Segment>, r: Record)
    ensures Ordinary(cut, Length(r)) <==> !Oversized(cut, r)
  {
  }

  /** What a block does to the inference that the host packs. */
  lemma PackedBlock(plan: Plan, m: nat, k: nat)
    requires PackingHost(plan, m) && k < |plan.records| && plan.records[k].Block? && !HeaderLost(plan, k)
    ensures AlignsAfter(plan, k, plan.records[k].index) ==> k >= m && AnyLost(plan.segments)
    ensures k >= m ==> !RecordLost(plan, k)
    ensures k >= m && AnyLost(plan.segments) ==> AlignsAfter(plan, k, plan.records[k].index)
  {
    hide Offset, RangeLost, AnyLost, Oversized;
    var rs := plan.records;
    OrdinaryFits(plan.segments, rs[k]);
    if k >= m { var p := PackedCarrier(plan, m, k); }
  }

  /** The next record, header received, shows that the host packs exactly when it is a packed block. */
  lemma ShownNext(plan: Plan, m: nat, k: nat)
    requires k < |plan.records| && !HeaderLost(plan, k)
    ensures Unbroken(plan, k) ==> Unbroken(plan, k + 1)
    ensures Shown(plan, m, k) ==> Shown(plan, m, k + 1)
    ensures Shown(plan, m, k + 1) ==> Shown(plan, m, k) || (k >= m && plan.records[k].Block?)
    ensures Unbroken(plan, k) && k >= m && plan.records[k].Block? ==> Shown(plan, m, k + 1)
    ensures Shown(plan, m, k) ==> k > m
  {
    hide HeaderLost;
    if Shown(plan, m, k + 1) {
      var i :| 0 <= i < k + 1 && Shows(plan, m, i);
      if i < k { assert Shown(plan, m, k); }
    }
    if Unbroken(plan, k) && k >= m && plan.records[k].Block? {
      assert Shows(plan, m, k);
    }
  }

  /** A header received: the walk goes on, and a packed block shows that the host packs. */
  lemma PackedNext(plan: Plan, m: nat, t: Tally)
    requires PackingHost(plan, m) && t.next < |plan.records| && !HeaderLost(plan, t.next) && Packs(plan, m, t)
    ensures Reaches(plan, PackedReach(plan, m), t)
    ensures Packs(plan, m, Pass(plan, t))
  {
    hide HeaderLost, RecordLost, AnyLost, PackingHost, AlignsAfter, ResumeOffset, FirstFrom, Unbroken, Shown;
    ShownNext(plan, m, t.next);
    if plan.records[t.next].Block? { PackedBlock(plan, m, t.next); }
  }

  lemma TilesContiguous(segments: seq<Segment>, size: nat)
    requires Tiles(segments, size)
    ensures Contiguous(segments)
  {
  }

  /** Before any packed block came, a lost header is the end. */
  lemma PackedEnd(plan: Plan, m: nat, t: Tally)
    requires PackingHost(plan, m) && t.next < |plan.records| && HeaderLost(plan, t.next) && !t.aligned
    requires Packs(plan, m, t)
    ensures Pass(plan, t).next == |plan.records| && Reaches(plan, PackedReach(plan, m), t)
  {
    hide RangeLost, AnyLost, Tiles, Offset, HostLayout;
    var rs, n := plan.records, t.next;
    SomeLost(plan.segments, Offset(rs, n), Offset(rs, n) + HEADER_BYTES);
    OffsetsGrow(rs, n + 1, |rs|);
    FirstFromHits(rs, Total(rs), n + 1, |rs|);
    LastIsEnd(rs, FirstFrom(rs, Total(rs), n + 1));
    forall k | n <= k < |rs| ensures !PackedReached(plan, m, k) {
      forall i | n <= i < k ensures !Shows(plan, m, i) {
      }
    }
  }

  lemma LastIsEnd(rs: seq<Record>, k: nat)
    requires k <= |rs| && Offset(rs, k) == Total(rs)
    ensures k == |rs|
  {
    OffsetsGrow(rs, k, |rs|);
  }

  /** After one, the walk goes on at the next packet received, past lost records only. */
  lemma PackedSkip(plan: Plan, m: nat, t: Tally)
    requires PackingHost(plan, m) && t.next < |plan.records| && HeaderLost(plan, t.next) && t.aligned
    requires Shown(plan, m, t.next)
    ensures Reaches(plan, PackedReach(plan, m), t)
  {
    hide RangeLost, AnyLost, Tiles, Offset, InOnePacket, NextReceived, Oversized, Shown, Unbroken, FirstFrom,
         Contiguous;
    var rs, n := plan.records, t.next;
    TilesContiguous(plan.segments, Total(rs));
    ShownBeyond(plan, m, n);
    forall k | n <= k < Pass(plan, t).next ensures RecordLost(plan, k) {
      if k > n {
        BeforeFirst(rs, ResumeOffset(plan, t), n + 1, k);
        PackedBetween(plan, m, t, k);
      } else {
        LostWithHeader(plan, n);
      }
    }
  }

  lemma ShownBeyond(plan: Plan, m: nat, k: nat)
    requires Shown(plan, m, k)
    ensures k > m
  {
    hide Unbroken;
  }

  /** The packet that carries a packed record, and shares its fate. */
  lemma PackedCarrier(plan: Plan, m: nat, k: nat) returns (p: nat)
    requires Contiguous(plan.segments) && RecordsUncut(plan, m) && m <= k < |plan.records|
    ensures p < |plan.segments| && Holds(plan.segments[p], Offset(plan.records, k))
    ensures plan.segments[p].lost <==> HeaderLost(plan, k)
    ensures plan.segments[p].lost <==> RecordLost(plan, k)
  {
    hide Offset, RangeLost, Contiguous;
    var rs, segments := plan.records, plan.segments;
    assert InOnePacket(segments, Offset(rs, k), Offset(rs, k + 1));
    p :| 0 <= p < |segments| && segments[p].offset <= Offset(rs, k) && Offset(rs, k + 1) <= End(segments[p]);
    OffsetsGrow(rs, k, k + 1);
    UncutWhole(plan, k, p);
  }

  lemma PackedBetween(plan: Plan, m: nat, t: Tally, k: nat)
    requires Contiguous(plan.segments) && RecordsUncut(plan, m) && !Flagged(plan.segments)
    requires m <= t.next < k < |plan.records|
    requires HeaderLost(plan, t.next) && t.aligned && Offset(plan.records, k) < ResumeOffset(plan, t)
    ensures RecordLost(plan, k)
  {
    hide Offset, HeaderLost, RecordLost, RecordsUncut, ResumeOffset, Contiguous, Flagged;
    var rs, n, segments := plan.records, t.next, plan.segments;
    var p := PackedCarrier(plan, m, k);
    var q := PackedCarrier(plan, m, n);
    OffsetsGrow(rs, n, k);
    if segments[p].offset > Offset(rs, n) {
      PassedPacket(plan, t, p);
    } else {
      HolderUnique(segments, Offset(rs, n), p, q);
    }
  }

  lemma {:induction false} PackedWalk(plan: Plan, m: nat, t: Tally)
    requires PackingHost(plan, m) && t.next <= |plan.records| && Packs(plan, m, t)
    requires t.got == Surviving(plan, PackedReach(plan, m), t.next)
    ensures PassAll(plan, t).got == Surviving(plan, PackedReach(plan, m), |plan.records|)
    decreases |plan.records| - t.next
  {
    hide Pass, PackingHost, Surviving, HeaderLost, Survives, Shown, Unbroken, AnyLost;
    if t.next < |plan.records| {
      if !HeaderLost(plan, t.next) {
        PackedNext(plan, m, t);
      } else if t.aligned {
        LostAligned(plan, m, t);
      } else {
        PackedEnd(plan, m, t);
      }
      PassSurvives(plan, PackedReach(plan, m), t);
      PackedWalk(plan, m, Pass(plan, t));
    }
  }

  lemma LostAligned(plan: Plan, m: nat, t: Tally)
    requires PackingHost(plan, m) && t.next < |plan.records| && HeaderLost(plan, t.next) && t.aligned
    requires Packs(plan, m, t)
    ensures Reaches(plan, PackedReach(plan, m), t) && Packs(plan, m, Pass(plan, t))
  {
    hide PackingHost, HeaderLost, Unbroken, ResumeOffset, FirstFrom, Shown, Reaches;
    ShownGrows(plan, m, t.next, Pass(plan, t).next);
    PackedSkip(plan, m, t);
  }

  /** Exactly what a host that packs without flags gets through: the records that lost no byte and either follow
      no lost header or a packed block that followed none. */
  lemma PackedExactly(rs: seq<Record>, segments: seq<Segment>, data: seq<byte>, criticalPackets: nat, g: StreamGeometry,
                      m: nat)
    requires Arrival(rs, segments, data, g) && PackingHost(PlanOf(rs, segments, criticalPackets, g), m)
    ensures var r := ParseResult(data, segments, criticalPackets, g);
            var plan, got := PlanOf(rs, segments, criticalPackets, g), Delivered(rs, segments, criticalPackets, g).got;
            && r.error.None? && AllPackable(rs) && Chosen(rs, got) && SpanBytes(data, r.frame.spans) == Gather(rs, got)
            && forall k :: k in got <==>
                 && 0 <= k < |rs| && !rs[k].Padding? && !RecordLost(plan, k)
                 && (Unbroken(plan, k + 1) || Shown(plan, m, k))
  {
    hide ParseResult, RecordLost, FrameSent, Received, RangeLost, Gather, Chosen, SpanBytes, Genuine, Serialise,
         HostLayout, CoarseBlockCount, MaxBlockCount, Packable, PassAll, Surviving, HostAligns, Shown, Oversized, Tiles;
    var plan, got := PlanOf(rs, segments, criticalPackets, g), Delivered(rs, segments, criticalPackets, g).got;
    TilesContiguous(segments, Total(rs));
    LayoutAligns(plan, m);
    PromiseKept(rs, segments, criticalPackets, g);
    DamagedFrame(rs, segments, data, criticalPackets, g);
    NothingShown(plan, m);
    PackedWalk(plan, m, Outset(segments, criticalPackets));
    forall k: nat ensures k in got <==> k < |rs| && Survives(plan, PackedReach(plan, m), k) {
      SurvivingMembers(plan, PackedReach(plan, m), |rs|, k);
    }
  }

  lemma NothingShown(plan: Plan, m: nat)
    ensures Unbroken(plan, 0) && !Shown(plan, m, 0) && Surviving(plan, PackedReach(plan, m), 0) == []
  {
  }
}
