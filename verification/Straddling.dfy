/** Hosts without record-start flags that let ordinary records straddle packets. When the parser's inference
    that later packets start with records goes wrong, exactly. */
module Straddling {
  import opened Words
  import opened Geometry
  import opened PacketMap
  import opened FramingSpec
  import opened FramingSound
  import opened Sender
  import opened Recovery
  import opened Delivery
  import opened RoundTrip
  import BlockNumbering

  // ---- The parser's cursor ----

  /** The parser's cursor is at the start of a record sent, here and after every further turn of its loop. */
  ghost predicate CursorTrue(input: Input, rs: seq<Record>, w: Walk)
    requires w.pos <= |input.data|
    decreases |input.data| - w.pos
  {
    && IsBoundary(rs, w.pos)
    && (w.pos < |input.data| && Step(input, w).Next? ==> CursorTrue(input, rs, Step(input, w).walk))
  }

  /** The cursor stays on record starts exactly when the record-level walk resumes on them. */
  lemma {:induction false} CursorFollows(input: Input, plan: Plan, t: Tally, w: Walk)
    requires Setting(input, plan) && Follows(input, plan, t, w) && t.next <= |plan.records|
    ensures w.pos <= |input.data| && (CursorTrue(input, plan.records, w) <==> TrueRun(plan, t))
    decreases |plan.records| - t.next
  {
    hide Step, Setting, Follows, Pass, HeaderLost, ResumeOffset;
    AtBoundary(input, plan, t, w);
    if t.next < |plan.records| {
      if TrueStep(plan, t) {
        StepFollows(input, plan, t, w);
        CursorFollows(input, plan, Pass(plan, t), Step(input, w).walk);
      } else {
        LostAstray(input, plan, t, w);
      }
    }
  }

  lemma AtBoundary(input: Input, plan: Plan, t: Tally, w: Walk)
    requires Setting(input, plan) && Follows(input, plan, t, w)
    ensures w.pos <= |input.data| && IsBoundary(plan.records, w.pos)
    ensures t.next == |plan.records| <==> w.pos == |input.data|
  {
    hide FrameSent, Received, WalkBytes, Gather, FlagsFollow, HeaderFollows;
    SizesAgree(input, plan);
    OffsetsGrow(plan.records, t.next, |plan.records|);
  }

  lemma LostAstray(input: Input, plan: Plan, t: Tally, w: Walk)
    requires Setting(input, plan) && Follows(input, plan, t, w) && t.next < |plan.records| && HeaderLost(plan, t.next)
    requires !IsBoundary(plan.records, ResumeOffset(plan, t))
    ensures w.pos < |input.data| && Step(input, w).Next? && !IsBoundary(plan.records, Step(input, w).walk.pos)
  {
    hide Step, HeaderLost, FrameSent, Received, WalkBytes, Gather, HeaderFollows, ResumeOffset, IsBoundary, Offset;
    SizesAgree(input, plan);
    StepLost(input, plan, t, w);
  }

  // ---- Cuts that can lead astray ----

  /** The same packets, whatever was lost of them. */
  ghost predicate SameCut(a: seq<Segment>, b: seq<Segment>) {
    && |a| == |b|
    && forall i :: 0 <= i < |a| ==>
        a[i].offset == b[i].offset && a[i].size == b[i].size && a[i].recordStart == b[i].recordStart
  }

  /** Record k, a finer block that is not oversized, is within packet p: received, it makes the parser take
      later packets to start with records. */
  ghost predicate Convinces(rs: seq<Record>, cut: seq<Segment>, coarseBlocks: nat, k: nat, p: nat) {
    && k < |rs| && p < |cut| && rs[k].Block? && rs[k].index >= coarseBlocks
    && !Oversized(cut, rs[k])
    && cut[p].offset <= Offset(rs, k) && Offset(rs, k + 1) <= End(cut[p])
  }

  /** Record j is the first after k whose header reaches beyond packet p; between them is padding alone. */
  ghost predicate NextBeyond(rs: seq<Record>, cut: seq<Segment>, k: nat, p: nat, j: nat) {
    && k < j < |rs| && p < |cut| && Offset(rs, j) + HEADER_BYTES > End(cut[p])
    && forall m :: k < m < j ==> rs[m].Padding? && Offset(rs, m) + HEADER_BYTES <= End(cut[p])
  }

  /** Packet q, after p, carries a byte of record j's header. */
  ghost predicate CarriesHeader(rs: seq<Record>, cut: seq<Segment>, j: nat, p: nat, q: nat) {
    && p < q < |cut| && j < |rs| && cut[q].offset < Offset(rs, j) + HEADER_BYTES && Offset(rs, j) < End(cut[q])
  }

  /** Packet i starts inside a record, beyond record j's start. */
  ghost predicate Inside(rs: seq<Record>, cut: seq<Segment>, j: nat, i: nat) {
    && j < |rs| && i < |cut| && cut[i].offset > Offset(rs, j) && !IsBoundary(rs, cut[i].offset)
  }

  /** A convincing record, and after it a header that a packet other than i can lose, so that the parser
      resumes at packet i, inside a record. */
  ghost predicate Trap(rs: seq<Record>, cut: seq<Segment>, coarseBlocks: nat, k: nat, p: nat, j: nat, q: nat, i: nat) {
    && Convinces(rs, cut, coarseBlocks, k, p) && NextBeyond(rs, cut, k, p, j)
    && CarriesHeader(rs, cut, j, p, q) && q != i && Inside(rs, cut, j, i)
  }

  ghost predicate Trapless(rs: seq<Record>, cut: seq<Segment>, coarseBlocks: nat) {
    forall k, p, j, q, i :: !Trap(rs, cut, coarseBlocks, k, p, j, q, i)
  }

  // ---- Without a trap every run is true ----

  /** What convinced the parser: record k in packet p, received, with only padding passed since whose header
      packet p could show. */
  ghost predicate ConvincedBy(plan: Plan, t: Tally, k: nat, p: nat) {
    && Convinces(plan.records, plan.segments, plan.coarseBlocks, k, p) && k < t.next <= |plan.records|
    && !plan.segments[p].lost
    && forall m :: k < m < t.next && Offset(plan.records, m) + HEADER_BYTES <= End(plan.segments[p]) ==>
        plan.records[m].Padding?
  }

  ghost predicate Grounded(plan: Plan, t: Tally) {
    t.aligned ==> exists k, p :: ConvincedBy(plan, t, k, p)
  }

  /** A header within a received packet is not lost. */
  lemma HeaderWithin(plan: Plan, k: nat, p: nat, m: nat)
    requires Contiguous(plan.segments) && ConvincedIn(plan, k, p) && k < m < |plan.records|
    requires Offset(plan.records, m) + HEADER_BYTES <= End(plan.segments[p])
    ensures !HeaderLost(plan, m)
  {
    hide Offset;
    OffsetsGrow(plan.records, k, m);
    forall b, i | Offset(plan.records, m) <= b < Offset(plan.records, m) + HEADER_BYTES && 0 <= i < |plan.segments|
                  && Holds(plan.segments[i], b)
      ensures !plan.segments[i].lost
    {
      HolderUnique(plan.segments, b, i, p);
    }
  }

  ghost predicate ConvincedIn(plan: Plan, k: nat, p: nat) {
    Convinces(plan.records, plan.segments, plan.coarseBlocks, k, p) && !plan.segments[p].lost
  }

  lemma PassGrounded(plan: Plan, t: Tally)
    requires Contiguous(plan.segments) && t.next < |plan.records| && Grounded(plan, t)
    requires plan.records[t.next].Header? ==> t.next == 0
    ensures Grounded(plan, Pass(plan, t))
  {
    hide RangeLost, Offset, AnyLost, Contiguous, ResumeOffset, FirstFrom;
    var t' := Pass(plan, t);
    if t'.aligned {
      var n := t.next;
      if !HeaderLost(plan, n) && plan.records[n].Block? {
        var p := HolderOfRecord(plan, n);
        assert ConvincedBy(plan, t', n, p);
      } else {
        var k: nat, p: nat :| ConvincedBy(plan, t, k, p);
        forall m | k < m < t'.next && Offset(plan.records, m) + HEADER_BYTES <= End(plan.segments[p])
          ensures plan.records[m].Padding?
        {
          if m >= n && HeaderLost(plan, n) {
            OffsetsGrow(plan.records, n, m);
            HeaderWithin(plan, k, p, n);
          }
        }
        assert ConvincedBy(plan, t', k, p);
      }
    }
  }

  /** The packet a whole record came in was received. */
  lemma HolderOfRecord(plan: Plan, k: nat) returns (p: nat)
    requires k < |plan.records| && !RecordLost(plan, k)
    requires InOnePacket(plan.segments, Offset(plan.records, k), Offset(plan.records, k + 1))
    ensures p < |plan.segments| && !plan.segments[p].lost
    ensures plan.segments[p].offset <= Offset(plan.records, k) && Offset(plan.records, k + 1) <= End(plan.segments[p])
  {
    hide Offset;
    OffsetsGrow(plan.records, k, k + 1);
    p :| 0 <= p < |plan.segments| && plan.segments[p].offset <= Offset(plan.records, k)
         && Offset(plan.records, k + 1) <= End(plan.segments[p]);
    assert !ByteLost(plan.segments, Offset(plan.records, k));
  }

  /** The first record after k, at most n, whose header reaches beyond packet p. */
  lemma {:induction false} FirstBeyond(rs: seq<Record>, cut: seq<Segment>, k: nat, p: nat, n: nat) returns (j: nat)
    requires k < n < |rs| && p < |cut| && Offset(rs, n) + HEADER_BYTES > End(cut[p])
    requires forall m :: k < m < n && Offset(rs, m) + HEADER_BYTES <= End(cut[p]) ==> rs[m].Padding?
    ensures NextBeyond(rs, cut, k, p, j) && j <= n
    decreases n
  {
    hide Offset;
    if m :| k < m < n && Offset(rs, m) + HEADER_BYTES > End(cut[p]) {
      j := FirstBeyond(rs, cut, k, p, m);
    } else {
      j := n;
    }
  }

  /** The cut tiles the frame, and nothing in it is flagged. */
  ghost predicate Unflagged(rs: seq<Record>, cut: seq<Segment>) {
    cut != [] && !Flagged(cut) && Contiguous(cut) && cut[0].offset == 0 && End(cut[|cut| - 1]) == Total(rs)
  }

  /** A packet, other than i, after p that carries a byte of record j's header beyond p. */
  lemma CarrierBeyond(rs: seq<Record>, cut: seq<Segment>, k: nat, p: nat, j: nat, i: nat) returns (q: nat)
    requires Unflagged(rs, cut) && NextBeyond(rs, cut, k, p, j) && i < |cut|
    requires cut[p].offset <= Offset(rs, j) && cut[i].offset >= Offset(rs, j) + HEADER_BYTES
    ensures CarriesHeader(rs, cut, j, p, q) && q != i
  {
    hide Offset;
    var b := Max(Offset(rs, j), End(cut[p]));
    OffsetsGrow(rs, j, |rs|);
    q := HolderExists(cut, b, |cut|);
    if q < p { StartsGrow(cut, q, p); }
  }

  /** A packet after p that was lost and carries a byte of record j's header. */
  lemma LostCarrier(plan: Plan, k: nat, p: nat, j: nat) returns (q: nat)
    requires Unflagged(plan.records, plan.segments) && ConvincedIn(plan, k, p) && k < j < |plan.records|
             && HeaderLost(plan, j)
    ensures CarriesHeader(plan.records, plan.segments, j, p, q) && plan.segments[q].lost
  {
    hide Offset;
    var b :| Offset(plan.records, j) <= b < Offset(plan.records, j) + HEADER_BYTES && ByteLost(plan.segments, b);
    q :| 0 <= q < |plan.segments| && plan.segments[q].lost && Holds(plan.segments[q], b);
    OffsetsGrow(plan.records, k, k + 1);
    OffsetsGrow(plan.records, k + 1, j);
    if q < p { StartsGrow(plan.segments, q, p); }
  }

  /** The packet a false resumption is at. */
  lemma AstrayAt(plan: Plan, t: Tally) returns (i: nat)
    requires Unflagged(plan.records, plan.segments) && t.next < |plan.records|
    requires !IsBoundary(plan.records, ResumeOffset(plan, t))
    ensures t.aligned && Inside(plan.records, plan.segments, t.next, i) && !plan.segments[i].lost
  {
    hide Offset, NextReceived;
    var rs := plan.records;
    assert IsBoundary(rs, Total(rs));
    NextReceivedLeast(plan.segments, Offset(rs, t.next), false);
    i :| 0 <= i < |plan.segments|
         && plan.segments[i].offset == NextReceived(plan.segments, Offset(rs, t.next), false).value
         && plan.segments[i].offset > Offset(rs, t.next) && Resumable(plan.segments[i], false);
    if i < |plan.segments| - 1 { StartsGrow(plan.segments, i, |plan.segments| - 1); }
  }

  /** Without a trap, no step resumes inside a record. */
  lemma StepTrue(plan: Plan, t: Tally)
    requires Unflagged(plan.records, plan.segments) && Grounded(plan, t) && t.next < |plan.records|
    requires Trapless(plan.records, plan.segments, plan.coarseBlocks)
    ensures TrueStep(plan, t)
  {
    hide Offset, ResumeOffset, IsBoundary, HeaderLost, Contiguous, Convinces;
    var rs, n := plan.records, t.next;
    if HeaderLost(plan, n) && !IsBoundary(rs, ResumeOffset(plan, t)) {
      var i := AstrayAt(plan, t);
      var k: nat, p: nat :| ConvincedBy(plan, t, k, p);
      var j, q := Trapped(plan, t, k, p, i);
    }
  }

  lemma Trapped(plan: Plan, t: Tally, k: nat, p: nat, i: nat) returns (j: nat, q: nat)
    requires Unflagged(plan.records, plan.segments) && t.next < |plan.records| && HeaderLost(plan, t.next)
    requires ConvincedBy(plan, t, k, p) && Inside(plan.records, plan.segments, t.next, i) && !plan.segments[i].lost
    ensures Trap(plan.records, plan.segments, plan.coarseBlocks, k, p, j, q, i)
  {
    hide Offset, IsBoundary, HeaderLost, Ordinary;
    var rs, cut, n := plan.records, plan.segments, t.next;
    if Offset(rs, n) + HEADER_BYTES <= End(cut[p]) { HeaderWithin(plan, k, p, n); }
    j := FirstBeyond(rs, cut, k, p, n);
    OffsetsGrow(rs, k, k + 1);
    OffsetsGrow(rs, k + 1, j);
    OffsetsGrow(rs, j, n);
    if j == n {
      q := LostCarrier(plan, k, p, n);
    } else {
      q := CarrierBeyond(rs, cut, k, p, j, i);
    }
  }

  lemma {:induction false} TraplessTrue(plan: Plan, t: Tally)
    requires Unflagged(plan.records, plan.segments) && Grounded(plan, t) && t.next <= |plan.records|
    requires Trapless(plan.records, plan.segments, plan.coarseBlocks)
    requires forall k :: 0 < k < |plan.records| ==> !plan.records[k].Header?
    ensures TrueRun(plan, t)
    decreases |plan.records| - t.next
  {
    hide Pass, Grounded, TrueStep, Trapless, Contiguous;
    if t.next < |plan.records| {
      StepTrue(plan, t);
      PassGrounded(plan, t);
      TraplessTrue(plan, Pass(plan, t));
    }
  }

  // ---- With one, some loss leads astray ----

  /** Every packet after p is lost but i. */
  function Doctored(cut: seq<Segment>, p: nat, i: nat): (segments: seq<Segment>)
    ensures |segments| == |cut|
  {
    seq(|cut|, x requires 0 <= x < |cut| => cut[x].(lost := x > p && x != i))
  }

  lemma DoctoredCut(rs: seq<Record>, cut: seq<Segment>, p: nat, i: nat)
    requires Unflagged(rs, cut)
    ensures SameCut(Doctored(cut, p, i), cut) && Unflagged(rs, Doctored(cut, p, i))
  {
  }

  /** Nothing up to packet p is lost. */
  lemma SparedWithin(rs: seq<Record>, cut: seq<Segment>, p: nat, i: nat, lo: nat, hi: nat)
    requires Unflagged(rs, cut) && p < |cut| && hi <= End(cut[p])
    ensures !RangeLost(Doctored(cut, p, i), lo, hi)
  {
    var segments := Doctored(cut, p, i);
    forall b, x | lo <= b < hi && 0 <= x < |segments| && Holds(segments[x], b) ensures !segments[x].lost {
      if x > p { StartsGrow(cut, p, x); }
    }
  }

  /** A walk over undamaged records, then over padding, stays true, and keeps what it was convinced of. */
  lemma {:induction false} WalkUndamaged(plan: Plan, t: Tally, n: nat) returns (t': Tally)
    requires t.next <= n <= |plan.records| && forall m :: t.next <= m < n ==> !Damaged(plan, m)
    ensures t'.next == n && (TrueRun(plan, t) ==> TrueRun(plan, t'))
    ensures (forall m :: t.next <= m < n ==> plan.records[m].Padding?) ==> t'.aligned == t.aligned
    decreases n - t.next
  {
    hide HeaderLost, RecordLost, AlignsAfter, ResumeOffset, FirstFrom, TrueStep;
    if t.next == n {
      t' := t;
    } else {
      assert !Damaged(plan, t.next);
      t' := WalkUndamaged(plan, Pass(plan, t), n);
    }
  }

  /** The last step: record j's header is lost, and the walk resumes at packet i. */
  lemma LedAstray(plan: Plan, cut: seq<Segment>, t: Tally, p: nat, q: nat, i: nat)
    requires Unflagged(plan.records, cut) && plan.segments == Doctored(cut, p, i) && t.aligned
             && t.next < |plan.records|
    requires CarriesHeader(plan.records, cut, t.next, p, q) && q != i && Inside(plan.records, cut, t.next, i)
    requires p < |cut| && cut[p].offset <= Offset(plan.records, t.next)
    ensures !TrueRun(plan, t)
  {
    hide Offset, NextReceived, IsBoundary, Pass;
    var rs, segments, o := plan.records, plan.segments, Offset(plan.records, t.next);
    DoctoredCut(rs, cut, p, i);
    var b := Max(o, cut[q].offset);
    assert Holds(segments[q], b) && ByteLost(segments, b);
    assert HeaderLost(plan, t.next);
    NextReceivedLeast(segments, o, false);
    forall x | 0 <= x < |segments| && segments[x].offset > o && Resumable(segments[x], false) ensures x == i {
      if x < p { StartsGrow(cut, x, p); }
    }
    if i < p { StartsGrow(cut, i, p); }
    assert Resumable(segments[i], false);
    if i < |cut| - 1 { StartsGrow(cut, i, |cut| - 1); }
    assert ResumeOffset(plan, t) == cut[i].offset;
  }

  lemma TrapSprings(rs: seq<Record>, cut: seq<Segment>, plan: Plan, t: Tally, k: nat, p: nat, j: nat, q: nat, i: nat)
    requires Unflagged(rs, cut) && plan.records == rs && plan.segments == Doctored(cut, p, i) && t.next == 0
    requires Trap(rs, cut, plan.coarseBlocks, k, p, j, q, i)
    ensures !TrueRun(plan, t)
  {
    hide Offset, IsBoundary, RangeLost, TrueRun, Contiguous, AlignsAfter;
    DoctoredCut(rs, cut, p, i);
    OffsetsGrow(rs, k, k + 1);
    OffsetsGrow(rs, k + 1, j);
    forall m | 0 <= m <= k ensures !Damaged(plan, m) {
      OffsetsGrow(rs, m, m + 1);
      OffsetsGrow(rs, m + 1, k + 1);
      SparedWithin(rs, cut, p, i, Offset(rs, m), Offset(rs, m) + HEADER_BYTES);
      SparedWithin(rs, cut, p, i, Offset(rs, m), Offset(rs, m + 1));
    }
    forall m | k < m < j ensures !Damaged(plan, m) {
      SparedWithin(rs, cut, p, i, Offset(rs, m), Offset(rs, m) + HEADER_BYTES);
    }
    var before := WalkUndamaged(plan, t, k);
    assert !Damaged(plan, k);
    var convinced := Pass(plan, before);
    ConvincedAligns(plan, cut, k, p, q, i);
    assert TrueRun(plan, before) ==> TrueRun(plan, convinced) by { RunsOn(plan, before); }
    var there := WalkUndamaged(plan, convinced, j);
    LedAstray(plan, cut, there, p, q, i);
  }

  lemma RunsOn(plan: Plan, t: Tally)
    requires t.next < |plan.records|
    ensures TrueRun(plan, t) ==> TrueRun(plan, Pass(plan, t))
  {
  }

  lemma ConvincedAligns(plan: Plan, cut: seq<Segment>, k: nat, p: nat, q: nat, i: nat)
    requires plan.segments == Doctored(cut, p, i) && Convinces(plan.records, cut, plan.coarseBlocks, k, p)
    requires p < q < |cut| && q != i
    ensures AlignsAfter(plan, k, plan.records[k].index)
  {
    hide Offset;
    assert plan.segments[q].lost;
    assert plan.segments[p].offset <= Offset(plan.records, k);
  }

  // ---- The exact condition ----

  /** One run: the cursor is on record starts throughout if and only if every resumption is on one. */
  lemma CursorExactly(rs: seq<Record>, segments: seq<Segment>, data: seq<byte>, criticalPackets: nat, g: StreamGeometry)
    requires Arrival(rs, segments, data, g)
    ensures CursorTrue(InputOf(data, segments, criticalPackets, g), rs, StartOf(segments, criticalPackets))
            <==> Truthful(rs, segments, criticalPackets, g)
  {
    hide CursorTrue, TrueRun, Setting, Follows, Arrival, CoarseBlockCount, MaxBlockCount, LeadingIntact;
    WalkStarts(rs, segments, data, criticalPackets, g);
    CursorFollows(InputOf(data, segments, criticalPackets, g), PlanOf(rs, segments, criticalPackets, g),
                  Outset(segments, criticalPackets), StartOf(segments, criticalPackets));
  }

  /** Whatever is lost of this cut, short of the first 8 bytes, the cursor never leaves the record starts. */
  ghost predicate AlwaysTrue(rs: seq<Record>, cut: seq<Segment>, criticalPackets: nat, g: StreamGeometry) {
    forall segments, data :: SameCut(segments, cut) && Arrival(rs, segments, data, g) ==>
      CursorTrue(InputOf(data, segments, criticalPackets, g), rs, StartOf(segments, criticalPackets))
  }

  lemma SameTraps(rs: seq<Record>, segments: seq<Segment>, cut: seq<Segment>, coarseBlocks: nat)
    requires SameCut(segments, cut) && Unflagged(rs, cut)
    ensures Unflagged(rs, segments) && (Trapless(rs, cut, coarseBlocks) ==> Trapless(rs, segments, coarseBlocks))
  {
    hide Offset, IsBoundary;
    forall k, p, j, q, i | Trap(rs, segments, coarseBlocks, k, p, j, q, i)
      ensures Trap(rs, cut, coarseBlocks, k, p, j, q, i) {
    }
  }

  /** An unflagged cut of a frame is safe under every loss pattern if and only if it has no trap: an ordinary
      finer block within one packet, then (past padding) a header reaching beyond that packet, and beyond that
      header's start a packet that starts inside a record while another packet carries a byte of the header. */
  lemma SafeExactly(rs: seq<Record>, cut: seq<Segment>, criticalPackets: nat, g: StreamGeometry)
    requires FrameSent(rs, g, MaxBlockCount(g)) && Unflagged(rs, cut)
    ensures AlwaysTrue(rs, cut, criticalPackets, g) <==> Trapless(rs, cut, CoarseBlockCount(g))
  {
    if Trapless(rs, cut, CoarseBlockCount(g)) {
      forall segments, data | SameCut(segments, cut) && Arrival(rs, segments, data, g)
        ensures CursorTrue(InputOf(data, segments, criticalPackets, g), rs, StartOf(segments, criticalPackets))
      {
        TraplessSafe(rs, cut, segments, data, criticalPackets, g);
      }
    } else {
      hide *;
      TrapUnsafe(rs, cut, criticalPackets, g);
    }
  }

  lemma TraplessSafe(rs: seq<Record>, cut: seq<Segment>, segments: seq<Segment>, data: seq<byte>, criticalPackets: nat,
                     g: StreamGeometry)
    requires Unflagged(rs, cut) && Trapless(rs, cut, CoarseBlockCount(g))
    requires SameCut(segments, cut) && Arrival(rs, segments, data, g)
    ensures CursorTrue(InputOf(data, segments, criticalPackets, g), rs, StartOf(segments, criticalPackets))
  {
    hide CursorTrue, TrueRun, Trapless, SameCut, Unflagged, CoarseBlockCount, MaxBlockCount, LeadingIntact, Received,
         RangeLost, Tiles;
    SameTraps(rs, segments, cut, CoarseBlockCount(g));
    OneHeader(rs, g, MaxBlockCount(g));
    TraplessTrue(PlanOf(rs, segments, criticalPackets, g), Outset(segments, criticalPackets));
    CursorExactly(rs, segments, data, criticalPackets, g);
  }

  lemma TrapUnsafe(rs: seq<Record>, cut: seq<Segment>, criticalPackets: nat, g: StreamGeometry)
    requires FrameSent(rs, g, MaxBlockCount(g)) && Unflagged(rs, cut) && !Trapless(rs, cut, CoarseBlockCount(g))
    ensures !AlwaysTrue(rs, cut, criticalPackets, g)
  {
    hide CursorTrue, TrueRun, SameCut, Unflagged, CoarseBlockCount, MaxBlockCount, LeadingIntact, FrameSent, Trap,
         Serialise, Arrival;
    var k, p, j, q, i :| Trap(rs, cut, CoarseBlockCount(g), k, p, j, q, i);
    var segments := Doctored(cut, p, i);
    DoctoredCut(rs, cut, p, i);
    Announced(rs, g, MaxBlockCount(g));
    DoctoredArrives(rs, cut, k, p, i, g) by { TrapConvinces(rs, cut, CoarseBlockCount(g), k, p, j, q, i); }
    TrapSprings(rs, cut, PlanOf(rs, segments, criticalPackets, g), Outset(segments, criticalPackets), k, p, j, q, i);
    CursorExactly(rs, segments, Serialise(rs), criticalPackets, g);
  }

  lemma TrapConvinces(rs: seq<Record>, cut: seq<Segment>, coarseBlocks: nat, k: nat, p: nat, j: nat, q: nat, i: nat)
    requires Trap(rs, cut, coarseBlocks, k, p, j, q, i)
    ensures Convinces(rs, cut, coarseBlocks, k, p)
  {
  }

  /** What arrives of a doctored cut: the first packet is there, as the convincing record comes after the header. */
  lemma DoctoredArrives(rs: seq<Record>, cut: seq<Segment>, k: nat, p: nat, i: nat, g: StreamGeometry)
    requires FrameSent(rs, g, MaxBlockCount(g)) && AllPackable(rs) && Unflagged(rs, cut)
    requires Convinces(rs, cut, CoarseBlockCount(g), k, p)
    ensures Arrival(rs, Doctored(cut, p, i), Serialise(rs), g)
  {
    hide Offset, RangeLost, MaxBlockCount, CoarseBlockCount, Serialise, Ordinary;
    DoctoredCut(rs, cut, p, i);
    Announced(rs, g, MaxBlockCount(g));
    assert k > 0;
    OffsetsGrow(rs, 0, k + 1);
    SparedWithin(rs, cut, p, i, 0, HEADER_BYTES);
  }

  // ---- A block nobody sent ----

  /** A header, an ordinary finer block a, a block b that crosses packets and holds in its payload what reads
      as a block c, and a block d. */
  ghost predicate Scene(h: Record, a: Record, b: Record, c: Record, d: Record, g: StreamGeometry) {
    && FrameSent([h, a, b, d], g, MaxBlockCount(g)) && Packable(c)
    && FrameSent([h, a, Padding(2), c, d], g, MaxBlockCount(g))
    && a.Block? && b.Block? && c.Block? && d.Block?
    && a.index >= CoarseBlockCount(g) && c.index >= CoarseBlockCount(g) && d.index >= CoarseBlockCount(g)
    && |a.payload| == 8 && b.payload == Zeros(8) + Encode(c) && c.payload == [] && |d.payload| == 8
  }

  /** The packet in the middle is lost; the last starts inside b. */
  function ScenePackets(): seq<Segment> {
    [Segment(0, 24, false, false), Segment(24, 16, true, false), Segment(40, 24, false, false)]
  }

  lemma SceneOffsets(h: Record, a: Record, b: Record, c: Record, d: Record, g: StreamGeometry)
    requires Scene(h, a, b, c, d, g)
    ensures var sent, seen := [h, a, b, d], [h, a, Padding(2), c, d];
            && Offset(seen, 0) == 0 && Offset(seen, 1) == 8 && Offset(seen, 2) == 24 && Offset(seen, 3) == 40
            && Offset(seen, 4) == 48 && Offset(seen, 5) == 64 && Total(sent) == 64
    ensures Length(h) == 8 && Length(a) == 16 && Length(b) == 24 && Length(c) == 8 && Length(d) == 16
  {
    hide FrameSent, MaxBlockCount, CoarseBlockCount, Packable, Offset, Encode, Serialise;
    assert FrameSentHeader([h, a, b, d]) by { SentHeader([h, a, b, d], g); }
    var sent, seen := [h, a, b, d], [h, a, Padding(2), c, d];
    NextOffsets(sent);
    NextOffsets(seen);
    assert Offset(sent, 1) == 8 && Offset(sent, 2) == 24 && Offset(sent, 3) == 48 && Offset(sent, |sent|) == 64;
  }

  ghost predicate FrameSentHeader(rs: seq<Record>) {
    rs != [] && rs[0].Header?
  }

  lemma SentHeader(rs: seq<Record>, g: StreamGeometry)
    requires FrameSent(rs, g, MaxBlockCount(g))
    ensures FrameSentHeader(rs)
  {
  }

  lemma NextOffsets(rs: seq<Record>)
    ensures Offset(rs, 0) == 0 && forall k :: 0 <= k < |rs| ==> Offset(rs, k + 1) == Offset(rs, k) + Length(rs[k])
  {
  }

  /** What is lost is bytes 24 to 40. */
  lemma SceneLosses(segments: seq<Segment>, lo: nat, hi: nat)
    requires segments == ScenePackets()
    ensures RangeLost(segments, lo, hi) <==> lo < hi && lo < 40 && hi > 24
  {
    if lo < hi && lo < 40 && hi > 24 {
      var b := Max(lo, 24);
      assert Holds(segments[1], b);
      assert ByteLost(segments, b);
    }
    forall b: nat, i | 0 <= i < |segments| && segments[i].lost && Holds(segments[i], b) ensures 24 <= b < 40 {
      assert i == 1;
    }
  }

  /** With the middle packet lost, the frame sent cannot be told from one with padding and the block c instead of b. */
  lemma SceneLooksAlike(h: Record, a: Record, b: Record, c: Record, d: Record, g: StreamGeometry)
    requires Scene(h, a, b, c, d, g)
    ensures AllPackable([h, a, b, d]) && AllPackable([h, a, Padding(2), c, d])
    ensures Received(Serialise([h, a, Padding(2), c, d]), ScenePackets(), Serialise([h, a, b, d]))
  {
    hide FrameSent, MaxBlockCount, CoarseBlockCount, Packable, Offset, Encode, Serialise, Word0, Word1;
    var sent, seen, pad := [h, a, b, d], [h, a, Padding(2), c, d], Padding(2);
    Announced(sent, g, MaxBlockCount(g));
    Announced(seen, g, MaxBlockCount(g));
    SceneOffsets(h, a, b, c, d, g);
    assert AllPackable([h, a]) by { FrontPackable(sent, [h, a]); }
    assert AllPackable([h, a, b]) by { FrontPackable(sent, [h, a, b]); }
    assert AllPackable([h, a, pad]) by { FrontPackable(seen, [h, a, pad]); }
    assert AllPackable([h, a, pad, c]) by { FrontPackable(seen, [h, a, pad, c]); }
    assert [h, a] + [b] == [h, a, b] && [h, a, b] + [d] == sent;
    assert [h, a] + [pad] == [h, a, pad] && [h, a, pad] + [c] == [h, a, pad, c] && [h, a, pad, c] + [d] == seen;
    Joined([h, a], b);
    Joined([h, a, b], d);
    Joined([h, a], pad);
    Joined([h, a, pad], c);
    Joined([h, a, pad, c], d);
    SplitBody(b, c);
    SliceLengths(sent, seen, h, a, b, c, d);
    AlikeOutside(Serialise([h, a]), Word0(b), Word1(b), Encode(pad), Encode(c), Encode(d), Serialise(sent),
                 Serialise(seen));
  }

  lemma FrontPackable(rs: seq<Record>, front: seq<Record>)
    requires AllPackable(rs) && front <= rs
    ensures AllPackable(front)
  {
    hide Packable;
  }

  lemma Joined(rs: seq<Record>, r: Record)
    requires AllPackable(rs + [r])
    ensures AllPackable(rs) && Packable(r) && Serialise(rs + [r]) == Serialise(rs) + Encode(r)
  {
    hide Packable, Encode;
    FrontPackable(rs + [r], rs);
    assert Packable((rs + [r])[|rs|]);
    SerialiseSnoc(rs + [r]);
    assert (rs + [r])[..|rs|] == rs;
  }

  lemma SplitBody(b: Record, c: Record)
    requires Packable(b) && Packable(c) && b.Block? && b.payload == Zeros(8) + Encode(c)
    ensures Encode(b) == PutU32(Word0(b)) + PutU32(Word1(b)) + Zeros(8) + Encode(c)
  {
    hide Packable, PutU32, Word0, Word1;
  }

  lemma SliceLengths(sent: seq<Record>, seen: seq<Record>, h: Record, a: Record, b: Record, c: Record, d: Record)
    requires AllPackable([h, a]) && Length(h) == 8 && Length(a) == 16
    ensures |Serialise([h, a])| == 24
  {
    hide Packable, Encode;
    NextOffsets([h, a]);
  }

  lemma AlikeOutside(front: seq<byte>, word0: u32, word1: u32, pad: seq<byte>, c: seq<byte>, d: seq<byte>,
                     sent: seq<byte>, seen: seq<byte>)
    requires |front| == 24 && |pad| == 16 && |c| == 8 && |d| == 16
    requires sent == front + (PutU32(word0) + PutU32(word1) + Zeros(8) + c) + d
    requires seen == front + pad + c + d
    ensures Received(seen, ScenePackets(), sent)
  {
    hide PutU32, RangeLost;
    forall x | 24 <= x < 40 ensures ByteLost(ScenePackets(), x) {
      assert Holds(ScenePackets()[1], x);
    }
    forall x | 0 <= x < |sent| && !(24 <= x < 40) ensures sent[x] == seen[x] {
    }
  }

  ghost predicate ScenePlan(plan: Plan, h: Record, a: Record, b: Record, c: Record, d: Record, g: StreamGeometry) {
    && Scene(h, a, b, c, d, g)
    && plan == Plan([h, a, Padding(2), c, d], ScenePackets(), false, CoarseBlockCount(g))
  }

  /** Seen that way, the host keeps its promise. */
  lemma SceneAligns(plan: Plan, h: Record, a: Record, b: Record, c: Record, d: Record, g: StreamGeometry)
    requires ScenePlan(plan, h, a, b, c, d, g)
    ensures HostAligns(plan)
  {
    hide FrameSent, MaxBlockCount, CoarseBlockCount, Packable, Offset, Encode, AlignsAfter;
    SceneOffsets(h, a, b, c, d, g);
    var rs := plan.records;
    assert IsBoundary(rs, 24) && IsBoundary(rs, 40);
  }

  /** The walk in three steps to the lost header, over it, and in two to the end. */
  lemma SceneBefore(plan: Plan, t: Tally, h: Record, a: Record, b: Record, c: Record, d: Record, g: StreamGeometry)
    returns (t': Tally)
    requires ScenePlan(plan, h, a, b, c, d, g) && t == Tally(0, [], false, true, false, false)
    ensures t' == Tally(2, [0, 1], false, true, true, true) && PassAll(plan, t) == PassAll(plan, t')
  {
    hide FrameSent, MaxBlockCount, CoarseBlockCount, Packable, Offset, Encode, RangeLost;
    SceneOffsets(h, a, b, c, d, g);
    SceneLosses(plan.segments, 0, 8);
    SceneLosses(plan.segments, 8, 16);
    SceneLosses(plan.segments, 8, 24);
    assert plan.segments[1].lost && plan.segments[0].offset <= 8 && 24 <= End(plan.segments[0]);
    SentHeader([h, a, b, d], g);
    var t1 := Pass(plan, t);
    t' := Pass(plan, t1);
    assert PassAll(plan, t) == PassAll(plan, t1) && PassAll(plan, t1) == PassAll(plan, t');
  }

  lemma SceneOver(plan: Plan, t: Tally, h: Record, a: Record, b: Record, c: Record, d: Record, g: StreamGeometry)
    requires ScenePlan(plan, h, a, b, c, d, g) && t == Tally(2, [0, 1], false, true, true, true)
    ensures Pass(plan, t) == Tally(3, [0, 1], true, true, true, true)
  {
    hide FrameSent, MaxBlockCount, CoarseBlockCount, Packable, Offset, Encode, RangeLost, FirstFrom;
    SceneOffsets(h, a, b, c, d, g);
    SceneLosses(plan.segments, 24, 32);
    var segments := plan.segments;
    assert NextFrom(segments, 24, false, 2) == Some(40);
    assert NextFrom(segments, 24, false, 1) == NextFrom(segments, 24, false, 2);
    assert NextFrom(segments, 24, false, 0) == NextFrom(segments, 24, false, 1);
    assert ResumeOffset(plan, t) == 40;
    FirstThere(plan.records, 40, 3);
  }

  lemma FirstThere(rs: seq<Record>, o: nat, j: nat)
    requires j <= |rs| && Offset(rs, j) >= o
    ensures FirstFrom(rs, o, j) == j
  {
  }

  lemma SceneAfter(plan: Plan, t: Tally, h: Record, a: Record, b: Record, c: Record, d: Record, g: StreamGeometry)
    requires ScenePlan(plan, h, a, b, c, d, g) && t == Tally(3, [0, 1], true, true, true, true)
    ensures var t' := PassAll(plan, t); t'.got == [0, 1, 3, 4] && t'.partial && t'.intact
  {
    hide FrameSent, MaxBlockCount, CoarseBlockCount, Packable, Offset, Encode, RangeLost, AlignsAfter;
    SceneOffsets(h, a, b, c, d, g);
    SceneLosses(plan.segments, 40, 48);
    SceneLosses(plan.segments, 48, 56);
    SceneLosses(plan.segments, 48, 64);
    var t1 := Pass(plan, t);
    var t2 := Pass(plan, t1);
    assert t2.next == 5;
    assert PassAll(plan, t) == PassAll(plan, t1) && PassAll(plan, t1) == PassAll(plan, t2) == t2;
  }

  lemma SceneDelivered(plan: Plan, t: Tally, h: Record, a: Record, b: Record, c: Record, d: Record, g: StreamGeometry)
    requires ScenePlan(plan, h, a, b, c, d, g) && t == Tally(0, [], false, true, false, false)
    ensures var t' := PassAll(plan, t); t'.got == [0, 1, 3, 4] && t'.partial && t'.intact
  {
    hide ScenePlan, Pass;
    var before := SceneBefore(plan, t, h, a, b, c, d, g);
    SceneOver(plan, before, h, a, b, c, d, g);
    assert PassAll(plan, before) == PassAll(plan, Pass(plan, before)) by { SceneSize(plan, h, a, b, c, d, g); }
    SceneAfter(plan, Pass(plan, before), h, a, b, c, d, g);
  }

  lemma SceneSize(plan: Plan, h: Record, a: Record, b: Record, c: Record, d: Record, g: StreamGeometry)
    requires ScenePlan(plan, h, a, b, c, d, g)
    ensures |plan.records| == 5
  {
  }

  /** What pyrowaveframing.cpp:162-169 says of hosts that let ordinary records straddle packets, that the rest
      of the frame is lost, is not what happens: the parser takes a for a sign that the host packs, resumes
      inside b and hands on a block c that was never sent, as one of three out of three, without an error. */
  lemma ForeignBlockTaken(h: Record, a: Record, b: Record, c: Record, d: Record, g: StreamGeometry)
    requires Scene(h, a, b, c, d, g)
    ensures AllPackable([h, a, b, d]) && Arrival([h, a, b, d], ScenePackets(), Serialise([h, a, b, d]), g)
    ensures var data := Serialise([h, a, b, d]);
            var r := ParseResult(data, ScenePackets(), 0, g);
            && r.error.None? && Unpack(SpanBytes(data, r.frame.spans)) == Some([h, a, c, d])
            && r.frame.partial && r.frame.coarseLevelIntact && r.frame.blockRecords == r.frame.announcedBlocks
  {
    hide FrameSent, MaxBlockCount, CoarseBlockCount, Packable, Offset, Encode, Serialise, PassAll, ParseResult, Unpack,
         SpanBytes, RangeLost, Received, Gather, TrueRun, Genuine, AnyDamaged, Tiles, HostAligns, Contiguous, BlocksIn,
         BlocksUpTo;
    var sent, seen, segments := [h, a, b, d], [h, a, Padding(2), c, d], ScenePackets();
    SceneLooksAlike(h, a, b, c, d, g);
    var data, plan := Serialise(sent), PlanOf(seen, segments, 0, g);
    SceneOffsets(h, a, b, c, d, g);
    SceneLosses(segments, 0, 8);
    Itself(data, segments);
    SceneTiles(64);
    assert Arrival(seen, segments, data, g);
    SceneAligns(plan, h, a, b, c, d, g);
    PromiseKept(seen, segments, 0, g);
    DamagedFrame(seen, segments, data, 0, g);
    DamagedFrameUnpacks(seen, segments, data, 0, g);
    SceneDelivered(plan, Outset(segments, 0), h, a, b, c, d, g);
    assert Pick(seen, [0, 1, 3, 4]) == [h, a, c, d];
    SentHeader(sent, g);
    SceneCounts(seen);
  }

  lemma SceneTiles(size: nat)
    requires size == 64
    ensures Tiles(ScenePackets(), size) && Contiguous(ScenePackets())
  {
  }

  lemma Itself(data: seq<byte>, segments: seq<Segment>)
    ensures Received(data, segments, data)
  {
  }

  lemma SceneCounts(seen: seq<Record>)
    requires |seen| == 5 && seen[0].Header? && seen[1].Block? && seen[2].Padding? && seen[3].Block? && seen[4].Block?
    ensures Chosen(seen, [0, 1, 3, 4]) && BlocksIn(seen, [0, 1, 3, 4]) == BlocksUpTo(seen, 5)
  {
    hide BlocksUpTo, BlocksIn;
    NextBlocks(seen, 0);
    NextBlocks(seen, 1);
    NextBlocks(seen, 2);
    NextBlocks(seen, 3);
    NextBlocks(seen, 4);
    GatherNone(seen);
    assert [] + [0] == [0] && [0] + [1] == [0, 1] && [0, 1] + [3] == [0, 1, 3] && [0, 1, 3] + [4] == [0, 1, 3, 4];
    BlocksSnoc(seen, [], 0);
    BlocksSnoc(seen, [0], 1);
    BlocksSnoc(seen, [0, 1], 3);
    BlocksSnoc(seen, [0, 1, 3], 4);
  }

  lemma NextBlocks(rs: seq<Record>, k: nat)
    requires k < |rs|
    ensures BlocksUpTo(rs, 0) == 0
    ensures BlocksUpTo(rs, k + 1) == BlocksUpTo(rs, k) + if rs[k].Block? then 1 else 0
  {
  }

  lemma GatherNone(rs: seq<Record>)
    ensures Chosen(rs, []) && BlocksIn(rs, []) == 0
  {
  }

  lemma BlocksSnoc(rs: seq<Record>, got: seq<nat>, k: nat)
    requires Chosen(rs, got) && k < |rs|
    ensures Chosen(rs, got + [k]) && BlocksIn(rs, got + [k]) == BlocksIn(rs, got) + if rs[k].Block? then 1 else 0
  {
    assert (got + [k])[..|got + [k]| - 1] == got;
  }

  // ---- The same, in bytes that can be sent ----

  function Foreign(): Record {
    Block(0, 0, 0, 20, [])
  }

  /** Block 13 holds in its payload what reads as block 20. */
  function StraddledFrame(): seq<Record> {
    [Header(127, 127, 0, 3, 0, 0, 0), Block(0, 0, 0, 12, Zeros(8)), Block(0, 0, 0, 13, Zeros(8) + Encode(Foreign())),
     Block(0, 0, 0, 14, Zeros(8))]
  }

  lemma StraddledScene(g: StreamGeometry)
    requires g == StreamGeometry(128, 128, false)
    ensures var rs := StraddledFrame(); Scene(rs[0], rs[1], rs[2], Foreign(), rs[3], g)
  {
    hide MaxBlockCount, CoarseBlockCount, Encode, BlocksUpTo;
    var rs := StraddledFrame();
    SmallCounts(g);
    ThreeSent([rs[0], rs[1], rs[2], rs[3]], g);
    ThreeSeen([rs[0], rs[1], Padding(2), Foreign(), rs[3]], g);
  }

  /** 128x128, 4:2:0, blocks 12, 13 and 14 sent: 12, 20 and 14 are handed on, and nothing seems amiss. */
  lemma StraddledFrameForged(g: StreamGeometry)
    requires g == StreamGeometry(128, 128, false)
    ensures AllPackable(StraddledFrame()) && Arrival(StraddledFrame(), ScenePackets(), Serialise(StraddledFrame()), g)
    ensures var rs, data := StraddledFrame(), Serialise(StraddledFrame());
            var r := ParseResult(data, ScenePackets(), 0, g);
            && r.error.None? && Unpack(SpanBytes(data, r.frame.spans)) == Some([rs[0], rs[1], Foreign(), rs[3]])
            && r.frame.coarseLevelIntact && r.frame.blockRecords == r.frame.announcedBlocks
  {
    hide ParseResult, Scene, Arrival, AllPackable, Serialise, Encode, Unpack, SpanBytes;
    var rs := StraddledFrame();
    StraddledScene(g);
    ForeignBlockTaken(rs[0], rs[1], rs[2], Foreign(), rs[3], g);
    assert [rs[0], rs[1], rs[2], rs[3]] == rs;
  }

  /** The counts of the smallest geometry. */
  lemma SmallCounts(g: StreamGeometry)
    requires g == StreamGeometry(128, 128, false)
    ensures CoarseBlockCount(g) == 12 && MaxBlockCount(g) == 51
  {
    var side := AlignedExtent(128);
    assert Shr(side, 1) == 64 && Shr(side, 2) == 32 && Shr(side, 3) == 16 && Shr(side, 4) == 8 && Shr(side, 5) == 4;
    BlocksBelowUnrolled(g);
    hide BlocksBelow;
    assert LevelBlocks(g, 0) == 12 && LevelBlocks(g, 1) == 9 && LevelBlocks(g, 2) == 9 && LevelBlocks(g, 3) == 9;
    assert LevelBlocks(g, 4) == 12;
  }

  lemma ThreeSent(rs: seq<Record>, g: StreamGeometry)
    requires |rs| == 4 && rs[0] == Header(127, 127, 0, 3, 0, 0, 0) && g == StreamGeometry(128, 128, false)
    requires forall k :: 0 < k < 4 ==>
               rs[k].Block? && Packable(rs[k]) && rs[k].sequence == 0 && rs[k].index < MaxBlockCount(g)
    requires MaxBlockCount(g) == 51
    ensures FrameSent(rs, g, MaxBlockCount(g))
  {
    hide MaxBlockCount, BlocksUpTo;
    NextBlocks(rs, 0);
    NextBlocks(rs, 1);
    NextBlocks(rs, 2);
    NextBlocks(rs, 3);
    assert forall k :: 0 < k < |rs| ==> BodyRecord(rs[k], rs[0].sequence, MaxBlockCount(g));
  }

  lemma ThreeSeen(rs: seq<Record>, g: StreamGeometry)
    requires |rs| == 5 && rs[0] == Header(127, 127, 0, 3, 0, 0, 0) && g == StreamGeometry(128, 128, false)
             && rs[2] == Padding(2)
    requires forall k :: 0 < k < 5 && k != 2
               ==> rs[k].Block? && Packable(rs[k]) && rs[k].sequence == 0 && rs[k].index < MaxBlockCount(g)
    requires MaxBlockCount(g) == 51
    ensures FrameSent(rs, g, MaxBlockCount(g))
  {
    hide MaxBlockCount, BlocksUpTo;
    NextBlocks(rs, 0);
    NextBlocks(rs, 1);
    NextBlocks(rs, 2);
    NextBlocks(rs, 3);
    NextBlocks(rs, 4);
    assert forall k :: 0 < k < |rs| ==> BodyRecord(rs[k], rs[0].sequence, MaxBlockCount(g));
  }
}
