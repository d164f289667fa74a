/** What the network thread hands to the renderer: decode units, the frames they assemble to, and the
    window of statistics they are counted in. */
module DecodeUnits {
  import opened Words
  import opened PacketMap

  datatype BufferType = PicData | Lost | RecordStart

  /** One RTP packet's payload. */
  datatype Buffer = Buffer(data: seq<byte>, bufferType: BufferType)

  /** latency: the host's processing time in tenths of a millisecond, 0 when not reported. */
  datatype DecodeUnit = DecodeUnit(frameNumber: int, latency: nat, fullLength: nat, buffers: seq<Buffer>,
                                   criticalPackets: nat)

  datatype PendingFrame = PendingFrame(data: seq<byte>, segments: seq<Segment>, criticalPackets: nat, valid: bool)

  const EMPTY := PendingFrame([], [], 0, false)

  // ---- The frame a unit assembles to ----

  function Joined(buffers: seq<Buffer>): seq<byte> {
    if buffers == [] then [] else Joined(buffers[..|buffers| - 1]) + buffers[|buffers| - 1].data
  }

  function SegmentOf(buffer: Buffer, offset: nat): Segment {
    Segment(offset, |buffer.data|, buffer.bufferType.Lost?, buffer.bufferType.RecordStart?)
  }

  function SegmentsOf(buffers: seq<Buffer>): (segments: seq<Segment>)
    ensures |segments| == |buffers|
  {
    if buffers == [] then []
    else
      var front, last := buffers[..|buffers| - 1], buffers[|buffers| - 1];
      SegmentsOf(front) + [SegmentOf(last, |Joined(front)|)]
  }

  function Assembled(du: DecodeUnit): PendingFrame {
    PendingFrame(Joined(du.buffers), SegmentsOf(du.buffers), du.criticalPackets, true)
  }

  lemma JoinedNext(buffers: seq<Buffer>, i: nat)
    requires i < |buffers|
    ensures Joined(buffers[..i + 1]) == Joined(buffers[..i]) + buffers[i].data
    ensures SegmentsOf(buffers[..i + 1]) == SegmentsOf(buffers[..i]) + [SegmentOf(buffers[i], |Joined(buffers[..i])|)]
  {
    assert buffers[..i + 1][..i] == buffers[..i];
  }

  /** Segment i is buffer i's, placed behind the buffers before it. */
  lemma {:induction false} SegmentAt(buffers: seq<Buffer>, i: nat)
    requires i < |buffers|
    ensures SegmentsOf(buffers)[i] == SegmentOf(buffers[i], |Joined(buffers[..i])|)
  {
    if i < |buffers| - 1 {
      var front := buffers[..|buffers| - 1];
      SegmentAt(front, i);
      assert front[..i] == buffers[..i];
    }
  }

  /** The segments tile the frame exactly when no buffer is empty, so that alone decides whether
      parse refuses the packet map. */
  lemma AssembledTiles(du: DecodeUnit)
    ensures var frame := Assembled(du);
            Tiles(frame.segments, |frame.data|) <==> (forall i :: 0 <= i < |du.buffers| ==> du.buffers[i].data != [])
  {
    hide SegmentsOf, Joined;
    var buffers := du.buffers;
    var segments := SegmentsOf(buffers);
    forall i | 0 <= i < |buffers| ensures segments[i] == SegmentOf(buffers[i], |Joined(buffers[..i])|) {
      SegmentAt(buffers, i);
    }
    forall i | 0 <= i < |buffers| ensures |Joined(buffers[..i + 1])| == |Joined(buffers[..i])| + |buffers[i].data| {
      JoinedNext(buffers, i);
    }
    assert buffers[..|buffers|] == buffers;
    if buffers == [] {
      NothingAssembled();
    } else {
      assert buffers[..0] == [];
      NothingAssembled();
      forall i, j | 0 <= i < |segments| && j == i + 1 < |segments| ensures segments[j].offset == End(segments[i]) {
        assert buffers[..j] == buffers[..i + 1];
      }
      var last := |buffers| - 1;
      assert End(segments[last]) == |Joined(buffers[..last + 1])| == |Joined(buffers)|;
      if Tiles(segments, |Joined(buffers)|) {
        forall i | 0 <= i < |buffers| ensures buffers[i].data != [] {
          assert segments[i].size > 0;
        }
      }
    }
  }

  lemma NothingAssembled()
    ensures SegmentsOf([]) == [] && Joined([]) == []
  {
  }

  // ---- What the unit's buffers say of the frame's bytes ----

  /** Bytes of the first n buffers. */
  function Sizes(buffers: seq<Buffer>, n: nat): nat
    requires n <= |buffers|
  {
    if n == 0 then 0 else Sizes(buffers, n - 1) + |buffers[n - 1].data|
  }

  /** Byte b of the buffers, laid end to end, is in buffer i. */
  ghost predicate InBuffer(buffers: seq<Buffer>, i: nat, b: nat) {
    i < |buffers| && Sizes(buffers, i) <= b < Sizes(buffers, i + 1)
  }

  /** A packet map that says of every buffer where it lies, whether it stands for a lost packet, and whether its
      packet starts with a record. */
  ghost predicate Describes(segments: seq<Segment>, buffers: seq<Buffer>) {
    && |segments| == |buffers|
    && forall i :: 0 <= i < |segments| ==>
        && segments[i].offset == Sizes(buffers, i) && segments[i].size == |buffers[i].data|
        && (segments[i].lost <==> buffers[i].bufferType == Lost)
        && (segments[i].recordStart <==> buffers[i].bufferType == RecordStart)
  }

  lemma {:induction false} JoinedSize(buffers: seq<Buffer>, n: nat)
    requires n <= |buffers|
    ensures |Joined(buffers[..n])| == Sizes(buffers, n)
  {
    if n > 0 {
      JoinedSize(buffers, n - 1);
      JoinedNext(buffers, n - 1);
    }
  }

  /** Buffer i's bytes lie behind those before it. */
  ghost predicate Carries(data: seq<byte>, buffers: seq<Buffer>, i: nat)
    requires i < |buffers|
  {
    && Sizes(buffers, i + 1) <= |data|
    && data[Sizes(buffers, i)..Sizes(buffers, i + 1)] == buffers[i].data
  }

  lemma {:induction false} JoinedCarries(buffers: seq<Buffer>, i: nat, n: nat)
    requires i < n <= |buffers|
    ensures Carries(Joined(buffers[..n]), buffers, i)
    decreases n
  {
    JoinedSize(buffers, n);
    JoinedSize(buffers, n - 1);
    JoinedNext(buffers, n - 1);
    if i < n - 1 {
      JoinedCarries(buffers, i, n - 1);
      var front := Joined(buffers[..n - 1]);
      assert (front + buffers[n - 1].data)[Sizes(buffers, i)..Sizes(buffers, i + 1)]
          == front[Sizes(buffers, i)..Sizes(buffers, i + 1)];
    }
  }

  lemma AssembledAt(buffers: seq<Buffer>, i: nat)
    requires i < |buffers|
    ensures SegmentsOf(buffers)[i] == SegmentOf(buffers[i], Sizes(buffers, i)) && Carries(Joined(buffers), buffers, i)
  {
    hide Joined, SegmentsOf, Sizes, Carries;
    assert buffers[..|buffers|] == buffers;
    SegmentAt(buffers, i);
    JoinedSize(buffers, i);
    JoinedCarries(buffers, i, |buffers|);
  }

  /** The frame a unit assembles to: its map describes the buffers, its bytes are theirs, its critical packets the
      unit's. */
  lemma AssembledSays(du: DecodeUnit)
    ensures var frame := Assembled(du);
            && Describes(frame.segments, du.buffers) && frame.criticalPackets == du.criticalPackets
            && |frame.data| == Sizes(du.buffers, |du.buffers|)
            && forall i :: 0 <= i < |du.buffers| ==> Carries(frame.data, du.buffers, i)
  {
    hide Joined, SegmentsOf, Sizes, Carries;
    var buffers := du.buffers;
    assert buffers[..|buffers|] == buffers;
    JoinedSize(buffers, |buffers|);
    forall i | 0 <= i < |buffers|
      ensures SegmentsOf(buffers)[i] == SegmentOf(buffers[i], Sizes(buffers, i)) && Carries(Joined(buffers), buffers, i)
    {
      AssembledAt(buffers, i);
    }
  }

  /** There is one such map. */
  lemma DescribedOnce(a: seq<Segment>, b: seq<Segment>, buffers: seq<Buffer>)
    requires Describes(a, buffers) && Describes(b, buffers)
    ensures a == b
  {
    hide Sizes;
    forall i | 0 <= i < |a| ensures a[i] == b[i] {
    }
  }

  /** A byte was lost if and only if it is in a buffer that stands for a lost packet. */
  lemma BytesLost(segments: seq<Segment>, buffers: seq<Buffer>, b: nat)
    requires Describes(segments, buffers)
    ensures ByteLost(segments, b) <==> exists i: nat :: InBuffer(buffers, i, b) && buffers[i].bufferType == Lost
  {
    if ByteLost(segments, b) {
      var i :| 0 <= i < |segments| && segments[i].lost && Holds(segments[i], b);
      assert InBuffer(buffers, i, b);
    }
    if i: nat :| InBuffer(buffers, i, b) && buffers[i].bufferType == Lost {
      assert segments[i].lost && Holds(segments[i], b);
    }
  }

  // ---- Statistics ----

  datatype WindowStats = WindowStats(received: nat, presented: nat, dropped: nat, partial: nat, lost: nat,
                                     hostLatencyFrames: nat, hostLatencyTotal: nat, hostLatencyMin: nat,
                                     hostLatencyMax: nat)

  const NO_STATS := WindowStats(0, 0, 0, 0, 0, 0, 0, 0, 0)

  /** Frames missing between the last number seen (0: none yet) and this one. */
  function Gap(last: int, number: int): nat {
    if last != 0 && number > last + 1 then number - last - 1 else 0
  }

  function LastNumber(units: seq<DecodeUnit>): int {
    if units == [] then 0 else units[|units| - 1].frameNumber
  }

  function LostIn(units: seq<DecodeUnit>): nat {
    if units == [] then 0
    else LostIn(units[..|units| - 1]) + Gap(LastNumber(units[..|units| - 1]), units[|units| - 1].frameNumber)
  }

  ghost predicate Numbered(units: seq<DecodeUnit>) {
    && (forall i :: 0 <= i < |units| ==> units[i].frameNumber > 0)
    && (forall i, j :: 0 <= i < j < |units| ==> units[i].frameNumber < units[j].frameNumber)
  }

  /** With increasing frame numbers, every number from the first to the last was received or counted lost. */
  lemma {:induction false} ReceivedAndLost(units: seq<DecodeUnit>)
    requires Numbered(units) && units != []
    ensures |units| + LostIn(units) == LastNumber(units) - units[0].frameNumber + 1
  {
    if |units| > 1 {
      var front := units[..|units| - 1];
      ReceivedAndLost(front);
      assert LastNumber(front) == units[|units| - 2].frameNumber;
    } else {
      assert units[..0] == [];
    }
  }

  /** The latencies that were reported, in order. */
  function Reported(units: seq<DecodeUnit>): seq<nat> {
    if units == [] then []
    else
      var last := units[|units| - 1].latency;
      Reported(units[..|units| - 1]) + if last == 0 then [] else [last]
  }

  function TotalOf(latencies: seq<nat>): nat {
    if latencies == [] then 0 else TotalOf(latencies[..|latencies| - 1]) + latencies[|latencies| - 1]
  }

  /** The window's latency figures are those of these units: how many reported one, the sum, the least and the
      greatest. */
  ghost predicate LatencyTells(w: WindowStats, units: seq<DecodeUnit>) {
    var latencies := Reported(units);
    && w.hostLatencyFrames == |latencies| && w.hostLatencyTotal == TotalOf(latencies)
    && if latencies == [] then w.hostLatencyMin == w.hostLatencyMax == 0
       else
         && w.hostLatencyMin in latencies && w.hostLatencyMax in latencies
         && forall i :: 0 <= i < |latencies| ==> w.hostLatencyMin <= latencies[i] <= w.hostLatencyMax
  }

  function WithLatency(w: WindowStats, latency: nat): WindowStats {
    if latency == 0 then w
    else
      w.(hostLatencyMin := if w.hostLatencyFrames == 0 || latency < w.hostLatencyMin then latency else w.hostLatencyMin,
         hostLatencyMax := Max(w.hostLatencyMax, latency),
         hostLatencyTotal := w.hostLatencyTotal + latency,
         hostLatencyFrames := w.hostLatencyFrames + 1)
  }

  lemma ReportedNext(units: seq<DecodeUnit>, du: DecodeUnit)
    ensures Reported(units + [du]) == Reported(units) + if du.latency == 0 then [] else [du.latency]
    ensures du.latency != 0 ==> TotalOf(Reported(units + [du])) == TotalOf(Reported(units)) + du.latency
  {
    assert (units + [du])[..|units + [du]| - 1] == units;
    var longer := Reported(units) + [du.latency];
    assert longer[..|longer| - 1] == Reported(units);
  }

  /** One unit more, and its latency noted. */
  lemma LatencyTold(w: WindowStats, units: seq<DecodeUnit>, du: DecodeUnit)
    requires LatencyTells(w, units)
    ensures LatencyTells(WithLatency(w, du.latency), units + [du])
  {
    hide Reported, TotalOf;
    ReportedNext(units, du);
    var latencies, w' := Reported(units), WithLatency(w, du.latency);
    if du.latency == 0 {
      assert latencies + [] == latencies;
    } else {
      var longer := latencies + [du.latency];
      assert longer[|latencies|] == du.latency;
      forall i | 0 <= i < |longer| ensures w'.hostLatencyMin <= longer[i] <= w'.hostLatencyMax {
        if i < |latencies| { assert longer[i] == latencies[i]; }
      }
    }
  }

  /** So the average is between the least and the greatest. */
  lemma LatencyBounds(w: WindowStats, units: seq<DecodeUnit>)
    requires LatencyTells(w, units)
    ensures w.hostLatencyFrames * w.hostLatencyMin <= w.hostLatencyTotal <= w.hostLatencyFrames * w.hostLatencyMax
  {
    TotalBounds(Reported(units), w.hostLatencyMin, w.hostLatencyMax);
  }

  lemma {:induction false} TotalBounds(latencies: seq<nat>, lo: nat, hi: nat)
    requires forall i :: 0 <= i < |latencies| ==> lo <= latencies[i] <= hi
    ensures |latencies| * lo <= TotalOf(latencies) <= |latencies| * hi
  {
    if latencies != [] {
      var front, last := latencies[..|latencies| - 1], latencies[|latencies| - 1];
      TotalBounds(front, lo, hi);
      assert |latencies| * lo == |front| * lo + lo && |latencies| * hi == |front| * hi + hi;
    }
  }
}
