/** The renderer: a one-slot mailbox between the network thread and the render thread, and what the
    render thread does with a frame. What the driver answers is a parameter.

    A turn is what one thread does under one lock, or between two waits: the network thread counts a unit
    (under the statistics lock) and delivers it (under the frame lock), the render thread takes a frame,
    decodes it and presents it. The turns of all threads may fall in any order, and the GPU runs between
    them and, within presenting, wherever the render thread waits. */
module Renderer {
  import opened Words
  import opened Geometry
  import opened PacketMap
  import opened FramingSpec
  import opened FramingSound
  import opened Framing
  import opened Decoder
  import opened DecodeUnits
  import opened Vulkan
  import BlockMapping

  // ---- What becomes of one frame's bytes ----

  datatype Verdict =
    | Unparsed(error: Error)
    | Refused
    | Incomplete
    | CoarseLost
    | TooFewBlocks
    | Decodable(partial: bool)

  /** How far a frame gets before the GPU: parsed, taken in by the cleared decoder, ready. */
  ghost function Judge(frame: PendingFrame, g: StreamGeometry, blockCount: nat): Verdict {
    var r := ParseResult(frame.data, frame.segments, frame.criticalPackets, g);
    if r.error.Some? then Unparsed(r.error.value)
    else
      DeliveredAccepted(frame.data, frame.segments, frame.criticalPackets, g);
      var (ok, intake) := PushAll(g, blockCount, frame.data, r.frame.spans, Cleared(blockCount));
      if !ok then Refused
      else if !r.frame.partial then (if Ready(intake) then Decodable(false) else Incomplete)
      else if !r.frame.coarseLevelIntact then CoarseLost
      else if ReadyPartial(intake) then Decodable(true)
      else TooFewBlocks
  }

  // ---- What the driver answers ----

  datatype FenceAnswer = FenceDone | FenceTimeout | DeviceLost
  datatype ImageAnswer = Acquired | Suboptimal | OutOfDate | NoImage

  /** The driver's answers during one frame, and what the GPU does while the CPU is at it. */
  datatype Driver = Driver(decodes: bool, recreated: bool, fence: FenceAnswer, image: ImageAnswer, queued: bool,
                           presentOutOfDate: bool,
                           beforeWait: seq<Event>, beforeSubmit: seq<Event>)

  predicate GotImage(answer: ImageAnswer) {
    answer.Acquired? || answer.Suboptimal?
  }

  datatype Fate = Rejected | Presented | Skipped

  function Sum(windows: seq<WindowStats>): WindowStats {
    if windows == [] then NO_STATS
    else
      var s, w := Sum(windows[..|windows| - 1]), windows[|windows| - 1];
      WindowStats(s.received + w.received, s.presented + w.presented, s.dropped + w.dropped, s.partial + w.partial,
                  s.lost + w.lost,
                  s.hostLatencyFrames + w.hostLatencyFrames, s.hostLatencyTotal + w.hostLatencyTotal, 0, 0)
  }

  lemma SumSnoc(windows: seq<WindowStats>, w: WindowStats)
    ensures var s := Sum(windows);
            Sum(windows + [w]) ==
            WindowStats(s.received + w.received, s.presented + w.presented, s.dropped + w.dropped,
                        s.partial + w.partial, s.lost + w.lost, s.hostLatencyFrames + w.hostLatencyFrames,
                        s.hostLatencyTotal + w.hostLatencyTotal, 0, 0)
  {
    assert (windows + [w])[..|windows + [w]| - 1] == windows;
  }

  function Resized(data: seq<byte>, n: nat): (r: seq<byte>)
    ensures |r| == n
  {
    if n <= |data| then data[..n] else data + seq(n - |data|, _ => 0)
  }

  lemma ResizedKeeps(data: seq<byte>, n: nat, k: nat)
    requires k <= n && k <= |data|
    ensures Resized(data, n)[..k] == data[..k]
    ensures k == n ==> Resized(data, n) == data[..k]
  {
  }

  lemma CopiedBehind(data: seq<byte>, offset: nat, part: seq<byte>)
    requires offset + |part| <= |data|
    ensures var copied := data[..offset] + part + data[offset + |part|..];
            |copied| == |data| && copied[..offset + |part|] == data[..offset] + part
  {
  }

  /** The mailbox holds the newest unit, and the render thread takes later and later ones. */
  ghost predicate HandOver(units: seq<DecodeUnit>, taken: seq<nat>, incoming: PendingFrame, frame: PendingFrame,
                           working: bool) {
    && (incoming.valid ==> units != [] && incoming == Assembled(units[|units| - 1]))
    && (forall i, j :: 0 <= i < j < |taken| ==> taken[i] < taken[j])
    && (forall i :: 0 <= i < |taken| ==> taken[i] < |units| - (if incoming.valid then 1 else 0))
    && (working ==> taken != [] && frame == Assembled(units[taken[|taken| - 1]]))
  }

  /** The units submitted are those delivered, and the one about to be. */
  ghost predicate Reached(units: seq<DecodeUnit>, delivered: seq<DecodeUnit>, offered: Option<DecodeUnit>) {
    units == delivered + (if offered.Some? then [offered.value] else [])
  }

  lemma UnitReaches(units: seq<DecodeUnit>, delivered: seq<DecodeUnit>, du: DecodeUnit)
    ensures Reached(units, delivered, None) ==> Reached(units + [du], delivered, Some(du))
    ensures Reached(units, delivered, Some(du)) ==> units == delivered + [du] && Reached(units, delivered + [du], None)
    ensures Reached(units, delivered, None) ==> units == delivered
  {
  }

  /** The windows handed over and the open one add up to what was seen. */
  ghost predicate Counted(sum: WindowStats, open: WindowStats, units: seq<DecodeUnit>, lastNumber: int,
                          presented: nat) {
    && sum.received + open.received == |units| && sum.lost + open.lost == LostIn(units)
    && lastNumber == LastNumber(units)
    && sum.presented + open.presented == presented
  }

  /** The latency figures of the k-th window are those of the units received in it. */
  ghost predicate WindowTold(windows: seq<WindowStats>, units: seq<DecodeUnit>, k: nat)
    requires k < |windows|
  {
    var from, to := Sum(windows[..k]).received, Sum(windows[..k + 1]).received;
    from <= to <= |units| && LatencyTells(windows[k], units[from..to])
  }

  /** The latency figures of every window, the open one too, are those of its units. */
  ghost predicate Told(windows: seq<WindowStats>, open: WindowStats, units: seq<DecodeUnit>) {
    && Sum(windows).received <= |units| && LatencyTells(open, units[Sum(windows).received..])
    && forall k :: 0 <= k < |windows| ==> WindowTold(windows, units, k)
  }

  lemma ToldUnit(windows: seq<WindowStats>, open: WindowStats, units: seq<DecodeUnit>, du: DecodeUnit)
    requires Told(windows, open, units)
    ensures Told(windows, WithLatency(open, du.latency), units + [du])
  {
    hide LatencyTells, WithLatency, Sum;
    var all, from := units + [du], Sum(windows).received;
    assert all[from..] == units[from..] + [du];
    LatencyTold(open, units[from..], du);
    forall k | 0 <= k < |windows| ensures WindowTold(windows, all, k) {
      assert WindowTold(windows, units, k);
      var lo, hi := Sum(windows[..k]).received, Sum(windows[..k + 1]).received;
      assert all[lo..hi] == units[lo..hi];
    }
  }

  lemma ToldOnly(windows: seq<WindowStats>, open: WindowStats, open': WindowStats, units: seq<DecodeUnit>)
    requires Told(windows, open, units)
    requires open' == open.(received := open'.received, lost := open'.lost, presented := open'.presented)
    ensures Told(windows, open', units)
  {
    hide Sum, WindowTold, Reported;
  }

  /** Handing the window over. */
  lemma ToldTaken(windows: seq<WindowStats>, open: WindowStats, window: WindowStats, units: seq<DecodeUnit>)
    requires Told(windows, open, units) && Sum(windows).received + open.received == |units|
    requires window == open.(dropped := window.dropped, partial := window.partial)
    ensures Told(windows + [window], NO_STATS, units)
  {
    hide Sum, LatencyTells;
    var all := windows + [window];
    SumSnoc(windows, window);
    assert units[|units|..] == [];
    assert LatencyTells(NO_STATS, []) by { NothingTold(); }
    forall k | 0 <= k < |all| ensures WindowTold(all, units, k) {
      if k < |windows| {
        assert WindowTold(windows, units, k);
        assert all[..k] == windows[..k] && all[..k + 1] == windows[..k + 1];
      } else {
        assert all[..k] == windows && all[..k + 1] == all;
        assert units[Sum(windows).received..|units|] == units[Sum(windows).received..];
        TellsOnly(open, window, units[Sum(windows).received..]);
      }
    }
  }

  lemma TellsOnly(w: WindowStats, w': WindowStats, units: seq<DecodeUnit>)
    requires LatencyTells(w, units) && w' == w.(dropped := w'.dropped, partial := w'.partial)
    ensures LatencyTells(w', units)
  {
    hide Reported;
  }

  lemma NothingTold()
    ensures LatencyTells(NO_STATS, [])
  {
  }

  /** The counters are the timelines', and unless broken the fence and the acquire semaphore have owners. */
  ghost predicate InStep(gpu: Gpu, broken: bool, decodeValue: nat, renderValue: nat) {
    && Sound(gpu) && (!broken ==> Owned(gpu))
    && decodeValue == Decodes(gpu.ops, |gpu.ops|) && renderValue == Renders(gpu.ops, |gpu.ops|)
  }

  lemma LatencyKeepsCounts(sum: WindowStats, open: WindowStats, latency: nat, units: seq<DecodeUnit>, lastNumber: int,
                           presented: nat)
    requires Counted(sum, open, units, lastNumber, presented)
    ensures Counted(sum, WithLatency(open, latency), units, lastNumber, presented)
  {
  }

  lemma UnitCounted(sum: WindowStats, open: WindowStats, units: seq<DecodeUnit>, lastNumber: int, presented: nat,
                    du: DecodeUnit)
    requires Counted(sum, open, units, lastNumber, presented)
    ensures Counted(sum, open.(received := open.received + 1, lost := open.lost + Gap(lastNumber, du.frameNumber)),
                    units + [du],
                    du.frameNumber, presented)
  {
    assert (units + [du])[..|units + [du]| - 1] == units;
  }

  /** The fence wait answers that it is signalled only when it is. */
  function Waited(answer: FenceAnswer, gpu: Gpu): FenceAnswer {
    if answer.FenceDone? && !gpu.fence then FenceTimeout else answer
  }

  lemma InStepSized(gpu: Gpu, broken: bool, decodeValue: nat, renderValue: nat)
    requires InStep(gpu, broken, decodeValue, renderValue)
    ensures |gpu.phases| == |gpu.ops|
  {
  }

  /** Nothing but the pending signal can happen to an acquire semaphore no submission waits on. */
  lemma {:induction false} AdvanceSpares(gpu: Gpu, events: seq<Event>)
    requires |gpu.phases| == |gpu.ops| && MayQueue(gpu)
    ensures MayQueue(Advance(gpu, events))
    decreases |events|
  {
    if events != [] {
      AdvanceSpares(if Enabled(gpu, events[0]) then Happen(gpu, events[0]) else gpu, events[1..]);
    }
  }

  /** The first span refused ends the pushing. */
  lemma {:induction false} PushStopsAt(g: StreamGeometry, blockCount: nat, data: seq<byte>, spans: seq<Span>, i: nat,
                                       intake: Intake)
    requires i <= |spans| && SpansInside(spans, |data|) && !PushAll(g, blockCount, data, spans[..i], intake).0
    ensures PushAll(g, blockCount, data, spans, intake) == PushAll(g, blockCount, data, spans[..i], intake)
    decreases |spans|
  {
    hide Push;
    if i == |spans| {
      assert spans[..i] == spans;
    } else {
      var front := spans[..|spans| - 1];
      assert front[..i] == spans[..i];
      PushStopsAt(g, blockCount, data, front, i, intake);
    }
  }

  /** A presented frame is counted in the open window as in the total. */
  lemma KeepsCounting(sum: WindowStats, open: WindowStats, open': WindowStats, units: seq<DecodeUnit>, lastNumber: int,
                      presented: nat, presented': nat)
    requires Counted(sum, open, units, lastNumber, presented)
    requires open' == open.(presented := open'.presented) && open'.presented - open.presented == presented' - presented
    ensures Counted(sum, open', units, lastNumber, presented')
  {
  }

  /** Exactly one counter counts the frame. */
  ghost predicate Settled(fate: Fate, rejected: nat, rejected': nat, presented: nat, presented': nat, skipped: nat,
                          skipped': nat) {
    && rejected' == rejected + (if fate.Rejected? then 1 else 0)
    && presented' == presented + (if fate.Presented? then 1 else 0)
    && skipped' == skipped + (if fate.Skipped? then 1 else 0)
  }

  /** Every frame submitted is accounted for: replaced, rejected, presented, skipped, not delivered yet, in the
      mailbox, or in hand. */
  ghost predicate Balanced(submitted: nat, replaced: nat, rejected: nat, presented: nat, skipped: nat,
                           offered: bool, waiting: bool, working: bool) {
    submitted == replaced + rejected + presented + skipped
                 + (if offered then 1 else 0) + (if waiting then 1 else 0) + (if working then 1 else 0)
  }

  /** A frame counted once leaves the account balanced. */
  lemma SettledBalances(fate: Fate, submitted: nat, replaced: nat, rejected: nat, rejected': nat, presented: nat,
                        presented': nat, skipped: nat, skipped': nat, offered: bool, waiting: bool)
    requires Balanced(submitted, replaced, rejected, presented, skipped, offered, waiting, true)
    requires Settled(fate, rejected, rejected', presented, presented', skipped, skipped')
    ensures Balanced(submitted, replaced, rejected', presented', skipped', offered, waiting, false)
  {
  }

  /** What the driver's answers come to: whether the frame is presented, rejected or skipped, whether
      rendering goes on, and whether the swapchain must be made anew. */
  predicate Decided(driver: Driver, swapchain: bool, fence: FenceAnswer, fate: Fate, broken: bool, needRecreate: bool) {
    && (fate.Presented? <==> swapchain && fence.FenceDone? && GotImage(driver.image) && driver.queued)
    && (fate.Rejected? <==> swapchain && fence.FenceTimeout?)
    && (broken <==> swapchain && (fence.DeviceLost? || (fence.FenceDone? && GotImage(driver.image) && !driver.queued)))
    && (needRecreate <==>
        !swapchain || (fence.FenceDone? && driver.image.OutOfDate?) || (fate.Presented? && driver.presentOutOfDate))
  }

  lemma NewestTaken(units: seq<DecodeUnit>, taken: seq<nat>, incoming: PendingFrame, frame: PendingFrame)
    requires HandOver(units, taken, incoming, frame, false) && incoming.valid
    ensures units != [] && incoming == Assembled(units[|units| - 1])
    ensures HandOver(units, taken + [|units| - 1], frame.(valid := false), incoming, true)
  {
    hide Assembled;
  }

  lemma NewestOffered(units: seq<DecodeUnit>, taken: seq<nat>, incoming: PendingFrame, frame: PendingFrame,
                      working: bool, du: DecodeUnit)
    requires HandOver(units, taken, incoming, frame, working)
    ensures HandOver(units + [du], taken, Assembled(du), frame, working) && Assembled(du).valid
  {
    hide Joined, SegmentsOf;
  }

  lemma HandedOff(units: seq<DecodeUnit>, taken: seq<nat>, incoming: PendingFrame, frame: PendingFrame)
    requires HandOver(units, taken, incoming, frame, true)
    ensures HandOver(units, taken, incoming, frame, false)
  {
  }

  lemma CreatedInStep()
    ensures InStep(CREATED, false, 0, 0)
  {
    assert DoneUpTo(CREATED, 0) && Timelines(CREATED, 0);
  }

  lemma NothingTakenYet(units: seq<DecodeUnit>, taken: seq<nat>, incoming: PendingFrame, frame: PendingFrame)
    requires units == [] && taken == [] && !incoming.valid
    ensures HandOver(units, taken, incoming, frame, false)
  {
    hide Assembled;
  }

  lemma NothingToldYet()
    ensures Sum([]) == NO_STATS && Told([], NO_STATS, [])
  {
    hide LatencyTells, WindowTold;
    NothingTold();
    var none: seq<DecodeUnit> := [];
    assert none[0..] == none;
  }

  lemma NothingCountedYet(windows: seq<WindowStats>, units: seq<DecodeUnit>, open: WindowStats)
    requires windows == [] && units == [] && open == NO_STATS
    ensures Sum(windows) == NO_STATS && Counted(Sum(windows), open, units, 0, 0) && Told(windows, open, units)
  {
    hide Told;
    NothingToldYet();
  }

  /** A turn of one of the threads. */
  datatype Turn =
    | Count(du: DecodeUnit)
    | Deliver
    | Wait
    | Decode(decodes: bool)
    | Present(driver: Driver)
    | Gpu(events: seq<Event>)
    | Overlay
    | Stop

  class Renderer {
    const m_Geometry: StreamGeometry
    const m_Parsed: Frame
    const m_Decoder: PacketDecoder

    var framesSubmitted: nat
    var framesReplaced: nat
    var framesRejected: nat
    var framesPartial: nat
    var framesPresented: nat
    var m_StatsWindow: WindowStats
    var m_LastFrameNumber: int
    var m_RejectedAtLastTake: nat
    var m_PartialAtLastTake: nat
    /** The unit submit has counted but not yet delivered. */
    var m_Offered: Option<DecodeUnit>
    var m_Incoming: PendingFrame
    /** The frame renderLoop works on, whether it has one in hand, and whether that has been decoded. */
    var m_Frame: PendingFrame
    var m_Working: bool
    var m_Decoded: bool
    var m_Stop: bool
    var m_NeedRecreate: bool
    var m_Broken: bool
    var m_DecodeValue: nat
    var m_RenderValue: nat
    var gpu: Gpu

    /** Every unit submitted, and those that reached the mailbox; for each frame taken, which of these it
        was; frames given up without being counted; windows handed over. */
    ghost var units: seq<DecodeUnit>
    ghost var delivered: seq<DecodeUnit>
    ghost var taken: seq<nat>
    ghost var skipped: nat
    ghost var windows: seq<WindowStats>

    ghost predicate MailboxValid()
      reads this`framesSubmitted, this`framesReplaced, this`framesRejected, this`framesPresented, this`skipped
      reads this`m_Offered, this`m_Incoming, this`m_Working, this`m_Frame, this`units, this`delivered, this`taken
    {
      && Balanced(framesSubmitted, framesReplaced, framesRejected, framesPresented, skipped,
                  m_Offered.Some?, m_Incoming.valid, m_Working)
      && framesSubmitted == |units|
      && Reached(units, delivered, m_Offered)
      && HandOver(delivered, taken, m_Incoming, m_Frame, m_Working)
    }

    ghost predicate StatsValid()
      reads this`windows, this`m_StatsWindow, this`units, this`m_LastFrameNumber, this`framesPresented,
          this`framesRejected
      reads this`framesPartial, this`m_RejectedAtLastTake, this`m_PartialAtLastTake
    {
      && Counted(Sum(windows), m_StatsWindow, units, m_LastFrameNumber, framesPresented)
      && Sum(windows).dropped == m_RejectedAtLastTake <= framesRejected
      && Sum(windows).partial == m_PartialAtLastTake <= framesPartial
      && Told(windows, m_StatsWindow, units)
    }

    ghost predicate GpuValid()
      reads this`gpu, this`m_Broken, this`m_DecodeValue, this`m_RenderValue
    {
      InStep(gpu, m_Broken, m_DecodeValue, m_RenderValue)
    }

    /** A decoded frame is in hand, and its decode is the last submission. */
    ghost predicate DecodedValid()
      reads this`m_Decoded, this`m_Working, this`m_Broken, this`gpu
    {
      m_Decoded ==> m_Working && !m_Broken && gpu.ops != [] && gpu.ops[|gpu.ops| - 1].Decode?
    }

    ghost predicate Valid()
      reads this
    {
      && MailboxValid() && StatsValid() && GpuValid() && DecodedValid()
      && m_Decoder.m_geometry == m_Geometry
    }

    /** As declared. */
    ghost predicate Initial()
      reads this
    {
      && framesSubmitted == framesReplaced == framesRejected == framesPartial == framesPresented == skipped == 0
      && m_StatsWindow == NO_STATS && m_LastFrameNumber == m_RejectedAtLastTake == m_PartialAtLastTake == 0
      && m_Offered.None? && !m_Incoming.valid && !m_Working && !m_Decoded && !m_Stop && !m_NeedRecreate && !m_Broken
      && m_DecodeValue == m_RenderValue == 0 && gpu == CREATED
      && units == [] && delivered == [] && taken == [] && windows == []
      && m_Decoder.m_geometry == m_Geometry
    }

    constructor (geometry: StreamGeometry, blockCount: nat)
      ensures Initial() && m_Geometry == geometry && m_Decoder.m_blockCount == blockCount
      ensures fresh(m_Parsed) && fresh(m_Decoder)
    {
      m_Parsed := new Frame();
      m_Decoder := new PacketDecoder(geometry, blockCount);
      m_Geometry := geometry;
      framesSubmitted, framesReplaced, framesRejected, framesPartial, framesPresented := 0, 0, 0, 0, 0;
      m_StatsWindow, m_LastFrameNumber, m_RejectedAtLastTake, m_PartialAtLastTake := NO_STATS, 0, 0, 0;
      m_Offered, m_Incoming, m_Frame, m_Working, m_Decoded := None, EMPTY, EMPTY, false, false;
      m_Stop, m_NeedRecreate, m_Broken := false, false, false;
      m_DecodeValue, m_RenderValue, gpu := 0, 0, CREATED;
      units, delivered, taken, skipped, windows := [], [], [], 0, [];
    }

    lemma StartsValid()
      requires Initial()
      ensures Valid()
    {
      hide HandOver, Counted, Told, InStep, Sum;
      CreatedInStep();
      NothingTakenYet(delivered, taken, m_Incoming, m_Frame);
      NothingCountedYet(windows, units, m_StatsWindow);
    }

    // ---- The network thread ----

    method NoteLatency(latency: nat)
      modifies this`m_StatsWindow
      ensures m_StatsWindow == WithLatency(old(m_StatsWindow), latency)
    {
      if latency != 0 {
        if m_StatsWindow.hostLatencyFrames == 0 || latency < m_StatsWindow.hostLatencyMin {
          m_StatsWindow := m_StatsWindow.(hostLatencyMin := latency);
        }
        m_StatsWindow := m_StatsWindow.(hostLatencyMax := Max(m_StatsWindow.hostLatencyMax, latency));
        m_StatsWindow := m_StatsWindow.(hostLatencyTotal := m_StatsWindow.hostLatencyTotal + latency);
        m_StatsWindow := m_StatsWindow.(hostLatencyFrames := m_StatsWindow.hostLatencyFrames + 1);
      }
    }

    method NoteUnit(du: DecodeUnit)
      requires StatsValid()
      modifies this`m_StatsWindow, this`m_LastFrameNumber, this`units
      ensures units == old(units) + [du] && StatsValid()
    {
      hide Told, Sum, LostIn, LastNumber, WithLatency;
      UnitCounted(Sum(windows), m_StatsWindow, units, m_LastFrameNumber, framesPresented, du);
      ghost var before := units;
      units := units + [du];
      m_StatsWindow := m_StatsWindow.(received := m_StatsWindow.received + 1);
      if m_LastFrameNumber != 0 && du.frameNumber > m_LastFrameNumber + 1 {
        m_StatsWindow := m_StatsWindow.(lost := m_StatsWindow.lost + (du.frameNumber - m_LastFrameNumber - 1));
      }
      m_LastFrameNumber := du.frameNumber;
      ToldOnly(windows, old(m_StatsWindow), m_StatsWindow, before);
      ToldUnit(windows, m_StatsWindow, before, du);
      label counted:
      NoteLatency(du.latency);
      LatencyKeepsCounts(Sum(windows), old@counted(m_StatsWindow), du.latency, units, m_LastFrameNumber,
                         framesPresented);
    }

    /** Copies the unit into the mailbox, reusing whatever buffers the frame there has. */
    method FillIncoming(du: DecodeUnit)
      modifies this`m_Incoming
      ensures m_Incoming == Assembled(du)
    {
      hide Resized;
      var data, segments, offset := Resized(m_Incoming.data, du.fullLength), [], 0;
      for i := 0 to |du.buffers|
        invariant offset == |Joined(du.buffers[..i])| <= |data|
        invariant data[..offset] == Joined(du.buffers[..i])
        invariant segments == SegmentsOf(du.buffers[..i])
      {
        hide Joined, SegmentsOf, SegmentOf;
        var entry := du.buffers[i];
        JoinedNext(du.buffers, i);
        if offset + |entry.data| > |data| {
          ResizedKeeps(data, offset + |entry.data|, offset);
          data := Resized(data, offset + |entry.data|);
        }
        CopiedBehind(data, offset, entry.data);
        data := data[..offset] + entry.data + data[offset + |entry.data|..];
        segments := segments + [SegmentOf(entry, offset)];
        offset := offset + |entry.data|;
      }
      assert du.buffers[..|du.buffers|] == du.buffers;
      ResizedKeeps(data, offset, offset);
      m_Incoming := PendingFrame(Resized(data, offset), segments, du.criticalPackets, true);
    }

    /** submit, under the statistics lock: the unit is counted. */
    method CountUnit(du: DecodeUnit)
      requires Valid() && m_Offered.None?
      modifies this`framesSubmitted, this`m_StatsWindow, this`m_LastFrameNumber, this`m_Offered, this`units
      ensures Valid() && units == old(units) + [du] && m_Offered == Some(du)
    {
      hide GpuValid, DecodedValid, HandOver, Reached, Counted, Told, Sum;
      framesSubmitted := framesSubmitted + 1;
      UnitReaches(units, delivered, du);
      NoteUnit(du);
      m_Offered := Some(du);
    }

    /** submit, under the frame lock: the counted unit is in the mailbox, whatever was there. */
    method DeliverUnit()
      requires Valid() && m_Offered.Some?
      modifies this`framesReplaced, this`m_Offered, this`m_Incoming, this`delivered
      ensures Valid() && m_Offered.None? && m_Incoming == Assembled(old(m_Offered).value) && delivered == units
      ensures framesReplaced == old(framesReplaced) + if old(m_Incoming.valid) then 1 else 0
    {
      hide StatsValid, GpuValid, DecodedValid, HandOver, Assembled, Reached;
      NewestOffered(delivered, taken, m_Incoming, m_Frame, m_Working, m_Offered.value);
      UnitReaches(units, delivered, m_Offered.value);
      if m_Incoming.valid {
        framesReplaced := framesReplaced + 1;
      }
      FillIncoming(m_Offered.value);
      delivered := delivered + [m_Offered.value];
      m_Offered := None;
    }

    /** The newest unit is in the mailbox, whatever was there. */
    method Submit(du: DecodeUnit)
      requires Valid() && m_Offered.None?
      modifies this`framesSubmitted, this`framesReplaced, this`m_StatsWindow, this`m_LastFrameNumber, this`m_Offered
      modifies this`m_Incoming, this`units, this`delivered
      ensures Valid() && m_Offered.None? && units == delivered == old(units) + [du] && m_Incoming == Assembled(du)
      ensures framesReplaced == old(framesReplaced) + if old(m_Incoming.valid) then 1 else 0
    {
      hide Valid, Assembled;
      CountUnit(du);
      DeliverUnit();
    }

    // ---- The render thread ----

    /** Stops the render thread: the next wait ends the loop. */
    method Shutdown()
      requires Valid()
      modifies this`m_Stop
      ensures Valid() && m_Stop
    {
      hide MailboxValid, StatsValid, GpuValid, DecodedValid;
      m_Stop := true;
    }

    /** One turn of the loop's wait, once it is over: the newest unit delivered is taken, unless stopping. */
    method TakeFrame() returns (stopped: bool)
      requires Valid() && !m_Working && (m_Stop || m_Incoming.valid)
      modifies this`m_Incoming, this`m_Frame, this`m_Working, this`taken
      ensures Valid() && stopped == m_Stop
      ensures stopped ==> taken == old(taken) && !m_Working
      ensures !stopped ==> m_Working && !m_Incoming.valid && taken == old(taken) + [|delivered| - 1]
      ensures !stopped ==> m_Frame == Assembled(delivered[|delivered| - 1])
    {
      hide StatsValid, GpuValid, HandOver, Assembled, Reached;
      if m_Stop {
        return true;
      }
      NewestTaken(delivered, taken, m_Incoming, m_Frame);
      m_Frame, m_Incoming := m_Incoming, m_Frame;
      m_Incoming := m_Incoming.(valid := false);
      m_Working := true;
      taken := taken + [|delivered| - 1];
      return false;
    }

    /** The GPU does something, at any time. */
    method GpuRuns(events: seq<Event>)
      requires GpuValid()
      modifies this`gpu
      ensures GpuValid() && |old(gpu).phases| == |old(gpu).ops| && gpu == Advance(old(gpu), events)
              && gpu.ops == old(gpu).ops
    {
      AdvanceKeeps(gpu, events);
      gpu := Advance(gpu, events);
    }

    method LogDrop()
      requires StatsValid()
      modifies this`framesRejected
      ensures StatsValid() && framesRejected == old(framesRejected) + 1
    {
      hide Counted, Told, Sum;
      framesRejected := framesRejected + 1;
    }

    method CountPartial()
      requires StatsValid()
      modifies this`framesPartial
      ensures StatsValid() && framesPartial == old(framesPartial) + 1
    {
      hide Counted, Told, Sum;
      framesPartial := framesPartial + 1;
    }

    /** Counts a presented frame, in the total and in the open window. */
    method CountPresented()
      requires StatsValid()
      modifies this`framesPresented, this`m_StatsWindow
      ensures StatsValid() && framesPresented == old(framesPresented) + 1
      ensures m_StatsWindow == old(m_StatsWindow).(presented := old(m_StatsWindow).presented + 1)
    {
      hide Counted, Told, Sum;
      framesPresented := framesPresented + 1;
      m_StatsWindow := m_StatsWindow.(presented := m_StatsWindow.presented + 1);
      ToldOnly(windows, old(m_StatsWindow), m_StatsWindow, units);
      KeepsCounting(Sum(windows), old(m_StatsWindow), m_StatsWindow, units, m_LastFrameNumber, old(framesPresented),
                    framesPresented);
    }

    /** Pushes the parsed spans until one is refused. */
    method PushSpans() returns (ok: bool)
      requires m_Decoder.m_geometry == m_Geometry && SpansInside(m_Parsed.spans, |m_Frame.data|)
      modifies m_Decoder
      ensures (ok, m_Decoder.State())
           == PushAll(m_Geometry, m_Decoder.m_blockCount, m_Frame.data, m_Parsed.spans, Cleared(m_Decoder.m_blockCount))
    {
      hide Push;
      m_Decoder.Clear();
      var spans, i := m_Parsed.spans, 0;
      ok := true;
      while ok && i < |spans|
        invariant i <= |spans| && spans == m_Parsed.spans
        invariant (ok, m_Decoder.State())
               == PushAll(m_Geometry, m_Decoder.m_blockCount, m_Frame.data, spans[..i], Cleared(m_Decoder.m_blockCount))
        decreases |spans| - i, ok
      {
        assert spans[..i + 1][..i] == spans[..i];
        ok := m_Decoder.PushPacket(m_Frame.data, spans[i].offset, spans[i].offset + spans[i].size);
        i := i + 1;
      }
      if ok {
        assert spans[..i] == spans;
      } else {
        PushStopsAt(m_Geometry, m_Decoder.m_blockCount, m_Frame.data, spans, i, Cleared(m_Decoder.m_blockCount));
      }
    }

    /** Parse, decoder and readiness, in the order the renderer asks them; then the GPU decode. */
    method DecodeFrame(decodes: bool) returns (ok: bool)
      requires m_Decoder.m_geometry == m_Geometry && StatsValid() && GpuValid()
      modifies this`framesRejected, this`framesPartial, this`gpu, this`m_DecodeValue, m_Parsed, m_Decoder
      ensures StatsValid() && GpuValid()
      ensures var verdict := Judge(m_Frame, m_Geometry, m_Decoder.m_blockCount);
              && (ok <==> verdict.Decodable? && decodes)
              && framesRejected == old(framesRejected) + (if ok then 0 else 1)
              && framesPartial == old(framesPartial) + (if verdict == Decodable(true) then 1 else 0)
      ensures !ok ==> gpu == old(gpu) && m_DecodeValue == old(m_DecodeValue)
      ensures ok ==> m_DecodeValue == old(m_DecodeValue) + 1
                     && var op := Op.Decode(m_RenderValue, m_DecodeValue);
                        Greater(old(gpu).ops, op) && gpu == Queue(old(gpu), op) && gpu.ops == old(gpu).ops + [op]
    {
      hide StatsValid, ParseResult, PushAll, Sound, Owned, Decodes, Renders, Greater;
      ok := false;
      var error := Parse(m_Frame.data, m_Frame.segments, m_Frame.criticalPackets, m_Geometry, m_Parsed);
      if error.Some? {
        LogDrop();
        return;
      }
      DeliveredAccepted(m_Frame.data, m_Frame.segments, m_Frame.criticalPackets, m_Geometry);
      var pushed := PushSpans();
      if !pushed {
        LogDrop();
        return;
      }
      if !m_Parsed.partial {
        var ready := m_Decoder.DecodeIsReady();
        if !ready {
          LogDrop();
          return;
        }
      } else {
        if !m_Parsed.coarseLevelIntact {
          LogDrop();
          return;
        }
        var ready := m_Decoder.DecodeIsReadyPartial();
        if !ready {
          LogDrop();
          return;
        }
        CountPartial();
      }
      var op := Op.Decode(m_RenderValue, m_DecodeValue + 1);
      if !decodes {
        LogDrop();
        return;
      }
      QueueDecodeKeeps(gpu, op);
      QueueCounts(gpu.ops, op);
      gpu := Queue(gpu, op);
      m_DecodeValue := m_DecodeValue + 1;
      ok := true;
    }

    method MarkBroken()
      modifies this`m_Broken
      ensures m_Broken
    {
      if !m_Broken {
        m_Broken := true;
      }
    }

    /** Waits for the fence, acquires an image, and submits and presents a render of the decode just
        submitted. The GPU may do anything it can in between. */
    method PresentDecoded(driver: Driver) returns (fate: Fate)
      requires StatsValid() && GpuValid() && !m_Broken && gpu.ops != [] && gpu.ops[|gpu.ops| - 1].Decode?
      modifies this`gpu, this`m_NeedRecreate, this`m_Broken, this`m_RenderValue, this`framesRejected,
               this`framesPresented,
               this`m_StatsWindow, this`skipped
      ensures StatsValid() && GpuValid() && |old(gpu).phases| == |old(gpu).ops|
      ensures Decided(driver, old(m_NeedRecreate) ==> driver.recreated,
                      Waited(driver.fence, Advance(old(gpu), driver.beforeWait)),
                      fate, m_Broken, m_NeedRecreate)
      ensures fate.Presented? ==> m_RenderValue == old(m_RenderValue) + 1
                                  && gpu.ops == old(gpu).ops + [Op.Render(m_DecodeValue, m_RenderValue)]
      ensures !fate.Presented? ==> m_RenderValue == old(m_RenderValue) && gpu.ops == old(gpu).ops
      ensures Settled(fate, old(framesRejected), framesRejected, old(framesPresented), framesPresented, old(skipped),
                      skipped)
      ensures m_StatsWindow ==
              if fate.Presented? then old(m_StatsWindow).(presented := old(m_StatsWindow).presented + 1)
              else old(m_StatsWindow)
    {
      hide StatsValid, Sound, Owned, Decodes, Renders, Greater, Advance, MayAcquire, MayReset;
      InStepSized(gpu, m_Broken, m_DecodeValue, m_RenderValue);
      if m_NeedRecreate {
        if !driver.recreated {
          skipped := skipped + 1;
          GpuRuns(driver.beforeWait);
          return Skipped;
        }
        m_NeedRecreate := false;
      }
      GpuRuns(driver.beforeWait);
      var fence := Waited(driver.fence, gpu);
      if fence == FenceTimeout {
        LogDrop();
        return Rejected;
      }
      if fence != FenceDone {
        MarkBroken();
        skipped := skipped + 1;
        return Skipped;
      }
      FenceFrees(gpu);
      var got := Acquire(driver);
      if !got {
        if driver.image == OutOfDate {
          m_NeedRecreate := true;
        }
        skipped := skipped + 1;
        return Skipped;
      }
      if !driver.queued {
        MarkBroken();
        skipped := skipped + 1;
        return Skipped;
      }
      RenderDecoded();
      if driver.presentOutOfDate {
        m_NeedRecreate := true;
      }
      CountPresented();
      return Presented;
    }

    /** Acquires an image and, having one, resets the fence: from here to the submission nothing owns it. */
    method Acquire(driver: Driver) returns (got: bool)
      requires GpuValid() && !m_Broken && gpu.fence
      modifies this`gpu
      ensures got == GotImage(driver.image) && gpu.ops == old(gpu).ops && InStep(gpu, got, m_DecodeValue, m_RenderValue)
      ensures got ==> MayQueue(gpu)
    {
      hide Sound, Owned, Decodes, Renders, Advance;
      FenceFrees(gpu);
      if !GotImage(driver.image) {
        return false;
      }
      var before := gpu;
      gpu := ResetFence(AcquireImage(gpu));
      HandlingKeeps(before, gpu);
      InStepSized(gpu, true, m_DecodeValue, m_RenderValue);
      AdvanceKeeps(gpu, driver.beforeSubmit);
      AdvanceSpares(gpu, driver.beforeSubmit);
      gpu := Advance(gpu, driver.beforeSubmit);
      return true;
    }

    method RenderDecoded()
      requires InStep(gpu, true, m_DecodeValue, m_RenderValue) && MayQueue(gpu) && gpu.ops != []
               && gpu.ops[|gpu.ops| - 1].Decode?
      modifies this`gpu, this`m_RenderValue
      ensures InStep(gpu, false, m_DecodeValue, m_RenderValue) && m_RenderValue == old(m_RenderValue) + 1
      ensures gpu.ops == old(gpu).ops + [Op.Render(m_DecodeValue, m_RenderValue)]
    {
      hide Sound, Owned, Decodes, Renders, MayQueue;
      var op := Op.Render(m_DecodeValue, m_RenderValue + 1);
      QueueRenderKeeps(gpu, op);
      QueueCounts(gpu.ops, op);
      gpu := QueueRender(gpu, op);
      m_RenderValue := m_RenderValue + 1;
    }

    /** The frame in hand is decoded, or rejected and done with. Once broken, every frame is rejected and the
        GPU left alone. */
    method StartFrame(decodes: bool)
      requires Valid() && m_Working && !m_Decoded
      modifies this`framesRejected, this`framesPartial, this`m_Working, this`m_Decoded, this`m_DecodeValue, this`gpu
      modifies m_Parsed, m_Decoder
      ensures Valid() && m_Working == m_Decoded
      ensures m_Decoded <==> !m_Broken && decodes && Judge(m_Frame, m_Geometry, m_Decoder.m_blockCount).Decodable?
      ensures framesRejected == old(framesRejected) + (if m_Decoded then 0 else 1)
      ensures !m_Decoded ==> gpu == old(gpu) && m_DecodeValue == old(m_DecodeValue)
      ensures m_Decoded ==> m_DecodeValue == old(m_DecodeValue) + 1
                            && var decode := Op.Decode(m_RenderValue, m_DecodeValue);
                               Greater(old(gpu).ops, decode) && gpu == Queue(old(gpu), decode)
    {
      hide StatsValid, InStep, Judge, HandOver, Reached, Greater;
      HandedOff(delivered, taken, m_Incoming, m_Frame);
      if m_Broken {
        LogDrop();
        m_Working := false;
      } else {
        m_Decoded := DecodeFrame(decodes);
        m_Working := m_Decoded;
      }
    }

    /** The decoded frame in hand is presented, rejected or skipped, as the driver answers, and done with. */
    method FinishFrame(driver: Driver) returns (fate: Fate)
      requires Valid() && m_Working && m_Decoded
      modifies this`framesRejected, this`framesPresented, this`skipped, this`m_Working, this`m_Decoded,
               this`m_StatsWindow
      modifies this`m_NeedRecreate, this`m_Broken, this`m_RenderValue, this`gpu
      ensures Valid() && !m_Working && !m_Decoded && |old(gpu).phases| == |old(gpu).ops|
      ensures Decided(driver, old(m_NeedRecreate) ==> driver.recreated,
                      Waited(driver.fence, Advance(old(gpu), driver.beforeWait)),
                      fate, m_Broken, m_NeedRecreate)
      ensures gpu.ops == old(gpu).ops + (if fate.Presented? then [Op.Render(m_DecodeValue, m_RenderValue)] else [])
      ensures Settled(fate, old(framesRejected), framesRejected, old(framesPresented), framesPresented, old(skipped),
                      skipped)
    {
      hide StatsValid, InStep, HandOver, Reached, Advance, Waited, Decided, Balanced;
      HandedOff(delivered, taken, m_Incoming, m_Frame);
      m_Working, m_Decoded := false, false;
      fate := PresentDecoded(driver);
      SettledBalances(fate, framesSubmitted, framesReplaced, old(framesRejected), framesRejected, old(framesPresented),
                      framesPresented,
                      old(skipped), skipped, m_Offered.Some?, m_Incoming.valid);
    }

    /** The frame in hand is decoded and presented, rejected, or skipped: exactly one of the three. A render
        is submitted only for a frame presented, straight after its decode. */
    method DecodeAndPresent(driver: Driver) returns (fate: Fate)
      requires Valid() && m_Working && !m_Decoded
      modifies this`framesRejected, this`framesPartial, this`framesPresented, this`skipped, this`m_Working,
               this`m_Decoded
      modifies this`m_StatsWindow, this`m_NeedRecreate, this`m_Broken, this`m_DecodeValue, this`m_RenderValue, this`gpu
      modifies m_Parsed, m_Decoder
      ensures Valid() && !m_Working
      ensures Settled(fate, old(framesRejected), framesRejected, old(framesPresented), framesPresented, old(skipped),
                      skipped)
      ensures old(m_Broken) ==> m_Broken && fate.Rejected? && gpu == old(gpu)
      ensures var decoded := !old(m_Broken) && driver.decodes
              && Judge(m_Frame, m_Geometry, m_Decoder.m_blockCount).Decodable?;
              var decode := Op.Decode(old(m_RenderValue), old(m_DecodeValue) + 1);
              && (!decoded ==> fate.Rejected? && gpu == old(gpu) && m_Broken == old(m_Broken))
              && (decoded ==> Greater(old(gpu).ops, decode) && |old(gpu).phases| == |old(gpu).ops|
                              && Decided(driver, old(m_NeedRecreate) ==> driver.recreated,
                                         Waited(driver.fence, Advance(Queue(old(gpu), decode), driver.beforeWait)),
                                         fate, m_Broken, m_NeedRecreate)
                              && gpu.ops == old(gpu).ops + [decode] +
                                 (if fate.Presented? then [Op.Render(m_DecodeValue, m_RenderValue)] else []))
    {
      hide InStep, Judge, HandOver, Greater, Advance, Waited, Told, Sum, Counted, Decided;
      InStepSized(gpu, m_Broken, m_DecodeValue, m_RenderValue);
      StartFrame(driver.decodes);
      if !m_Decoded {
        return Rejected;
      }
      fate := FinishFrame(driver);
    }

    // ---- The overlay's statistics ----

    /** Hands over the window and opens a new one. */
    method TakeStats() returns (window: WindowStats)
      requires Valid()
      modifies this`m_StatsWindow, this`m_RejectedAtLastTake, this`m_PartialAtLastTake, this`windows
      ensures Valid() && windows == old(windows) + [window] && m_StatsWindow == NO_STATS
      ensures window == old(m_StatsWindow).(dropped := framesRejected - old(m_RejectedAtLastTake),
                                            partial := framesPartial - old(m_PartialAtLastTake))
    {
      hide MailboxValid, GpuValid, DecodedValid, Told, Sum, LostIn, LastNumber;
      window := m_StatsWindow;
      window := window.(dropped := framesRejected - m_RejectedAtLastTake);
      window := window.(partial := framesPartial - m_PartialAtLastTake);
      m_RejectedAtLastTake := m_RejectedAtLastTake + window.dropped;
      m_PartialAtLastTake := m_PartialAtLastTake + window.partial;
      ToldTaken(windows, m_StatsWindow, window, units);
      m_StatsWindow := NO_STATS;
      SumSnoc(windows, window);
      windows := windows + [window];
    }

    // ---- Any run ----

    method GpuTurn(events: seq<Event>)
      requires Valid()
      modifies this`gpu
      ensures Valid()
    {
      hide MailboxValid, StatsValid, InStep, Advance;
      GpuRuns(events);
    }

    /** One turn of any thread, if it can happen now. */
    method OneTurn(turn: Turn)
      requires Valid()
      modifies this, m_Parsed, m_Decoder
      ensures Valid() && (old(m_Stop) && !old(m_Working) ==> taken == old(taken) && !m_Working)
              && (old(m_Stop) ==> m_Stop)
    {
      hide Valid, Judge, Decided, Settled, Assembled, Advance, Waited, Greater, Queue;
      match turn
      case Count(du) => if m_Offered.None? { CountUnit(du); }
      case Deliver => if m_Offered.Some? { DeliverUnit(); }
      case Wait => if !m_Working && (m_Stop || m_Incoming.valid) { var stopped := TakeFrame(); }
      case Decode(decodes) => if m_Working && !m_Decoded { StartFrame(decodes); }
      case Present(driver) => if m_Working && m_Decoded { var fate := FinishFrame(driver); }
      case Gpu(events) => GpuTurn(events);
      case Overlay => var window := TakeStats();
      case Stop => Shutdown();
    }

    /** The network thread, the render thread, the overlay and the GPU in any order: no frame is lost track of,
        the counters and the timelines agree, and once stopped and done with its frame, the render thread
        takes no other. */
    method AnyRun(turns: seq<Turn>)
      requires Valid()
      modifies this, m_Parsed, m_Decoder
      ensures Valid() && (old(m_Stop) && !old(m_Working) ==> taken == old(taken))
    {
      hide Valid;
      for i := 0 to |turns|
        invariant Valid() && (old(m_Stop) && !old(m_Working) ==> m_Stop && taken == old(taken) && !m_Working)
      {
        OneTurn(turns[i]);
      }
    }
  }

  // ---- What the frames handed over come to ----

  /** "Decoder rejected a packet" never happens: with the decoder built for the stream's geometry, parse
      has refused everything the decoder would. */
  lemma NeverRefused(frame: PendingFrame, g: StreamGeometry, blockCount: nat)
    requires Expressible(g) && blockCount == BlockMapping.PlaceAll(g, BlockMapping.Order(g)).count32
    ensures !Judge(frame, g, blockCount).Refused?
  {
    hide ParseResult, PushAll, Ready, ReadyPartial, BlockMapping.PlaceAll;
    var r := ParseResult(frame.data, frame.segments, frame.criticalPackets, g);
    if r.error.None? {
      DecoderNeverRefuses(frame.data, frame.segments, frame.criticalPackets, g, blockCount, Cleared(blockCount));
    }
  }

  /** A submitted unit is refused for its packet map exactly when one of its buffers is empty
      (and it is not refused for its length first). */
  lemma UntiledExactly(du: DecodeUnit, g: StreamGeometry, blockCount: nat)
    ensures var frame := Assembled(du);
            Judge(frame, g, blockCount) == Unparsed(NotTiled) <==>
              (|frame.data| >= HEADER_BYTES && |frame.data| % 4 == 0 &&
               (exists i :: 0 <= i < |du.buffers| && du.buffers[i].data == []))
  {
    hide Tiles, Run, LengthPrefixedRun, PushAll, Ready, ReadyPartial, RangeLost, MaxBlockCount, CoarseBlockCount,
         LeadingIntact, Joined, SegmentsOf;
    AssembledTiles(du);
    NoOtherUntiled(Assembled(du), g);
  }

  /** Only the tiling check reports NotTiled. */
  lemma NoOtherUntiled(frame: PendingFrame, g: StreamGeometry)
    ensures ParseResult(frame.data, frame.segments, frame.criticalPackets, g).error == Some(NotTiled)
            ==> !Tiles(frame.segments, |frame.data|)
  {
    hide Tiles, Run, PacketsRun, RangeLost, MaxBlockCount, CoarseBlockCount, LeadingIntact;
    var data, segments := frame.data, frame.segments;
    if |data| >= HEADER_BYTES && |data| % 4 == 0 && Tiles(segments, |data|) && !RangeLost(segments, 0, HEADER_BYTES) {
      if Extended(ReadU32(data, 0)) {
        RunNeverUntiled(InputOf(data, segments, frame.criticalPackets, g), StartOf(segments, frame.criticalPackets));
      } else {
        PacketsNeverUntiled(data, ReadU32(data, 0), 4, g, MaxBlockCount(g), FRESH.(framing := LengthPrefixed));
      }
    }
  }

  lemma {:induction false} RunNeverUntiled(input: Input, w: Walk)
    requires w.pos <= |input.data|
    ensures Run(input, w).error != Some(NotTiled)
    decreases |input.data| - w.pos
  {
    hide RangeLost, LaterPacketsAligned, Resume;
    if w.pos < |input.data| && Step(input, w).Next? {
      RunNeverUntiled(input, Step(input, w).walk);
    }
  }

  lemma {:induction false} PacketNeverUntiled(data: seq<byte>, base: nat, pos: nat, end: nat, g: StreamGeometry,
                                              maxBlocks: nat, frame: FrameState)
    requires base <= pos <= end <= |data|
    ensures PacketRun(data, base, pos, end, g, maxBlocks, frame).error != Some(NotTiled)
    decreases end - pos
  {
    if pos + HEADER_BYTES <= end {
      var word0, word1 := ReadU32(data, pos), ReadU32(data, pos + 4);
      if word0 == PADDING_MAGIC {
      } else if Extended(word0) {
        PacketNeverUntiled(data, base, pos + HEADER_BYTES, end, g, maxBlocks, WithHeader(frame, word1));
      } else if PayloadWordsField(word0) >= HEADER_WORDS && PayloadWordsField(word0) * 4 <= end - pos {
        PacketNeverUntiled(data, base, pos + PayloadWordsField(word0) * 4, end, g, maxBlocks, WithBlock(frame));
      }
    }
  }

  lemma {:induction false} PacketsNeverUntiled(data: seq<byte>, count: nat, pos: nat, g: StreamGeometry, maxBlocks: nat,
                                               frame: FrameState)
    requires pos <= |data|
    ensures PacketsRun(data, count, pos, g, maxBlocks, frame).error != Some(NotTiled)
    decreases count
  {
    hide PacketRun;
    if count > 0 && |data| - pos >= 4 {
      var size, start := ReadU32(data, pos), pos + 4;
      if size <= |data| - start {
        PacketNeverUntiled(data, start, start, start + size, g, maxBlocks, frame);
        PacketsNeverUntiled(data, count - 1, start + size, g, maxBlocks,
                            PacketRun(data, start, start, start + size, g, maxBlocks, frame).frame);
      }
    }
  }
}
