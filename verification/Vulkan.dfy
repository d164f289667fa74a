/** The part of a Vulkan device the renderer synchronises with: one queue's submissions, two timeline
    semaphores, a fence and a binary semaphore (Vulkan 1.3, sections 7.3 and 7.4). The GPU runs
    submissions whenever their waits allow; decodes run in the order submitted. */
module Vulkan {
  import opened Words

  /** Each waits for a value of the other timeline and signals one of its own. Decode writes the
      planes, Render samples them. */
  datatype Op = Decode(wait: nat, signal: nat) | Render(wait: nat, signal: nat)

  datatype Phase = Submitted | Running | Finished

  /** What the planes hold: the picture of the decode that signalled this value, or one being written. */
  datatype Planes = Picture(value: nat) | Torn

  /** A binary semaphore: Pending, its signal is yet to come from the presentation engine. */
  datatype Binary = Unsignalled | Pending | Signalled

  /** signaller: the submission not yet finished that will signal the fence. waiter: the one that is
      yet to consume the acquire semaphore's signal. */
  datatype Gpu = Gpu(ops: seq<Op>, phases: seq<Phase>, decoded: nat, rendered: nat, planes: Planes,
                     fence: bool, signaller: Option<nat>, acquire: Binary, waiter: Option<nat>)

  /** As created: the fence signalled. */
  const CREATED := Gpu([], [], 0, 0, Picture(0), true, None, Unsignalled, None)

  datatype Event = Start(i: nat) | Finish(i: nat) | ImageReady

  // ---- What the GPU may do by itself ----

  predicate CanStart(gpu: Gpu, i: nat)
    requires |gpu.phases| == |gpu.ops|
  {
    && i < |gpu.ops| && gpu.phases[i].Submitted?
    && if gpu.ops[i].Decode? then
         && gpu.rendered >= gpu.ops[i].wait
         && forall k :: 0 <= k < i && gpu.ops[k].Decode? ==> gpu.phases[k].Finished?
       else
         gpu.decoded >= gpu.ops[i].wait && gpu.waiter == Some(i) && gpu.acquire.Signalled?
  }

  predicate Enabled(gpu: Gpu, e: Event)
    requires |gpu.phases| == |gpu.ops|
  {
    match e
    case Start(i) => CanStart(gpu, i)
    case Finish(i) => i < |gpu.ops| && gpu.phases[i].Running?
    case ImageReady => gpu.acquire.Pending?
  }

  function Happen(gpu: Gpu, e: Event): (after: Gpu)
    requires |gpu.phases| == |gpu.ops| && Enabled(gpu, e)
    ensures |after.phases| == |after.ops|
  {
    match e
    case ImageReady => gpu.(acquire := Signalled)
    case Start(i) =>
      var started := gpu.(phases := gpu.phases[i := Running]);
      if gpu.ops[i].Decode? then started.(planes := Torn) else started.(acquire := Unsignalled, waiter := None)
    case Finish(i) =>
      var op := gpu.ops[i];
      var finished := gpu.(phases := gpu.phases[i := Finished], fence := gpu.fence || gpu.signaller == Some(i),
                           signaller := if gpu.signaller == Some(i) then None else gpu.signaller);
      if op.Decode? then finished.(decoded := Max(gpu.decoded, op.signal), planes := Picture(op.signal))
      else finished.(rendered := Max(gpu.rendered, op.signal))
  }

  /** Any stretch of GPU activity; events that cannot happen do not. */
  function Advance(gpu: Gpu, events: seq<Event>): (after: Gpu)
    requires |gpu.phases| == |gpu.ops|
    ensures |after.phases| == |after.ops| && after.ops == gpu.ops
    decreases |events|
  {
    if events == [] then gpu
    else Advance(if Enabled(gpu, events[0]) then Happen(gpu, events[0]) else gpu, events[1..])
  }

  // ---- What the CPU asks for; the preconditions are the specification's valid usage ----

  /** The acquire semaphore is unsignalled, with no signal or wait on it pending. */
  predicate MayAcquire(gpu: Gpu) {
    gpu.acquire.Unsignalled? && gpu.waiter.None?
  }

  /** No submission the fence is to be signalled by is still pending. */
  predicate MayReset(gpu: Gpu) {
    gpu.signaller.None?
  }

  /** A timeline is only ever signalled with a greater value than every one before. */
  ghost predicate Greater(ops: seq<Op>, op: Op) {
    forall k :: 0 <= k < |ops| && ops[k].Decode? == op.Decode? ==> ops[k].signal < op.signal
  }

  /** The fence is unsignalled and free, and the acquire semaphore has a signal for the wait. */
  predicate MayQueue(gpu: Gpu) {
    && !gpu.fence && gpu.signaller.None?
    && !gpu.acquire.Unsignalled? && gpu.waiter.None?
  }

  function AcquireImage(gpu: Gpu): Gpu
    requires MayAcquire(gpu)
  {
    gpu.(acquire := Pending)
  }

  function ResetFence(gpu: Gpu): Gpu
    requires MayReset(gpu)
  {
    gpu.(fence := false)
  }

  function Queue(gpu: Gpu, op: Op): Gpu
    requires Greater(gpu.ops, op)
  {
    gpu.(ops := gpu.ops + [op], phases := gpu.phases + [Submitted])
  }

  /** vkQueueSubmit of a render that waits on the acquire semaphore and signals the fence. */
  function QueueRender(gpu: Gpu, op: Op): Gpu
    requires MayQueue(gpu) && Greater(gpu.ops, op)
  {
    Queue(gpu, op).(signaller := Some(|gpu.ops|), waiter := Some(|gpu.ops|))
  }

  // ---- The discipline the renderer keeps ----

  function Decodes(ops: seq<Op>, n: nat): nat
    requires n <= |ops|
  {
    if n == 0 then 0 else Decodes(ops, n - 1) + if ops[n - 1].Decode? then 1 else 0
  }

  function Renders(ops: seq<Op>, n: nat): nat
    requires n <= |ops|
  {
    if n == 0 then 0 else Renders(ops, n - 1) + if ops[n - 1].Render? then 1 else 0
  }

  /** Submission i signals the next value of its own timeline and waits for what was submitted to the
      other before it; a render comes straight after a decode. */
  ghost predicate Disciplined(ops: seq<Op>, i: nat)
    requires i < |ops|
  {
    if ops[i].Decode? then ops[i] == Op.Decode(Renders(ops, i), Decodes(ops, i) + 1)
    else ops[i] == Op.Render(Decodes(ops, i), Renders(ops, i) + 1) && i > 0 && ops[i - 1].Decode?
  }

  ghost predicate WellSubmitted(ops: seq<Op>) {
    forall i :: 0 <= i < |ops| ==> Disciplined(ops, i)
  }

  /** The first n submissions are finished, the next may be running, no later one has started. */
  ghost predicate DoneUpTo(gpu: Gpu, n: nat) {
    && |gpu.phases| == |gpu.ops| && n <= |gpu.ops|
    && (forall i :: 0 <= i < n ==> gpu.phases[i].Finished?)
    && (n < |gpu.ops| ==> !gpu.phases[n].Finished?)
    && (forall i :: n < i < |gpu.ops| ==> gpu.phases[i].Submitted?)
  }

  ghost predicate Timelines(gpu: Gpu, n: nat)
    requires n <= |gpu.ops| == |gpu.phases|
  {
    && gpu.decoded == Decodes(gpu.ops, n) && gpu.rendered == Renders(gpu.ops, n)
    && gpu.planes == if n < |gpu.ops| && gpu.phases[n].Running? && gpu.ops[n].Decode? then Torn
        else Picture(Decodes(gpu.ops, n))
  }

  /** The fence is unsignalled exactly while the last render is unfinished, and that render signals it;
      the acquire semaphore is in use only until that render starts. */
  ghost predicate Handles(gpu: Gpu)
    requires |gpu.phases| == |gpu.ops|
  {
    && (gpu.fence ==> gpu.signaller.None?)
    && (gpu.signaller.Some? ==> gpu.signaller.value < |gpu.ops| && gpu.ops[gpu.signaller.value].Render?
                                && !gpu.phases[gpu.signaller.value].Finished?)
    && (gpu.waiter.Some? ==> gpu.waiter == gpu.signaller && gpu.phases[gpu.waiter.value].Submitted?)
    && (forall i :: 0 <= i < |gpu.ops| && gpu.ops[i].Render? && !gpu.phases[i].Finished? ==> gpu.signaller == Some(i))
    && (forall i :: 0 <= i < |gpu.ops| && gpu.ops[i].Render? && gpu.phases[i].Submitted? ==> gpu.waiter == Some(i))
  }

  /** Between frames: no fence or acquire signal without an owner. */
  ghost predicate Owned(gpu: Gpu) {
    && (gpu.fence || gpu.signaller.Some?)
    && (gpu.acquire == Unsignalled || gpu.waiter.Some?)
    && (gpu.waiter.Some? ==> gpu.acquire != Unsignalled)
  }

  ghost predicate Sound(gpu: Gpu) {
    && WellSubmitted(gpu.ops) && |gpu.phases| == |gpu.ops| && Handles(gpu)
    && exists n :: DoneUpTo(gpu, n) && Timelines(gpu, n)
  }

  // ---- Every run ----

  lemma {:induction false} CountsOfPrefix(ops: seq<Op>, more: seq<Op>, n: nat)
    requires n <= |ops|
    ensures Decodes(ops + more, n) == Decodes(ops, n) && Renders(ops + more, n) == Renders(ops, n)
  {
    if n > 0 { CountsOfPrefix(ops, more, n - 1); }
  }

  lemma {:induction false} CountsGrow(ops: seq<Op>, m: nat, n: nat)
    requires m <= n <= |ops|
    ensures Decodes(ops, m) <= Decodes(ops, n) && Renders(ops, m) <= Renders(ops, n)
  {
    if m < n { CountsGrow(ops, m, n - 1); }
  }

  /** Only the first unfinished submission can start: the waits put them all in order. */
  lemma StartsInOrder(gpu: Gpu, n: nat, i: nat)
    requires WellSubmitted(gpu.ops) && DoneUpTo(gpu, n) && Timelines(gpu, n) && CanStart(gpu, i)
    ensures i == n
  {
    hide Decodes, Renders;
    if i > n {
      assert Disciplined(gpu.ops, i);
      if gpu.ops[i].Decode? {
        if gpu.ops[n].Render? {
          NextCounts(gpu.ops, n);
          CountsGrow(gpu.ops, n + 1, i);
        }
      } else {
        NextCounts(gpu.ops, i - 1);
        CountsGrow(gpu.ops, n, i - 1);
      }
    }
  }

  lemma NextCounts(ops: seq<Op>, n: nat)
    requires n < |ops|
    ensures Decodes(ops, n + 1) == Decodes(ops, n) + (if ops[n].Decode? then 1 else 0)
    ensures Renders(ops, n + 1) == Renders(ops, n) + (if ops[n].Render? then 1 else 0)
  {
  }

  lemma EventKeepsOrder(gpu: Gpu, n: nat, e: Event) returns (m: nat)
    requires WellSubmitted(gpu.ops) && DoneUpTo(gpu, n) && Timelines(gpu, n) && Enabled(gpu, e)
    ensures DoneUpTo(Happen(gpu, e), m) && Timelines(Happen(gpu, e), m)
  {
    hide Decodes, Renders, WellSubmitted;
    m := n;
    match e
    case ImageReady =>
    case Start(i) =>
      StartsInOrder(gpu, n, i);
    case Finish(i) =>
      assert i == n;
      OneDisciplined(gpu.ops, n);
      NextCounts(gpu.ops, n);
      m := n + 1;
      assert Happen(gpu, e).ops == gpu.ops;
      assert m < |gpu.ops| ==> Happen(gpu, e).phases[m].Submitted?;
  }

  lemma OneDisciplined(ops: seq<Op>, i: nat)
    requires WellSubmitted(ops) && i < |ops|
    ensures Disciplined(ops, i)
  {
  }

  lemma DoneCount(gpu: Gpu) returns (n: nat)
    requires Sound(gpu)
    ensures n <= |gpu.ops| == |gpu.phases| && DoneUpTo(gpu, n) && Timelines(gpu, n)
  {
    n :| DoneUpTo(gpu, n) && Timelines(gpu, n);
  }

  lemma EventKeepsHandles(gpu: Gpu, e: Event)
    requires |gpu.phases| == |gpu.ops| && Handles(gpu) && Enabled(gpu, e)
    ensures Handles(Happen(gpu, e)) && (Owned(gpu) ==> Owned(Happen(gpu, e)))
    ensures Happen(gpu, e).ops == gpu.ops
  {
  }

  /** Whatever the GPU does next, soundness and ownership last. */
  lemma EventKeeps(gpu: Gpu, e: Event)
    requires Sound(gpu) && Enabled(gpu, e)
    ensures Sound(Happen(gpu, e)) && (Owned(gpu) ==> Owned(Happen(gpu, e)))
  {
    var n := DoneCount(gpu);
    hide WellSubmitted, DoneUpTo, Timelines, Handles, Owned, Happen, Enabled;
    EventKeepsHandles(gpu, e);
    var m := EventKeepsOrder(gpu, n, e);
    DoneBound(Happen(gpu, e), m);
  }

  lemma DoneBound(gpu: Gpu, n: nat)
    requires DoneUpTo(gpu, n)
    ensures n <= |gpu.ops| == |gpu.phases|
  {
  }

  lemma {:induction false} AdvanceKeeps(gpu: Gpu, events: seq<Event>)
    requires Sound(gpu)
    ensures Sound(Advance(gpu, events)) && (Owned(gpu) ==> Owned(Advance(gpu, events)))
    ensures gpu.fence ==> Advance(gpu, events).fence
    decreases |events|
  {
    hide Sound, Owned, Enabled;
    Sized(gpu);
    if events != [] {
      if Enabled(gpu, events[0]) { EventKeeps(gpu, events[0]); }
      AdvanceKeeps(if Enabled(gpu, events[0]) then Happen(gpu, events[0]) else gpu, events[1..]);
    }
  }

  lemma Sized(gpu: Gpu)
    requires Sound(gpu)
    ensures |gpu.phases| == |gpu.ops|
  {
  }

  /** The point of the timelines: while a render runs, the planes hold the whole picture of the latest
      decode submitted before it, and no decode writes them. */
  lemma RendersWholePicture(gpu: Gpu, i: nat)
    requires Sound(gpu) && i < |gpu.ops| && gpu.ops[i].Render? && gpu.phases[i].Running?
    ensures gpu.planes == Picture(Decodes(gpu.ops, i)) && Decodes(gpu.ops, i) > 0
    ensures forall k :: 0 <= k < |gpu.ops| && gpu.ops[k].Decode? ==> !gpu.phases[k].Running?
  {
    hide Decodes, Renders;
    var n: nat :| DoneUpTo(gpu, n) && Timelines(gpu, n);
    assert n == i;
    assert Disciplined(gpu.ops, i);
    NextCounts(gpu.ops, i - 1);
  }

  /** No submission waits for a value whose signal was not submitted before it, and the values
      each timeline is signalled with are 1, 2, 3, ... in submission order. */
  lemma WaitsCovered(ops: seq<Op>, i: nat)
    requires WellSubmitted(ops) && i < |ops|
    ensures ops[i].wait > 0 ==>
            exists k :: 0 <= k < i && ops[k].signal == ops[i].wait && ops[k].Decode? == ops[i].Render?
    ensures ops[i].signal == 1 + (if ops[i].Decode? then Decodes(ops, i) else Renders(ops, i))
  {
    hide Decodes, Renders;
    assert Disciplined(ops, i);
    if ops[i].wait > 0 {
      var k := Signaller(ops, i, ops[i].Render?, ops[i].wait);
      assert Disciplined(ops, k);
    }
  }

  /** The submission that took a timeline to value v. */
  lemma {:induction false} Signaller(ops: seq<Op>, n: nat, decode: bool, v: nat) returns (k: nat)
    requires n <= |ops| && 0 < v <= (if decode then Decodes(ops, n) else Renders(ops, n))
    ensures k < n && ops[k].Decode? == decode && (if decode then Decodes(ops, k) else Renders(ops, k)) == v - 1
  {
    if ops[n - 1].Decode? == decode && (if decode then Decodes(ops, n) else Renders(ops, n)) == v {
      k := n - 1;
    } else {
      k := Signaller(ops, n - 1, decode, v);
    }
  }

  // ---- No deadlock ----

  /** While anything is unfinished, something can happen. */
  lemma NextEvent(gpu: Gpu) returns (e: Event)
    requires Sound(gpu) && Owned(gpu) && exists i :: 0 <= i < |gpu.ops| && !gpu.phases[i].Finished?
    ensures Enabled(gpu, e)
  {
    hide Decodes, Renders;
    var n: nat :| DoneUpTo(gpu, n) && Timelines(gpu, n);
    if gpu.phases[n].Running? {
      e := Finish(n);
    } else if gpu.ops[n].Render? && gpu.acquire.Pending? {
      e := ImageReady;
    } else {
      assert Disciplined(gpu.ops, n);
      e := Start(n);
    }
  }

  /** What is left to happen. */
  function Left(phases: seq<Phase>): nat {
    if phases == [] then 0
    else
      Left(phases[..|phases| - 1])
      + match phases[|phases| - 1] case Submitted => 2 case Running => 1 case Finished => 0
  }

  function Work(gpu: Gpu): nat {
    Left(gpu.phases) + if gpu.acquire.Pending? then 1 else 0
  }

  lemma {:induction false} LeftShrinks(phases: seq<Phase>, i: nat, phase: Phase)
    requires i < |phases|
    requires (phases[i] == Submitted && phase == Running) || (phases[i] == Running && phase == Finished)
    ensures Left(phases[i := phase]) < Left(phases)
  {
    var front := phases[..|phases| - 1];
    if i < |phases| - 1 {
      LeftShrinks(front, i, phase);
      assert phases[i := phase][..|phases| - 1] == front[i := phase];
    } else {
      assert phases[i := phase][..|phases| - 1] == front;
    }
  }

  lemma EventWorks(gpu: Gpu, e: Event)
    requires |gpu.phases| == |gpu.ops| && Enabled(gpu, e)
    ensures Work(Happen(gpu, e)) < Work(gpu)
  {
    hide Left;
    match e
    case Start(i) => LeftShrinks(gpu.phases, i, Running);
    case Finish(i) => LeftShrinks(gpu.phases, i, Finished);
    case ImageReady =>
  }

  /** vkDeviceWaitIdle and the bounded fence wait can always succeed: from every state between frames
      the GPU can finish all that was submitted, which leaves the fence signalled and the acquire
      semaphore unused. */
  lemma {:induction false} Drains(gpu: Gpu) returns (events: seq<Event>)
    requires Sound(gpu) && Owned(gpu)
    ensures |gpu.phases| == |gpu.ops|
    ensures var after := Advance(gpu, events);
            && (forall i :: 0 <= i < |after.ops| ==> after.phases[i].Finished?)
            && after.fence && after.acquire == Unsignalled && after.waiter.None?
            && after.planes == Picture(Decodes(gpu.ops, |gpu.ops|))
    decreases Work(gpu)
  {
    if i :| 0 <= i < |gpu.ops| && !gpu.phases[i].Finished? {
      hide Sound, Owned, Enabled, Work, Happen;
      Sized(gpu);
      var e := NextEvent(gpu);
      EventWorks(gpu, e);
      EventKeeps(gpu, e);
      var rest := Drains(Happen(gpu, e));
      events := [e] + rest;
      assert events[1..] == rest;
      assert Happen(gpu, e).ops == gpu.ops by { SameOps(gpu, e); }
    } else {
      events := [];
    }
  }

  lemma SameOps(gpu: Gpu, e: Event)
    requires |gpu.phases| == |gpu.ops| && Enabled(gpu, e)
    ensures Happen(gpu, e).ops == gpu.ops
  {
  }

  // ---- The renderer's submissions ----

  /** The timelines' next values are greater than all before. */
  lemma NextGreater(ops: seq<Op>, op: Op)
    requires WellSubmitted(ops) && op.signal == 1 + (if op.Decode? then Decodes(ops, |ops|) else Renders(ops, |ops|))
    ensures Greater(ops, op)
  {
    hide Decodes, Renders;
    forall k | 0 <= k < |ops| && ops[k].Decode? == op.Decode? ensures ops[k].signal < op.signal {
      assert Disciplined(ops, k);
      NextCounts(ops, k);
      CountsGrow(ops, k + 1, |ops|);
    }
  }

  lemma SubmittedWell(ops: seq<Op>, op: Op)
    requires WellSubmitted(ops) && Disciplined(ops + [op], |ops|)
    ensures WellSubmitted(ops + [op])
  {
    hide Decodes, Renders;
    forall i | 0 <= i < |ops| ensures Disciplined(ops + [op], i) {
      assert Disciplined(ops, i);
      CountsOfPrefix(ops, [op], i);
    }
  }

  lemma QueueKeepsOrder(gpu: Gpu, op: Op, n: nat)
    requires n <= |gpu.ops| == |gpu.phases| && DoneUpTo(gpu, n) && Timelines(gpu, n) && Greater(gpu.ops, op)
    ensures DoneUpTo(Queue(gpu, op), n) && Timelines(Queue(gpu, op), n)
  {
    hide Decodes, Renders, Greater;
    CountsOfPrefix(gpu.ops, [op], n);
  }

  lemma QueueCounts(ops: seq<Op>, op: Op)
    ensures Decodes(ops + [op], |ops| + 1) == Decodes(ops, |ops|) + (if op.Decode? then 1 else 0)
    ensures Renders(ops + [op], |ops| + 1) == Renders(ops, |ops|) + (if op.Render? then 1 else 0)
  {
    CountsOfPrefix(ops, [op], |ops|);
  }

  /** Submitting a decode that waits for the last render and signals the next decode value. */
  lemma QueueDecodeKeeps(gpu: Gpu, op: Op)
    requires Sound(gpu) && op == Op.Decode(Renders(gpu.ops, |gpu.ops|), Decodes(gpu.ops, |gpu.ops|) + 1)
    ensures Greater(gpu.ops, op) && Sound(Queue(gpu, op)) && (Owned(gpu) ==> Owned(Queue(gpu, op)))
  {
    var n := DoneCount(gpu);
    hide Decodes, Renders, DoneUpTo, Timelines, Greater, WellSubmitted;
    NextGreater(gpu.ops, op);
    CountsOfPrefix(gpu.ops, [op], |gpu.ops|);
    SubmittedWell(gpu.ops, op);
    QueueKeepsOrder(gpu, op, n);
    HandlesOfDecode(gpu, op);
  }

  lemma HandlesOfDecode(gpu: Gpu, op: Op)
    requires |gpu.ops| == |gpu.phases| && Handles(gpu) && op.Decode? && Greater(gpu.ops, op)
    ensures Handles(Queue(gpu, op))
  {
    hide Greater;
  }

  /** Submitting a render of the decode just submitted. */
  lemma QueueRenderKeeps(gpu: Gpu, op: Op)
    requires Sound(gpu) && MayQueue(gpu) && gpu.ops != [] && gpu.ops[|gpu.ops| - 1].Decode?
    requires op == Op.Render(Decodes(gpu.ops, |gpu.ops|), Renders(gpu.ops, |gpu.ops|) + 1)
    ensures Greater(gpu.ops, op) && Sound(QueueRender(gpu, op)) && Owned(QueueRender(gpu, op))
  {
    var n := DoneCount(gpu);
    hide Decodes, Renders, DoneUpTo, Timelines, Greater, WellSubmitted;
    NextGreater(gpu.ops, op);
    CountsOfPrefix(gpu.ops, [op], |gpu.ops|);
    assert (gpu.ops + [op])[|gpu.ops| - 1] == gpu.ops[|gpu.ops| - 1];
    SubmittedWell(gpu.ops, op);
    QueueKeepsOrder(gpu, op, n);
    OwnersApart(Queue(gpu, op), QueueRender(gpu, op), n);
    HandlesOfRender(gpu, op);
  }

  lemma OwnersApart(a: Gpu, b: Gpu, n: nat)
    requires n <= |a.ops| == |a.phases| && DoneUpTo(a, n) && Timelines(a, n)
    requires b.ops == a.ops && b.phases == a.phases && b.decoded == a.decoded && b.rendered == a.rendered
             && b.planes == a.planes
    ensures DoneUpTo(b, n) && Timelines(b, n)
  {
  }

  lemma HandlesOfRender(gpu: Gpu, op: Op)
    requires |gpu.ops| == |gpu.phases| && Handles(gpu) && op.Render? && Greater(gpu.ops, op) && MayQueue(gpu)
    ensures Handles(QueueRender(gpu, op)) && Owned(QueueRender(gpu, op))
  {
    hide Greater;
  }

  /** Once the fence is signalled, the acquire semaphore is free and the fence may be reset. */
  lemma FenceFrees(gpu: Gpu)
    requires Sound(gpu) && Owned(gpu) && gpu.fence
    ensures MayAcquire(gpu) && MayReset(gpu)
  {
  }

  lemma HandlingKeeps(gpu: Gpu, after: Gpu)
    requires Sound(gpu) && gpu.signaller.None? && gpu.waiter.None?
    requires after == gpu.(fence := after.fence, acquire := after.acquire)
    ensures Sound(after)
  {
    var n := DoneCount(gpu);
    OwnersApart(gpu, after, n);
  }
}
