/** The packet map of one frame: which bytes each RTP packet carried, whether it
    was lost, and whether the host flagged it as starting with a record. */
module PacketMap {
  import opened Words

  datatype Segment = Segment(offset: nat, size: nat, lost: bool, recordStart: bool)

  function End(segment: Segment): nat {
    segment.offset + segment.size
  }

  /** The packets follow each other without gap or overlap, and none is empty. */
  ghost predicate Contiguous(segments: seq<Segment>) {
    && (forall i :: 0 <= i < |segments| ==> segments[i].size > 0)
    && (forall i, j :: 0 <= i < |segments| && j == i + 1 < |segments| ==> segments[j].offset == End(segments[i]))
  }

  /** The packets tile [0, size), or there is no map at all. */
  ghost predicate Tiles(segments: seq<Segment>, size: nat) {
    segments == [] || (Contiguous(segments) && segments[0].offset == 0 && End(segments[|segments| - 1]) == size)
  }

  ghost predicate Holds(segment: Segment, b: nat) {
    segment.offset <= b < End(segment)
  }

  /** Byte b travelled in a lost packet. */
  ghost predicate ByteLost(segments: seq<Segment>, b: nat) {
    exists i :: 0 <= i < |segments| && segments[i].lost && Holds(segments[i], b)
  }

  /** Some byte of [start, end) travelled in a lost packet. */
  ghost predicate RangeLost(segments: seq<Segment>, start: nat, end: nat) {
    exists b :: start <= b < end && ByteLost(segments, b)
  }

  predicate AnyLost(segments: seq<Segment>) {
    exists i :: 0 <= i < |segments| && segments[i].lost
  }

  predicate Resumable(segment: Segment, flagRequired: bool) {
    !segment.lost && (segment.recordStart || !flagRequired)
  }

  /** The first packet, from index i on, that starts after pos and where parsing may resume. */
  function NextFrom(segments: seq<Segment>, pos: nat, flagRequired: bool, i: nat): (next: Option<nat>)
    requires i <= |segments|
    ensures next.Some? ==> next.value > pos
    decreases |segments| - i
  {
    if i == |segments| then None
    else if segments[i].offset > pos && Resumable(segments[i], flagRequired) then Some(segments[i].offset)
    else NextFrom(segments, pos, flagRequired, i + 1)
  }

  function NextReceived(segments: seq<Segment>, pos: nat, flagRequired: bool): (next: Option<nat>)
    ensures next.Some? ==> next.value > pos
  {
    NextFrom(segments, pos, flagRequired, 0)
  }

  /** Packet starts only grow. */
  lemma {:induction false} StartsGrow(segments: seq<Segment>, i: nat, j: nat)
    requires Contiguous(segments) && i < j < |segments|
    ensures End(segments[i]) <= segments[j].offset
  {
    if j > i + 1 {
      StartsGrow(segments, i, j - 1);
      assert j == (j - 1) + 1;
    }
  }

  /** A packet holds a byte for itself: no other packet does. */
  lemma HolderUnique(segments: seq<Segment>, b: nat, i: nat, j: nat)
    requires Contiguous(segments) && i < |segments| && j < |segments|
    requires Holds(segments[i], b) && Holds(segments[j], b)
    ensures i == j
  {
    if i < j {
      StartsGrow(segments, i, j);
    } else if j < i {
      StartsGrow(segments, j, i);
    }
  }

  /** Every byte of a tiled frame is in some packet. */
  lemma {:induction false} HolderExists(segments: seq<Segment>, b: nat, n: nat) returns (i: nat)
    requires Contiguous(segments) && 0 < n <= |segments|
    requires segments[0].offset <= b < End(segments[n - 1])
    ensures i < n && Holds(segments[i], b)
  {
    if b >= segments[n - 1].offset {
      i := n - 1;
    } else {
      assert n > 1;
      assert n - 1 == (n - 2) + 1;
      i := HolderExists(segments, b, n - 1);
    }
  }

  /** NextReceived is the least resumable packet start beyond pos. */
  lemma {:induction false} NextFromLeast(segments: seq<Segment>, pos: nat, flagRequired: bool, i: nat)
    requires Contiguous(segments) && i <= |segments|
    ensures var next := NextFrom(segments, pos, flagRequired, i);
            && (next.Some? ==> exists j :: i <= j < |segments| && segments[j].offset == next.value > pos
                                        && Resumable(segments[j], flagRequired))
            && (forall j :: i <= j < |segments| && segments[j].offset > pos && Resumable(segments[j], flagRequired)
                  ==> next.Some? && next.value <= segments[j].offset)
    decreases |segments| - i
  {
    if i < |segments| {
      NextFromLeast(segments, pos, flagRequired, i + 1);
      if segments[i].offset > pos && Resumable(segments[i], flagRequired) {
        forall j | i < j < |segments| ensures segments[i].offset <= segments[j].offset {
          StartsGrow(segments, i, j);
        }
      }
    }
  }

  lemma NextReceivedLeast(segments: seq<Segment>, pos: nat, flagRequired: bool)
    requires Contiguous(segments)
    ensures var next := NextReceived(segments, pos, flagRequired);
            && (next.Some? ==> exists j :: 0 <= j < |segments| && segments[j].offset == next.value > pos
                                        && Resumable(segments[j], flagRequired))
            && (forall j :: 0 <= j < |segments| && segments[j].offset > pos && Resumable(segments[j], flagRequired)
                  ==> next.Some? && next.value <= segments[j].offset)
  {
    NextFromLeast(segments, pos, flagRequired, 0);
  }

  /** What indexOf means: the last packet that starts at or before pos, or the
      packet count when none does (or there is no map). Nothing here depends on
      what was looked up before. */
  ghost predicate IsIndexOf(segments: seq<Segment>, pos: nat, i: nat) {
    if segments == [] || pos < segments[0].offset then i == |segments|
    else i < |segments| && segments[i].offset <= pos && (i + 1 < |segments| ==> pos < segments[i + 1].offset)
  }

  lemma IndexOfUnique(segments: seq<Segment>, pos: nat, i: nat, j: nat)
    requires Contiguous(segments) && IsIndexOf(segments, pos, i) && IsIndexOf(segments, pos, j)
    ensures i == j
  {
    if i < j < |segments| {
      if i + 1 < j { StartsGrow(segments, i + 1, j); }
    } else if j < i < |segments| {
      if j + 1 < i { StartsGrow(segments, j + 1, i); }
    }
  }

  /** Packets before the one holding pos end at or before it, packets after it start beyond pos. */
  lemma IndexSeparates(segments: seq<Segment>, pos: nat, i: nat, j: nat)
    requires Contiguous(segments) && IsIndexOf(segments, pos, i) && i < |segments| && j < |segments|
    ensures j < i ==> End(segments[j]) <= pos
    ensures j > i ==> segments[j].offset > pos
  {
    if j < i {
      StartsGrow(segments, j, i);
    } else if j > i + 1 {
      StartsGrow(segments, i + 1, j);
    }
  }

  lemma {:induction false} NextSkips(segments: seq<Segment>, pos: nat, flagRequired: bool, i: nat, j: nat)
    requires i <= j <= |segments|
    requires forall k :: i <= k < j ==> segments[k].offset <= pos || !Resumable(segments[k], flagRequired)
    ensures NextFrom(segments, pos, flagRequired, i) == NextFrom(segments, pos, flagRequired, j)
    decreases j - i
  {
    if i < j {
      NextSkips(segments, pos, flagRequired, i + 1, j);
    }
  }

  /** The lookups of the C++ SegmentMap, with the packet found last cached in m_index. */
  class SegmentMap {
    const m_segments: seq<Segment>
    const m_anyLost: bool
    var m_index: nat

    ghost predicate Valid()
      reads this
    {
      && Contiguous(m_segments)
      && m_anyLost == AnyLost(m_segments)
      && (m_segments != [] ==> m_index < |m_segments|)
    }

    constructor (segments: seq<Segment>)
      requires Contiguous(segments)
      ensures Valid() && m_segments == segments
    {
      m_segments := segments;
      m_anyLost := AnyLost(segments);
      m_index := 0;
    }

    /** std::upper_bound over the packet starts: the first packet starting beyond pos. */
    method UpperBound(pos: nat) returns (it: nat)
      requires Valid()
      ensures it <= |m_segments|
      ensures forall i :: 0 <= i < it ==> m_segments[i].offset <= pos
      ensures forall i :: it <= i < |m_segments| ==> pos < m_segments[i].offset
    {
      it := 0;
      var hi := |m_segments|;
      while it < hi
        invariant it <= hi <= |m_segments|
        invariant forall i :: 0 <= i < it ==> m_segments[i].offset <= pos
        invariant forall i :: hi <= i < |m_segments| ==> pos < m_segments[i].offset
      {
        var mid := (it + hi) / 2;
        if pos < m_segments[mid].offset {
          forall i | mid < i < |m_segments| ensures pos < m_segments[i].offset {
            StartsGrow(m_segments, mid, i);
          }
          hi := mid;
        } else {
          forall i | 0 <= i < mid ensures m_segments[i].offset <= pos {
            StartsGrow(m_segments, i, mid);
          }
          it := mid + 1;
        }
      }
    }

    /** Index of the packet holding pos, whatever the cache held before. */
    method IndexOf(pos: nat) returns (i: nat)
      requires Valid()
      modifies this`m_index
      ensures Valid()
      ensures IsIndexOf(m_segments, pos, i)
    {
      if m_segments == [] {
        return 0;
      }
      if pos >= m_segments[m_index].offset {
        if m_index > 0 { StartsGrow(m_segments, 0, m_index); }
        while m_index + 1 < |m_segments| && m_segments[m_index + 1].offset <= pos
          invariant m_index < |m_segments| && m_segments[m_index].offset <= pos
          decreases |m_segments| - m_index
        {
          m_index := m_index + 1;
        }
        return m_index;
      }
      var it := UpperBound(pos);
      if it == 0 {
        return |m_segments|;
      }
      m_index := it - 1;
      return m_index;
    }

    /** Whether any byte of [start, end) was lost. Of a range that is empty or starts beyond the packets,
        whether a lost packet reaches from start, or is the last, and starts before end. */
    method Lost(start: nat, end: nat) returns (lost: bool)
      requires Valid()
      modifies this`m_index
      ensures Valid()
      ensures lost <==> exists i :: 0 <= i < |m_segments| && m_segments[i].lost && AtOrPast(m_segments, start, i)
                                    && m_segments[i].offset < end
      ensures start < end && m_segments != [] && m_segments[0].offset <= start < End(m_segments[|m_segments| - 1])
              ==> lost == RangeLost(m_segments, start, end)
      ensures m_segments == [] ==> !lost && !RangeLost(m_segments, start, end)
    {
      if !m_anyLost {
        return false;
      }
      var first := IndexOf(start);
      var i := first;
      while i < |m_segments| && m_segments[i].offset < end
        invariant first <= i <= |m_segments| || first == i == |m_segments|
        invariant forall k :: first <= k < i ==> !m_segments[k].lost
      {
        if m_segments[i].lost {
          PastIndex(m_segments, start, first, i);
          if start < end && m_segments[0].offset <= start < End(m_segments[|m_segments| - 1]) {
            var b := Max(start, m_segments[i].offset);
            IndexHolds(m_segments, start, first);
            IndexSeparates(m_segments, start, first, i);
            assert Holds(m_segments[i], b);
            assert ByteLost(m_segments, b);
          }
          return true;
        }
        i := i + 1;
      }
      forall k | 0 <= k < |m_segments| && AtOrPast(m_segments, start, k) && m_segments[k].offset < end
        ensures !m_segments[k].lost {
        PastIndex(m_segments, start, first, k);
        if i < k { StartsGrow(m_segments, i, k); }
      }
      if start < end && m_segments[0].offset <= start < End(m_segments[|m_segments| - 1]) {
        forall b | start <= b < end ensures !ByteLost(m_segments, b) {
          NoneLostBetween(m_segments, start, end, first, i, b);
        }
      }
      return false;
    }

    /** Whether [start, end) came in a single packet. */
    method WithinOnePacket(start: nat, end: nat) returns (within: bool)
      requires Valid()
      modifies this`m_index
      ensures Valid() && within == InOnePacket(m_segments, start, end)
    {
      var i := IndexOf(start);
      within := i < |m_segments| && end <= m_segments[i].offset + m_segments[i].size;
      forall j | 0 <= j < |m_segments| && m_segments[j].offset <= start && end <= End(m_segments[j])
        ensures i < |m_segments| && end <= End(m_segments[i])
      {
        if 0 < j { StartsGrow(m_segments, 0, j); }
        IndexSeparates(m_segments, start, i, j);
        if j < i { StartsGrow(m_segments, j, i); }
      }
    }

    /** Start of the first received packet after pos (flagged, when a flag is required), if any. */
    method NextReceivedStart(pos: nat, flagRequired: bool) returns (next: Option<nat>)
      requires Valid()
      modifies this`m_index
      ensures Valid()
      ensures next == if m_segments != [] && pos < m_segments[0].offset then None
              else NextReceived(m_segments, pos, flagRequired)
    {
      var first := IndexOf(pos);
      var i := first + 1;
      while i < |m_segments|
        invariant first < i
        invariant forall k :: first < k < i && k < |m_segments| ==> !Resumable(m_segments[k], flagRequired)
      {
        if !m_segments[i].lost && (m_segments[i].recordStart || !flagRequired) {
          if m_segments[0].offset <= pos {
            PassedOver(m_segments, pos, flagRequired, first, i);
            IndexSeparates(m_segments, pos, first, i);
          }
          return Some(m_segments[i].offset);
        }
        i := i + 1;
      }
      if m_segments != [] && m_segments[0].offset <= pos {
        PassedOver(m_segments, pos, flagRequired, first, |m_segments|);
      }
      return None;
    }
  }

  /** [start, end) came in a single packet. */
  ghost predicate InOnePacket(segments: seq<Segment>, start: nat, end: nat) {
    exists i :: 0 <= i < |segments| && segments[i].offset <= start && end <= End(segments[i])
  }

  /** Packet i reaches beyond pos, or is the last; and pos is not before the first. */
  ghost predicate AtOrPast(segments: seq<Segment>, pos: nat, i: nat) {
    i < |segments| && segments[0].offset <= pos && (pos < End(segments[i]) || i == |segments| - 1)
  }

  /** These are the packets from the one looked up on. */
  lemma PastIndex(segments: seq<Segment>, pos: nat, first: nat, i: nat)
    requires Contiguous(segments) && IsIndexOf(segments, pos, first) && i < |segments|
    ensures AtOrPast(segments, pos, i) <==> first <= i
  {
    if first < |segments| {
      IndexSeparates(segments, pos, first, i);
      if first == i < |segments| - 1 { assert segments[i + 1].offset == End(segments[i]); }
    }
  }

  lemma IndexHolds(segments: seq<Segment>, pos: nat, i: nat)
    requires Contiguous(segments) && IsIndexOf(segments, pos, i)
    requires segments != [] && segments[0].offset <= pos < End(segments[|segments| - 1])
    ensures i < |segments| && Holds(segments[i], pos)
  {
  }

  lemma NoneLostBetween(segments: seq<Segment>, start: nat, end: nat, first: nat, i: nat, b: nat)
    requires Contiguous(segments) && IsIndexOf(segments, start, first)
    requires first < |segments| && first <= i <= |segments|
    requires forall k :: first <= k < i ==> !segments[k].lost
    requires i < |segments| ==> end <= segments[i].offset
    requires start <= b < end
    ensures !ByteLost(segments, b)
  {
    forall k | 0 <= k < |segments| && Holds(segments[k], b) ensures !segments[k].lost {
      IndexSeparates(segments, start, first, k);
      if i < k { StartsGrow(segments, i, k); }
    }
  }

  lemma PassedOver(segments: seq<Segment>, pos: nat, flagRequired: bool, first: nat, i: nat)
    requires Contiguous(segments) && IsIndexOf(segments, pos, first)
    requires first < |segments| && first < i <= |segments|
    requires forall k :: first < k < i ==> !Resumable(segments[k], flagRequired)
    ensures NextReceived(segments, pos, flagRequired) == NextFrom(segments, pos, flagRequired, i)
  {
    forall k | 0 <= k <= first ensures segments[k].offset <= pos {
      IndexSeparates(segments, pos, first, k);
    }
    NextSkips(segments, pos, flagRequired, 0, i);
  }
}
