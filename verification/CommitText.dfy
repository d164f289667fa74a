/** Committed text is sent in chunks of UTF-8, none cut inside a code point (RFC 3629, sections 3 and 4). */
module CommitText {
  import opened Words

  const UTF8_CHUNK_SIZE := 512

  predicate IsTail(b: byte) {
    0x80 <= b < 0xC0
  }

  /** How many bytes the code point at p takes, 0 if none of UTF-8's forms is there. */
  function CodePointLength(s: seq<byte>, p: nat): (n: nat)
    requires p < |s|
    ensures n <= 4
  {
    var b := s[p];
    if b < 0x80 then 1
    else if 0xC2 <= b < 0xE0 && TailAt(s, p + 1) then 2
    else if 0xE0 <= b < 0xF0 && TailAt(s, p + 1) && TailAt(s, p + 2) && (b == 0xE0 ==> s[p + 1] >= 0xA0)
        && (b == 0xED ==> s[p + 1] < 0xA0) then 3
    else if 0xF0 <= b < 0xF5 && TailAt(s, p + 1) && TailAt(s, p + 2) && TailAt(s, p + 3)
            && (b == 0xF0 ==> s[p + 1] >= 0x90) && (b == 0xF4 ==> s[p + 1] < 0x90) then 4
    else 0
  }

  predicate TailAt(s: seq<byte>, p: nat) {
    p < |s| && IsTail(s[p])
  }

  /** [lo, hi) of s is a run of whole code points. */
  predicate ValidUtf8(s: seq<byte>, lo: nat, hi: nat)
    requires hi <= |s|
    decreases hi - lo
  {
    lo == hi || (lo < hi && CodePointLength(s, lo) > 0 && lo + CodePointLength(s, lo) <= hi
                 && ValidUtf8(s, lo + CodePointLength(s, lo), hi))
  }

  function Concat(chunks: seq<seq<byte>>): seq<byte> {
    if chunks == [] then [] else Concat(chunks[..|chunks| - 1]) + chunks[|chunks| - 1]
  }

  /** A code point starts exactly where there is no tail byte. */
  lemma {:induction false} BoundarySplits(s: seq<byte>, lo: nat, mid: nat, hi: nat)
    requires lo <= mid <= hi <= |s| && ValidUtf8(s, lo, hi)
    ensures (mid == hi || !IsTail(s[mid])) <==> (ValidUtf8(s, lo, mid) && ValidUtf8(s, mid, hi))
    decreases hi - lo
  {
    if lo < mid {
      var n := CodePointLength(s, lo);
      if lo + n <= mid {
        BoundarySplits(s, lo + n, mid, hi);
      } else {
        assert IsTail(s[mid]);
      }
    }
  }

  /** A code point takes at most four bytes, so one starts within the last four of any stretch. */
  lemma {:induction false} StartNear(s: seq<byte>, lo: nat, end: nat, hi: nat)
    requires lo + 4 <= end < hi <= |s| && ValidUtf8(s, lo, hi)
    ensures !IsTail(s[end]) || !IsTail(s[end - 1]) || !IsTail(s[end - 2]) || !IsTail(s[end - 3])
    decreases hi - lo
  {
    var n := CodePointLength(s, lo);
    if lo + n + 4 <= end {
      StartNear(s, lo + n, end, hi);
    } else if lo + n <= end {
      assert lo + n == hi || CodePointLength(s, lo + n) > 0;
    }
  }

  /** A stretch cut out reads as it did in place. */
  lemma {:induction false} CutValid(s: seq<byte>, base: nat, lo: nat, hi: nat)
    requires base <= lo <= hi <= |s| && ValidUtf8(s, lo, hi)
    ensures ValidUtf8(s[base..hi], lo - base, hi - base)
    decreases hi - lo
  {
    if lo < hi {
      CutValid(s, base, lo + CodePointLength(s, lo), hi);
    }
  }

  ghost predicate Chunked(utf8: seq<byte>, chunks: seq<seq<byte>>) {
    && Concat(chunks) == utf8
    && forall i :: 0 <= i < |chunks| ==> 0 < |chunks[i]| <= UTF8_CHUNK_SIZE && ValidUtf8(chunks[i], 0, |chunks[i]|)
  }

  lemma ChunkAdded(s: seq<byte>, chunks: seq<seq<byte>>, offset: nat, end: nat)
    requires offset < end <= |s| && end - offset <= UTF8_CHUNK_SIZE && ValidUtf8(s, offset, end)
             && Chunked(s[..offset], chunks)
    ensures Chunked(s[..end], chunks + [s[offset..end]])
  {
    CutValid(s, offset, offset, end);
    assert (chunks + [s[offset..end]])[..|chunks|] == chunks;
    assert s[..offset] + s[offset..end] == s[..end];
  }

  class CommitTextQueue {
    var commitTextQueue: seq<seq<byte>>

    constructor ()
      ensures commitTextQueue == []
    {
      commitTextQueue := [];
    }

    /** Queues a text's UTF-8: chunks that are not empty, at most 512 bytes long, each of whole code points,
        and the text when put together. Says whether the flush is to be started. */
    method EnqueueCommitText(utf8: seq<byte>) returns (kick: bool)
      requires ValidUtf8(utf8, 0, |utf8|)
      modifies this
      ensures old(commitTextQueue) <= commitTextQueue && Chunked(utf8, commitTextQueue[|old(commitTextQueue)|..])
      ensures utf8 != [] ==> (kick <==> old(commitTextQueue) == [] && |utf8| <= UTF8_CHUNK_SIZE)
      ensures utf8 == [] ==> !kick
    {
      if utf8 == [] {
        assert commitTextQueue[|commitTextQueue|..] == [];
        return false;
      }
      ghost var before, chunks := commitTextQueue, [];
      var offset := 0;
      assert utf8[..0] == [];
      while offset < |utf8|
        invariant offset <= |utf8| && ValidUtf8(utf8, offset, |utf8|)
        invariant commitTextQueue == before + chunks && Chunked(utf8[..offset], chunks)
        invariant |chunks| == 0 ==> offset == 0
        invariant |chunks| == 1 ==> (offset == |utf8| <==> |utf8| <= UTF8_CHUNK_SIZE)
        invariant |chunks| > 1 ==> |utf8| > UTF8_CHUNK_SIZE
        decreases |utf8| - offset
      {
        hide Chunked, ValidUtf8;
        var end := ChunkEnd(utf8, offset);
        ChunkAdded(utf8, chunks, offset, end);
        chunks := chunks + [utf8[offset..end]];
        commitTextQueue := commitTextQueue + [utf8[offset..end]];
        offset := end;
      }
      assert utf8[..offset] == utf8;
      assert commitTextQueue[|before|..] == chunks;
      return |commitTextQueue| == 1;
    }
  }

  function Letters(n: nat): (utf8: seq<byte>)
    ensures |utf8| == n && forall k :: 0 <= k < n ==> utf8[k] == 0x61
  {
    seq(n, _ => 0x61)
  }

  lemma {:induction false} LettersValid(n: nat, p: nat)
    requires p <= n
    ensures ValidUtf8(Letters(n), p, n)
    decreases n - p
  {
    if p < n { LettersValid(n, p + 1); }
  }

  /** A text that is queued and never flushed: 513 letters on an empty queue. */
  method LongTextWaits(queue: CommitTextQueue) returns (kick: bool)
    requires queue.commitTextQueue == []
    modifies queue
    ensures !kick && queue.commitTextQueue != []
  {
    LettersValid(513, 0);
    kick := queue.EnqueueCommitText(Letters(513));
    assert Concat([]) == [];
  }

  /** Where the chunk from offset ends: at most 512 bytes on, stepped back to the start of a code point. */
  method ChunkEnd(utf8: seq<byte>, offset: nat) returns (end: nat)
    requires offset < |utf8| && ValidUtf8(utf8, offset, |utf8|)
    ensures offset < end <= |utf8| && end - offset <= UTF8_CHUNK_SIZE
    ensures ValidUtf8(utf8, offset, end) && ValidUtf8(utf8, end, |utf8|)
    ensures end == |utf8| <==> |utf8| - offset <= UTF8_CHUNK_SIZE
    ensures end < |utf8| ==> end - offset > UTF8_CHUNK_SIZE - 4
  {
    end := Min(offset + UTF8_CHUNK_SIZE, |utf8|);
    ghost var full := end;
    while end < |utf8| && IsTail(utf8[end])
      invariant full - 4 < end <= full && offset < end && (end < full ==> full < |utf8|)
      invariant forall k :: end < k <= full ==> k < |utf8| && IsTail(utf8[k])
      decreases end
    {
      if end == full - 3 {
        assert IsTail(utf8[full - 1]) && IsTail(utf8[full - 2]);
        StartNear(utf8, offset, full, |utf8|);
      }
      end := end - 1;
    }
    BoundarySplits(utf8, offset, end, |utf8|);
  }
}
