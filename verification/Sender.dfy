/** What a host sends: records packed with the codec's bit-field layouts, one after the other. */
module Sender {
  import opened Words
  import opened Geometry
  import opened PacketMap
  import opened FramingSpec

  /** The header fields in declaration order; `vui` is the last five one-bit fields, which the
      client never looks at. */
  datatype Record =
    | Header(widthMinus1: nat, heightMinus1: nat, sequence: nat, totalBlocks: nat, code: nat, chroma: nat, vui: nat)
    | Block(ballot: nat, sequence: nat, quantCode: nat, index: nat, payload: seq<byte>)
    | Padding(words: nat)

  /** Every field fits its bits. */
  predicate Fits(r: Record) {
    match r
    case Header(w, h, sequence, total, code, chroma, vui) =>
      w < 0x4000 && h < 0x4000 && sequence < 8 && total < 0x100_0000 && code < 4 && chroma < 2 && vui < 32
    case Block(ballot, sequence, quant, index, payload) =>
      ballot < 0x1_0000 && sequence < 8 && quant < 0x100 && index < 0x100_0000
      && |payload| % 4 == 0 && HEADER_WORDS + |payload| / 4 < 0x1000
    case Padding(words) => words < WORD
  }

  /** The header of a 16384x16384 stream with sequence 7: its first word is all ones, as padding's is. */
  predicate AllOnes(r: Record) {
    r.Header? && r.widthMinus1 == 0x3FFF && r.heightMinus1 == 0x3FFF && r.sequence == 7
  }

  /** A record that reads back as it was packed. */
  predicate Packable(r: Record): (packable: bool)
    ensures packable ==> Fits(r)
  {
    Fits(r) && !AllOnes(r)
  }

  function Word0(r: Record): u32
    requires Fits(r)
  {
    match r
    case Header(w, h, sequence, _, _, _, _) => w + 0x4000 * h + 0x1000_0000 * sequence + 0x8000_0000
    case Block(ballot, sequence, _, _, payload) =>
      ballot + 0x1_0000 * (HEADER_WORDS + |payload| / 4) + 0x1000_0000 * sequence
    case Padding(_) => PADDING_MAGIC
  }

  function Word1(r: Record): u32
    requires Fits(r)
  {
    match r
    case Header(_, _, _, total, code, chroma, vui) => total + 0x100_0000 * code + 0x400_0000 * chroma + 0x800_0000 * vui
    case Block(_, _, quant, index, _) => quant + 0x100 * index
    case Padding(words) => words
  }

  function Zeros(n: nat): seq<byte> {
    seq(n, _ => 0)
  }

  function Body(r: Record): seq<byte> {
    match r
    case Header(_, _, _, _, _, _, _) => []
    case Block(_, _, _, _, payload) => payload
    case Padding(words) => Zeros(4 * words)
  }

  function Encode(r: Record): (bytes: seq<byte>)
    requires Fits(r)
    ensures |bytes| == Length(r)
  {
    PutU32(Word0(r)) + PutU32(Word1(r)) + Body(r)
  }

  function Length(r: Record): (n: nat)
    ensures n >= HEADER_BYTES
  {
    HEADER_BYTES + |Body(r)|
  }

  ghost predicate AllPackable(rs: seq<Record>) {
    forall k :: 0 <= k < |rs| ==> Packable(rs[k])
  }

  function Serialise(rs: seq<Record>): (bytes: seq<byte>)
    requires AllPackable(rs)
    ensures |bytes| == Offset(rs, |rs|)
  {
    if rs == [] then [] else
      var front := rs[..|rs| - 1];
      OffsetOfPrefix(rs, front, |front|);
      Serialise(front) + Encode(rs[|rs| - 1])
  }

  /** Where the k-th record starts. */
  function Offset(rs: seq<Record>, k: nat): nat
    requires k <= |rs|
  {
    if k == 0 then 0 else Offset(rs, k - 1) + Length(rs[k - 1])
  }

  lemma {:induction false} OffsetOfPrefix(rs: seq<Record>, front: seq<Record>, k: nat)
    requires front <= rs && k <= |front|
    ensures Offset(front, k) == Offset(rs, k)
  {
    if k > 0 {
      OffsetOfPrefix(rs, front, k - 1);
    }
  }

  lemma {:induction false} OffsetsGrow(rs: seq<Record>, j: nat, k: nat)
    requires j <= k <= |rs|
    ensures Offset(rs, j) + HEADER_BYTES * (k - j) <= Offset(rs, k)
  {
    if j < k {
      OffsetsGrow(rs, j, k - 1);
    }
  }

  lemma {:induction false} OffsetsAligned(rs: seq<Record>, k: nat)
    requires AllPackable(rs) && k <= |rs|
    ensures Offset(rs, k) % 4 == 0
  {
    hide Length, Packable;
    if k > 0 {
      OffsetsAligned(rs, k - 1);
      LengthAligned(rs[k - 1]);
    }
  }

  lemma LengthAligned(r: Record)
    requires Packable(r)
    ensures Length(r) % 4 == 0
  {
  }

  lemma SerialiseSnoc(rs: seq<Record>)
    requires AllPackable(rs) && rs != []
    ensures Serialise(rs) == Serialise(rs[..|rs| - 1]) + Encode(rs[|rs| - 1])
    ensures |Serialise(rs[..|rs| - 1])| == Offset(rs, |rs| - 1)
  {
    OffsetOfPrefix(rs, rs[..|rs| - 1], |rs| - 1);
  }

  lemma SliceOfSuffix<T>(a: seq<T>, b: seq<T>)
    ensures (a + b)[|a|..|a| + |b|] == b
  {
  }

  /** The k-th record's bytes are where Offset says. */
  lemma {:induction false} RecordBytes(rs: seq<Record>, k: nat)
    requires AllPackable(rs) && k < |rs|
    ensures Offset(rs, k) <= Offset(rs, k + 1) <= |Serialise(rs)|
    ensures Serialise(rs)[Offset(rs, k)..Offset(rs, k + 1)] == Encode(rs[k])
    decreases |rs|
  {
    hide Encode, Packable, Serialise, Length;
    OffsetsGrow(rs, k + 1, |rs|);
    SerialiseSnoc(rs);
    var front := rs[..|rs| - 1];
    if k < |rs| - 1 {
      RecordBytes(front, k);
      OffsetOfPrefix(rs, front, k);
      OffsetOfPrefix(rs, front, k + 1);
      SliceOfPrefix(Serialise(front), Encode(rs[|rs| - 1]), Offset(rs, k), Offset(rs, k + 1));
    } else {
      SliceOfSuffix(Serialise(front), Encode(rs[k]));
    }
  }

  lemma SliceOfSlice<T>(a: seq<T>, lo: nat, hi: nat, from: nat, to: nat)
    requires lo <= hi <= |a| && from <= to <= hi - lo
    ensures a[lo..hi][from..to] == a[lo + from..lo + to]
  {
    var x, y := a[lo..hi][from..to], a[lo + from..lo + to];
    assert |x| == |y|;
    forall i | 0 <= i < |x| ensures x[i] == y[i] {
      assert x[i] == a[lo..hi][from + i] == a[lo + from + i];
    }
  }

  lemma SliceOfPrefix<T>(a: seq<T>, b: seq<T>, lo: nat, hi: nat)
    requires lo <= hi <= |a|
    ensures (a + b)[lo..hi] == a[lo..hi]
  {
  }

  // ---- Packing is undone by the parser's field reads ----

  lemma HeaderWord0(w: nat, h: nat, sequence: nat)
    requires w < 0x4000 && h < 0x4000 && sequence < 8
    ensures var word := w + 0x4000 * h + 0x1000_0000 * sequence + 0x8000_0000;
            && 0x8000_0000 <= word < 0x1_0000_0000 && word % 0x4000 == w
            && (word == PADDING_MAGIC <==> w == 0x3FFF && h == 0x3FFF && sequence == 7)
            && (word / 0x4000) % 0x4000 == h && (word / 0x1000_0000) % 8 == sequence
  {
  }

  lemma HeaderWord1(total: nat, code: nat, chroma: nat, vui: nat)
    requires total < 0x100_0000 && code < 4 && chroma < 2 && vui < 32
    ensures var word := total + 0x100_0000 * code + 0x400_0000 * chroma + 0x800_0000 * vui;
            && word < 0x1_0000_0000 && word % 0x100_0000 == total
            && (word / 0x100_0000) % 4 == code && (word / 0x400_0000) % 2 == chroma
  {
  }

  lemma BlockWord0(ballot: nat, words: nat, sequence: nat)
    requires ballot < 0x1_0000 && words < 0x1000 && sequence < 8
    ensures var word := ballot + 0x1_0000 * words + 0x1000_0000 * sequence;
            word < 0x8000_0000 && (word / 0x1_0000) % 0x1000 == words && (word / 0x1000_0000) % 8 == sequence
  {
  }

  lemma HeaderFields(r: Record)
    requires Packable(r) && r.Header?
    ensures Extended(Word0(r)) && Word0(r) != PADDING_MAGIC
    ensures WidthField(Word0(r)) == r.widthMinus1 + 1 && HeightField(Word0(r)) == r.heightMinus1 + 1
    ensures SequenceField(Word0(r)) == r.sequence
    ensures TotalField(Word1(r)) == r.totalBlocks && CodeField(Word1(r)) == r.code
            && (ChromaField(Word1(r)) <==> r.chroma == 1)
  {
    HeaderWord0(r.widthMinus1, r.heightMinus1, r.sequence);
    HeaderWord1(r.totalBlocks, r.code, r.chroma, r.vui);
  }

  lemma BlockFields(r: Record)
    requires Packable(r) && r.Block?
    ensures !Extended(Word0(r)) && Word0(r) != PADDING_MAGIC
    ensures PayloadWordsField(Word0(r)) * 4 == Length(r) && PayloadWordsField(Word0(r)) >= HEADER_WORDS
    ensures SequenceField(Word0(r)) == r.sequence && IndexField(Word1(r)) == r.index
  {
    BlockWord0(r.ballot, HEADER_WORDS + |r.payload| / 4, r.sequence);
  }

  lemma PaddingFields(r: Record)
    requires Packable(r) && r.Padding?
    ensures Extended(Word0(r)) && Word0(r) == PADDING_MAGIC && HEADER_BYTES + (Word1(r) as int) * 4 == Length(r)
  {
  }

  lemma EncodedWords(r: Record)
    requires Fits(r)
    ensures ReadU32(Encode(r), 0) == Word0(r) && ReadU32(Encode(r), 4) == Word1(r)
  {
    var a, b := PutU32(Word0(r)), PutU32(Word1(r));
    assert Encode(r)[0..4] == a[0..4];
    assert Encode(r)[4..8] == b[0..4];
    ReadSame(Encode(r), 0, a, 0);
    ReadSame(Encode(r), 4, b, 0);
  }

  // ---- Losses ----

  /** The bytes received: right wherever the packet arrived, anything at all elsewhere. */
  ghost predicate Received(sent: seq<byte>, segments: seq<Segment>, data: seq<byte>) {
    |data| == |sent| && forall b :: 0 <= b < |data| && !ByteLost(segments, b) ==> data[b] == sent[b]
  }

  lemma ReceivedSlice(sent: seq<byte>, segments: seq<Segment>, data: seq<byte>, lo: nat, hi: nat)
    requires Received(sent, segments, data) && lo <= hi <= |data| && !RangeLost(segments, lo, hi)
    ensures data[lo..hi] == sent[lo..hi]
  {
    forall b | lo <= b < hi ensures data[b] == sent[b] {
      assert !ByteLost(segments, b);
    }
  }

  lemma PartKept(segments: seq<Segment>, lo: nat, hi: nat, from: nat, to: nat)
    requires !RangeLost(segments, lo, hi) && lo <= from && to <= hi
    ensures !RangeLost(segments, from, to)
  {
  }

  /** A received header reads as it was packed. */
  lemma HeaderRead(rs: seq<Record>, segments: seq<Segment>, data: seq<byte>, k: nat)
    requires AllPackable(rs) && k < |rs| && Received(Serialise(rs), segments, data)
    requires !RangeLost(segments, Offset(rs, k), Offset(rs, k) + HEADER_BYTES)
    ensures Offset(rs, k) + HEADER_BYTES <= Offset(rs, k + 1) <= |data|
    ensures ReadU32(data, Offset(rs, k)) == Word0(rs[k]) && ReadU32(data, Offset(rs, k) + 4) == Word1(rs[k])
  {
    hide Encode, Received, Word0, Word1, Serialise, Packable, RangeLost, Offset, ReadU32, Body;
    var sent, p := Serialise(rs), Offset(rs, k);
    PartKept(segments, p, p + HEADER_BYTES, p, p + 4);
    PartKept(segments, p, p + HEADER_BYTES, p + 4, p + 8);
    RecordBytes(rs, k);
    ReceivedLength(sent, segments, data);
    EncodedWords(rs[k]);
    SubRead(sent, p, Encode(rs[k]), 0);
    SubRead(sent, p, Encode(rs[k]), 4);
    ReceivedSlice(sent, segments, data, p, p + 4);
    ReceivedSlice(sent, segments, data, p + 4, p + 8);
    ReadSame(data, p, sent, p);
    ReadSame(data, p + 4, sent, p + 4);
  }

  lemma SubRead(data: seq<byte>, p: nat, part: seq<byte>, q: nat)
    requires p + |part| <= |data| && data[p..p + |part|] == part && q + 4 <= |part|
    ensures ReadU32(data, p + q) == ReadU32(part, q)
  {
    SliceOfSlice(data, p, p + |part|, q, q + 4);
    ReadSame(data, p + q, part, q);
  }

  lemma ReceivedLength(sent: seq<byte>, segments: seq<Segment>, data: seq<byte>)
    requires Received(sent, segments, data)
    ensures |data| == |sent|
  {
  }
}
