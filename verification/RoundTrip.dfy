/** Reading records back: a run of records unpacks to exactly the records packed, so what the parser
    hands on can be stated as a list of records. */
module RoundTrip {
  import opened Words
  import opened Geometry
  import opened PacketMap
  import opened FramingSpec
  import opened Sender
  import opened Recovery
  import opened Delivery

  // ---- Unpacking ----

  /** The record with these two header words, by the codec's bit-field layouts. */
  function RecordOf(word0: u32, word1: u32, body: seq<byte>): Record {
    if word0 == PADDING_MAGIC then Padding(word1)
    else if Extended(word0) then
      Header(word0 % 0x4000, (word0 / 0x4000) % 0x4000, SequenceField(word0), TotalField(word1), CodeField(word1),
             (word1 / 0x400_0000) % 2, word1 / 0x800_0000)
    else Block(word0 % 0x1_0000, SequenceField(word0), word1 % 0x100, IndexField(word1), body)
  }

  /** How many bytes the record with these header words takes. */
  function SizeOf(word0: u32, word1: u32): nat {
    if word0 == PADDING_MAGIC then HEADER_BYTES + word1 * 4
    else if Extended(word0) then HEADER_BYTES
    else PayloadWordsField(word0) * 4
  }

  /** Reads a run of records from front to back. */
  function Unpack(bytes: seq<byte>): Option<seq<Record>>
    decreases |bytes|
  {
    if bytes == [] then Some([])
    else if |bytes| < HEADER_BYTES then None
    else
      var word0, word1 := ReadU32(bytes, 0), ReadU32(bytes, 4);
      var size := SizeOf(word0, word1);
      if !(HEADER_BYTES <= size <= |bytes|) then None
      else
        match Unpack(bytes[size..])
        case None => None
        case Some(rest) => Some([RecordOf(word0, word1, bytes[HEADER_BYTES..size])] + rest)
  }

  lemma HeaderPacks(w: nat, h: nat, sequence: nat, total: nat, code: nat, chroma: nat, vui: nat)
    requires total < 0x100_0000 && code < 4 && chroma < 2 && vui < 32
    ensures (total + 0x100_0000 * code + 0x400_0000 * chroma + 0x800_0000 * vui) / 0x800_0000 == vui
  {
  }

  lemma BlockPacks(ballot: nat, words: nat, sequence: nat, quant: nat, index: nat)
    requires ballot < 0x1_0000 && words < 0x1000 && quant < 0x100
    ensures (ballot + 0x1_0000 * words + 0x1000_0000 * sequence) % 0x1_0000 == ballot
    ensures (quant + 0x100 * index) % 0x100 == quant
  {
  }

  lemma FieldsBack(r: Record)
    requires Packable(r)
    ensures RecordOf(Word0(r), Word1(r), if r.Block? then r.payload else []) == r
    ensures SizeOf(Word0(r), Word1(r)) == Length(r)
  {
    hide SequenceField, TotalField, CodeField, IndexField, PayloadWordsField;
    match r
    case Header(w, h, sequence, total, code, chroma, vui) =>
      HeaderFields(r);
      HeaderWord0(w, h, sequence);
      HeaderWord1(total, code, chroma, vui);
      HeaderPacks(w, h, sequence, total, code, chroma, vui);
    case Block(ballot, sequence, quant, index, payload) =>
      BlockFields(r);
      BlockPacks(ballot, HEADER_WORDS + |payload| / 4, sequence, quant, index);
    case Padding(_) =>
  }

  /** A record whose fields fit reads back as packed if and only if it is not the header of a
      16384x16384 frame with sequence 7, which reads as padding. */
  lemma ReadsBackExactly(r: Record)
    requires Fits(r)
    ensures RecordOf(Word0(r), Word1(r), Body(r)) == r <==> !AllOnes(r)
    ensures AllOnes(r) ==> RecordOf(Word0(r), Word1(r), Body(r)).Padding?
  {
    hide Word1, SequenceField, TotalField, CodeField, IndexField, PayloadWordsField;
    if AllOnes(r) {
      HeaderWord0(r.widthMinus1, r.heightMinus1, r.sequence);
    } else {
      BodyIgnored(r, Body(r));
    }
  }

  /** One record off the front. */
  lemma UnpackOne(r: Record)
    requires Packable(r)
    ensures Unpack(Encode(r)) == Some([r])
  {
    hide SizeOf, RecordOf, Packable, Word0, Word1, Body;
    var bytes := Encode(r);
    EncodedWords(r);
    FieldsBack(r);
    BodyBytes(r);
    assert bytes[|bytes|..] == [];
    assert Unpack([]) == Some([]);
    BodyIgnored(r, bytes[HEADER_BYTES..|bytes|]);
    assert [r] + [] == [r];
  }

  lemma BodyBytes(r: Record)
    requires Packable(r)
    ensures Encode(r)[HEADER_BYTES..|Encode(r)|] == Body(r)
  {
    hide Body, Word0, Word1;
    var head := PutU32(Word0(r)) + PutU32(Word1(r));
    assert Encode(r) == head + Body(r) && |head| == HEADER_BYTES;
  }

  /** Only a block record keeps its body. */
  lemma BodyIgnored(r: Record, body: seq<byte>)
    requires Packable(r) && body == Body(r)
    ensures RecordOf(Word0(r), Word1(r), body) == r
  {
    hide Word0, Word1, Packable, SequenceField, TotalField, CodeField, IndexField;
    FieldsBack(r);
    if r.Header? { HeaderFields(r); } else if r.Block? { BlockFields(r); } else { PaddingFields(r); }
  }

  lemma ReadPrefix(a: seq<byte>, b: seq<byte>, p: nat)
    requires p + 4 <= |a|
    ensures ReadU32(a + b, p) == ReadU32(a, p)
  {
    assert (a + b)[p..p + 4] == a[p..p + 4];
    ReadSame(a + b, p, a, p);
  }

  /** Two runs one after the other unpack to both. */
  lemma {:induction false} UnpackConcat(a: seq<byte>, b: seq<byte>)
    requires Unpack(a).Some? && Unpack(b).Some?
    ensures Unpack(a + b) == Some(Unpack(a).value + Unpack(b).value)
    decreases |a|
  {
    hide SizeOf, RecordOf, ReadU32;
    if a == [] {
      assert a + b == b;
      assert [] + Unpack(b).value == Unpack(b).value;
    } else {
      ReadPrefix(a, b, 0);
      ReadPrefix(a, b, 4);
      var size := SizeOf(ReadU32(a, 0), ReadU32(a, 4));
      UnpackConcat(a[size..], b);
      assert (a + b)[size..] == a[size..] + b;
      assert (a + b)[HEADER_BYTES..size] == a[HEADER_BYTES..size];
      var r, rest := RecordOf(ReadU32(a, 0), ReadU32(a, 4), a[HEADER_BYTES..size]), Unpack(a[size..]).value;
      assert ([r] + rest) + Unpack(b).value == [r] + (rest + Unpack(b).value);
    }
  }

  /** Packing and serialising loses nothing: the records come back, field for field. */
  lemma {:induction false} SerialiseUnpack(rs: seq<Record>)
    requires AllPackable(rs)
    ensures Unpack(Serialise(rs)) == Some(rs)
  {
    hide Unpack, Encode, Packable;
    if rs == [] {
      assert Unpack([]) == Some([]) by { UnpackNothing(); }
    } else {
      var front, last := rs[..|rs| - 1], rs[|rs| - 1];
      SerialiseUnpack(front);
      UnpackOne(last);
      UnpackConcat(Serialise(front), Encode(last));
      assert front + [last] == rs;
    }
  }

  lemma UnpackNothing()
    ensures Unpack([]) == Some([])
  {
  }

  // ---- The records handed on ----

  ghost function Pick(rs: seq<Record>, got: seq<nat>): (picked: seq<Record>)
    requires Chosen(rs, got)
    ensures |picked| == |got| && forall i :: 0 <= i < |got| ==> picked[i] == rs[got[i]]
  {
    if got == [] then [] else Pick(rs, got[..|got| - 1]) + [rs[got[|got| - 1]]]
  }

  lemma {:induction false} GatherPicks(rs: seq<Record>, got: seq<nat>)
    requires AllPackable(rs) && Chosen(rs, got)
    ensures AllPackable(Pick(rs, got)) && Gather(rs, got) == Serialise(Pick(rs, got))
  {
    hide Packable, Encode;
    if got != [] {
      GatherPicks(rs, got[..|got| - 1]);
      var picked := Pick(rs, got);
      assert picked[..|picked| - 1] == Pick(rs, got[..|got| - 1]);
      SerialiseSnoc(picked);
    }
  }

  /** The main result on losses, in records: the bytes handed on unpack to some of the records sent, in
      the order sent, each whole and as sent. */
  lemma DamagedFrameUnpacks(rs: seq<Record>, segments: seq<Segment>, data: seq<byte>, criticalPackets: nat,
                            g: StreamGeometry)
    requires Arrival(rs, segments, data, g) && Truthful(rs, segments, criticalPackets, g)
    ensures var r := ParseResult(data, segments, criticalPackets, g);
            var got := Delivered(rs, segments, criticalPackets, g).got;
            && r.error.None? && Chosen(rs, got) && Unpack(SpanBytes(data, r.frame.spans)) == Some(Pick(rs, got))
            && Genuine(PlanOf(rs, segments, criticalPackets, g), got, |rs|)
  {
    hide *;
    DamagedFrame(rs, segments, data, criticalPackets, g);
    var got := Delivered(rs, segments, criticalPackets, g).got;
    GatherPicks(rs, got);
    SerialiseUnpack(Pick(rs, got));
  }
}
