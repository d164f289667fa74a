/** Bytes, little-endian 32-bit words, and the fields packed into them.

    The C++ reads fields with shifts and masks; here they are quotients and
    remainders by powers of two, which is the same thing for unsigned words. */
module Words {

  const WORD := 0x1_0000_0000
  const TOP_BIT := 0x8000_0000

  type byte = x: int | 0 <= x < 256
  type u32 = x: int | 0 <= x < 0x1_0000_0000

  datatype Option<+T> = None | Some(value: T)

  function Min(a: int, b: int): int {
    if a <= b then a else b
  }

  function Max(a: int, b: int): int {
    if a >= b then a else b
  }

  /** The word stored little-endian at p. */
  function ReadU32(data: seq<byte>, p: nat): u32
    requires p + 4 <= |data|
  {
    (data[p] as int) + 0x100 * (data[p + 1] as int) + 0x1_0000 * (data[p + 2] as int)
        + 0x100_0000 * (data[p + 3] as int)
  }

  function PutU32(w: u32): (bytes: seq<byte>)
    ensures |bytes| == 4 && ReadU32(bytes, 0) == w
  {
    [w % 0x100, (w / 0x100) % 0x100, (w / 0x1_0000) % 0x100, w / 0x100_0000]
  }

  /** Writing back what was read. */
  lemma PutBack(data: seq<byte>, p: nat)
    requires p + 4 <= |data|
    ensures PutU32(ReadU32(data, p)) == data[p..p + 4]
  {
    var a, b, c, d := data[p] as int, data[p + 1] as int, data[p + 2] as int, data[p + 3] as int;
    var w: int := ReadU32(data, p);
    assert w / 0x100 == b + 0x100 * c + 0x1_0000 * d;
    assert w / 0x1_0000 == c + 0x100 * d;
    assert w / 0x100_0000 == d;
  }

  /** Reading depends only on the four bytes at p. */
  lemma ReadSame(a: seq<byte>, p: nat, b: seq<byte>, q: nat)
    requires p + 4 <= |a| && q + 4 <= |b|
    requires a[p..p + 4] == b[q..q + 4]
    ensures ReadU32(a, p) == ReadU32(b, q)
  {
    var x, y := a[p..p + 4], b[q..q + 4];
    assert a[p] == x[0] && a[p + 1] == x[1] && a[p + 2] == x[2] && a[p + 3] == x[3];
    assert b[q] == y[0] && b[q + 1] == y[1] && b[q + 2] == y[2] && b[q + 3] == y[3];
  }
}
