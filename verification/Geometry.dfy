/** The parser's closed arithmetic for how many 32x32 blocks a frame can index. */
module Geometry {
  import opened Words

  const LEVELS := 5
  const BLOCK := 32
  const MIN_IMAGE := 128
  const MAX_EXTENT := 16384
  /** What a 24-bit block index can name. */
  const INDEX_SPACE := 0x100_0000

  datatype StreamGeometry = StreamGeometry(width: int, height: int, chroma444: bool)

  /** The sizes a sequence header can express. */
  predicate Expressible(g: StreamGeometry) {
    1 <= g.width <= MAX_EXTENT && 1 <= g.height <= MAX_EXTENT
  }

  /** Right shift of a non-negative number. */
  function Shr(n: nat, k: nat): nat
    decreases k
  {
    if k == 0 then n else Shr(n, k - 1) / 2
  }

  function CeilDiv(n: nat, d: nat): nat
    requires d > 0
  {
    (n + d - 1) / d
  }

  /** Negative extents round differently in C++, but the minimum hides that. */
  function AlignedExtent(extent: int): nat {
    Max((extent + BLOCK - 1) / BLOCK * BLOCK, MIN_IMAGE)
  }

  /** The least multiple of 32 that is no smaller than the extent and 128. */
  lemma AlignedLeast(extent: int, n: int)
    requires extent >= 1
    ensures AlignedExtent(extent) <= n <==> exists k :: 128 <= 32 * k <= n && extent <= 32 * k
  {
    var aligned := AlignedExtent(extent);
    assert aligned == 32 * (aligned / 32) && 128 <= aligned && extent <= aligned;
  }

  function BlocksPerBand(g: StreamGeometry, level: nat): nat {
    CeilDiv(Shr(AlignedExtent(g.width), level + 1), BLOCK) * CeilDiv(Shr(AlignedExtent(g.height), level + 1), BLOCK)
  }

  function Bands(level: nat): nat {
    if level == LEVELS - 1 then 4 else 3
  }

  function Components(g: StreamGeometry, level: nat): nat {
    if level == 0 && !g.chroma444 then 1 else 3
  }

  function LevelBlocks(g: StreamGeometry, level: nat): nat {
    BlocksPerBand(g, level) * Bands(level) * Components(g, level)
  }

  /** Blocks of the levels below n. */
  function BlocksBelow(g: StreamGeometry, n: nat): nat {
    if n == 0 then 0 else BlocksBelow(g, n - 1) + LevelBlocks(g, n - 1)
  }

  function MaxBlockCount(g: StreamGeometry): nat {
    BlocksBelow(g, LEVELS)
  }

  function CoarseBlockCount(g: StreamGeometry): nat {
    CeilDiv(Shr(AlignedExtent(g.width), LEVELS), BLOCK) * CeilDiv(Shr(AlignedExtent(g.height), LEVELS), BLOCK) * 4 * 3
  }

  method ComputeMaxBlockCount(g: StreamGeometry) returns (blocks: nat)
    ensures blocks == MaxBlockCount(g)
  {
    var alignedWidth := AlignedExtent(g.width);
    var alignedHeight := AlignedExtent(g.height);
    blocks := 0;
    for level := 0 to LEVELS
      invariant blocks == BlocksBelow(g, level)
    {
      var bandWidth := Shr(alignedWidth, level + 1);
      var bandHeight := Shr(alignedHeight, level + 1);
      var perBand := CeilDiv(bandWidth, BLOCK) * CeilDiv(bandHeight, BLOCK);
      var bands := Bands(level);
      var components := Components(g, level);
      assert LevelBlocks(g, level) == perBand * bands * components by {
        assert perBand == BlocksPerBand(g, level);
      }
      blocks := blocks + perBand * bands * components;
    }
  }

  /** Shifting once before or once after is the same. */
  lemma {:induction false} ShrFirst(n: nat, k: nat)
    ensures Shr(n / 2, k) == Shr(n, k + 1)
  {
    if k > 0 {
      ShrFirst(n, k - 1);
    } else {
      assert Shr(n, 1) == Shr(n, 0) / 2;
    }
  }

  lemma {:induction false} ShrMonotone(m: nat, n: nat, k: nat)
    requires m <= n
    ensures Shr(m, k) <= Shr(n, k)
  {
    if k > 0 {
      ShrMonotone(m, n, k - 1);
    }
  }

  /** Blocks across one band, at most: 2^8 at level 0, halving with each level. */
  function WidestBand(level: nat): nat
    requires level < LEVELS
  {
    match level case 0 => 256 case 1 => 128 case 2 => 64 case 3 => 32 case 4 => 16
  }

  lemma BandExtentBound(extent: int, level: nat)
    requires 1 <= extent <= MAX_EXTENT && level < LEVELS
    ensures 1 <= CeilDiv(Shr(AlignedExtent(extent), level + 1), BLOCK) <= WidestBand(level)
  {
    var aligned := AlignedExtent(extent);
    assert MIN_IMAGE <= aligned <= MAX_EXTENT;
    ShrMonotone(aligned, MAX_EXTENT, level + 1);
    ShrMonotone(MIN_IMAGE, aligned, level + 1);
    assert Shr(MAX_EXTENT, 0) == 16384 && Shr(MAX_EXTENT, 1) == 8192 && Shr(MAX_EXTENT, 2) == 4096;
    assert Shr(MAX_EXTENT, 3) == 2048 && Shr(MAX_EXTENT, 4) == 1024 && Shr(MAX_EXTENT, 5) == 512;
    assert Shr(MIN_IMAGE, 0) == 128 && Shr(MIN_IMAGE, 1) == 64 && Shr(MIN_IMAGE, 2) == 32;
    assert Shr(MIN_IMAGE, 3) == 16 && Shr(MIN_IMAGE, 4) == 8 && Shr(MIN_IMAGE, 5) == 4;
  }

  lemma ProductBound(a: nat, b: nat, m: nat)
    requires 1 <= a <= m && 1 <= b <= m
    ensures 1 <= a * b <= m * m
  {
    assert a * b <= m * b <= m * m;
  }

  lemma PerBandBound(g: StreamGeometry, level: nat)
    requires Expressible(g) && level < LEVELS
    ensures 1 <= BlocksPerBand(g, level) <= WidestBand(level) * WidestBand(level)
  {
    BandExtentBound(g.width, level);
    BandExtentBound(g.height, level);
    ProductBound(CeilDiv(Shr(AlignedExtent(g.width), level + 1), BLOCK),
                 CeilDiv(Shr(AlignedExtent(g.height), level + 1), BLOCK), WidestBand(level));
  }

  lemma {:induction false} BlocksBelowUnrolled(g: StreamGeometry)
    ensures MaxBlockCount(g) ==
            LevelBlocks(g, 0) + LevelBlocks(g, 1) + LevelBlocks(g, 2) + LevelBlocks(g, 3) + LevelBlocks(g, 4)
  {
    assert BlocksBelow(g, 1) == BlocksBelow(g, 0) + LevelBlocks(g, 0);
    assert BlocksBelow(g, 2) == BlocksBelow(g, 1) + LevelBlocks(g, 1);
    assert BlocksBelow(g, 3) == BlocksBelow(g, 2) + LevelBlocks(g, 2);
    assert BlocksBelow(g, 4) == BlocksBelow(g, 3) + LevelBlocks(g, 3);
  }

  lemma LevelBound(g: StreamGeometry, level: nat)
    requires Expressible(g) && level < LEVELS
    ensures 1 <= LevelBlocks(g, level) <= WidestBand(level) * WidestBand(level) * Bands(level) * 3
    ensures level == LEVELS - 1 ==> LevelBlocks(g, level) == CoarseBlockCount(g)
  {
    PerBandBound(g, level);
    var perBand, most := BlocksPerBand(g, level), WidestBand(level) * WidestBand(level);
    assert perBand * 3 * 3 <= most * 3 * 3;
    assert perBand * 4 * 3 <= most * 4 * 3;
  }

  /** Every frame has fewer than 2^20 blocks, so a 24-bit index names each of them. */
  lemma BlockCountBound(g: StreamGeometry)
    requires Expressible(g)
    ensures 0 < CoarseBlockCount(g) < MaxBlockCount(g) <= 786432 < INDEX_SPACE
  {
    hide LevelBlocks, CoarseBlockCount;
    BlocksBelowUnrolled(g);
    LevelBound(g, 0);
    LevelBound(g, 1);
    LevelBound(g, 2);
    LevelBound(g, 3);
    LevelBound(g, 4);
  }

  lemma FullExtentBand(level: nat)
    requires level < LEVELS
    ensures CeilDiv(Shr(AlignedExtent(MAX_EXTENT), level + 1), BLOCK) == WidestBand(level)
  {
    assert AlignedExtent(MAX_EXTENT) == MAX_EXTENT;
    assert Shr(MAX_EXTENT, 0) == 16384 && Shr(MAX_EXTENT, 1) == 8192 && Shr(MAX_EXTENT, 2) == 4096;
    assert Shr(MAX_EXTENT, 3) == 2048 && Shr(MAX_EXTENT, 4) == 1024 && Shr(MAX_EXTENT, 5) == 512;
  }

  /** The bound is reached. */
  lemma BlockCountBoundTight()
    ensures MaxBlockCount(StreamGeometry(MAX_EXTENT, MAX_EXTENT, true)) == 786432
  {
    hide BlocksBelow;
    var g := StreamGeometry(MAX_EXTENT, MAX_EXTENT, true);
    BlocksBelowUnrolled(g);
    FullExtentBand(0);
    FullExtentBand(1);
    FullExtentBand(2);
    FullExtentBand(3);
    FullExtentBand(4);
  }
}
