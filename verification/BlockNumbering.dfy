/** What the codec's tables mean: the mappings partition the 8x8 grid, every band's entry
    points at that band's mappings, and the numbering is the one the parser recomputes. */
module BlockNumbering {
  import opened Words
  import opened Geometry
  import opened Arithmetic
  import opened BlockMapping

  /** The 8x8 block in row r, column s of a mapping's rectangle. */
  function Cell(m: Mapping, r: int, s: int): int {
    m.offset8 + r * m.stride8 + s
  }

  predicate InExtent(m: Mapping, r: int, s: int) {
    0 <= r < m.height8 && 0 <= s < m.width8
  }

  ghost predicate Covers(m: Mapping, t: int) {
    exists r, s :: InExtent(m, r, s) && Cell(m, r, s) == t
  }

  ghost predicate ExactlyOneCovers(mappings: seq<Mapping>, t: int) {
    exists i :: 0 <= i < |mappings| && Covers(mappings[i], t)
             && forall j :: 0 <= j < |mappings| && Covers(mappings[j], t) ==> j == i
  }

  lemma CeilOfCeil(n: nat)
    ensures CeilDiv(CeilDiv(n, 8), 4) == CeilDiv(n, 32)
  {
  }

  // ---- The mappings of one band ----

  lemma {:induction false} MappingRowAt(base: int, width8: nat, height8: nat, y: nat, n: nat, x: nat)
    requires x < n
    ensures MappingRow(base, width8, height8, y, n)[x] == MappingAt(base, width8, height8, x, y)
  {
    if x < n - 1 {
      MappingRowAt(base, width8, height8, y, n - 1, x);
    }
  }

  lemma {:induction false} MappingRowsLength(base: int, width8: nat, height8: nat, n: nat)
    ensures |MappingRows(base, width8, height8, n)| == n * CeilDiv(width8, 4)
  {
    if n > 0 {
      MappingRowsLength(base, width8, height8, n - 1);
      assert (n - 1) * CeilDiv(width8, 4) + CeilDiv(width8, 4) == n * CeilDiv(width8, 4);
    }
  }

  /** The grid is in row-major order. */
  lemma {:induction false} MappingRowsAt(base: int, width8: nat, height8: nat, n: nat, x: nat, y: nat)
    requires y < n && x < CeilDiv(width8, 4)
    ensures 0 <= y * CeilDiv(width8, 4) + x < |MappingRows(base, width8, height8, n)|
    ensures MappingRows(base, width8, height8, n)[y * CeilDiv(width8, 4) + x] == MappingAt(base, width8, height8, x, y)
  {
    MappingRowsLength(base, width8, height8, n);
    MappingRowsLength(base, width8, height8, n - 1);
    RowMajorBound(y, x, CeilDiv(width8, 4), n);
    if y < n - 1 {
      MappingRowsAt(base, width8, height8, n - 1, x, y);
    } else {
      MappingRowAt(base, width8, height8, y, CeilDiv(width8, 4), x);
    }
  }

  lemma ColumnsPositive(i: int, columns: nat, rows: nat)
    requires 0 <= i < rows * columns
    ensures columns > 0
  {
  }

  /** Every entry of the grid is the mapping at its quotient and remainder. */
  lemma GridEntry(base: int, width8: nat, height8: nat, i: nat) returns (x: nat, y: nat)
    requires i < |MappingGrid(base, width8, height8)|
    ensures x < CeilDiv(width8, 4) && y < CeilDiv(height8, 4) && i == y * CeilDiv(width8, 4) + x
    ensures MappingGrid(base, width8, height8)[i] == MappingAt(base, width8, height8, x, y)
  {
    var columns, rows := CeilDiv(width8, 4), CeilDiv(height8, 4);
    MappingRowsLength(base, width8, height8, rows);
    ColumnsPositive(i, columns, rows);
    QuotientBound(i, columns, rows);
    DivModSplit(i, columns);
    x, y := i % columns, i / columns;
    MappingRowsAt(base, width8, height8, rows, x, y);
  }

  /** A mapping covers only 8x8 blocks of its own band, and of its own 4x4 cell. */
  lemma CoversWithin(base: int, width8: nat, height8: nat, x: nat, y: nat, t: int)
    requires x < CeilDiv(width8, 4) && y < CeilDiv(height8, 4)
    requires Covers(MappingAt(base, width8, height8, x, y), t)
    ensures base <= t < base + width8 * height8
    ensures (t - base) % width8 / 4 == x && (t - base) / width8 / 4 == y
  {
    var m := MappingAt(base, width8, height8, x, y);
    var r, s :| InExtent(m, r, s) && Cell(m, r, s) == t;
    var row, column := 4 * y + r, 4 * x + s;
    MulSum(4 * y, r, width8);
    assert t - base == row * width8 + column;
    RowMajorBound(row, column, width8, height8);
    DivModUnique(row, column, width8);
  }

  /** And every 8x8 block of the band is covered by the mapping of its cell. */
  lemma CoversCell(base: int, width8: nat, height8: nat, t: int)
    requires base <= t < base + width8 * height8
    ensures width8 > 0
    ensures var x, y := (t - base) % width8 / 4, (t - base) / width8 / 4;
            x < CeilDiv(width8, 4) && 0 <= y < CeilDiv(height8, 4) && Covers(MappingAt(base, width8, height8, x, y), t)
  {
    ColumnsPositive(t - base, width8, height8);
    var d := t - base;
    var row, column := d / width8, d % width8;
    DivModSplit(d, width8);
    QuotientBound(d, width8, height8);
    var x, y := column / 4, row / 4;
    var m := MappingAt(base, width8, height8, x, y);
    MulSum(4 * y, row % 4, width8);
    assert InExtent(m, row % 4, column % 4) && Cell(m, row % 4, column % 4) == t;
  }

  lemma GridPartition(base: int, width8: nat, height8: nat, t: int)
    requires base <= t < base + width8 * height8
    ensures ExactlyOneCovers(MappingGrid(base, width8, height8), t)
  {
    var grid := MappingGrid(base, width8, height8);
    CoversCell(base, width8, height8, t);
    var x, y := (t - base) % width8 / 4, (t - base) / width8 / 4;
    MappingRowsAt(base, width8, height8, CeilDiv(height8, 4), x, y);
    var i := y * CeilDiv(width8, 4) + x;
    assert Covers(grid[i], t);
    forall j | 0 <= j < |grid| && Covers(grid[j], t) ensures j == i {
      var x', y' := GridEntry(base, width8, height8, j);
      CoversWithin(base, width8, height8, x', y', t);
    }
  }

  lemma GridWithin(base: int, width8: nat, height8: nat, i: nat, t: int)
    requires i < |MappingGrid(base, width8, height8)| && Covers(MappingGrid(base, width8, height8)[i], t)
    ensures base <= t < base + width8 * height8
  {
    var x, y := GridEntry(base, width8, height8, i);
    CoversWithin(base, width8, height8, x, y, t);
  }

  // ---- All bands ----

  lemma CountsGrow(g: StreamGeometry, bands: seq<Band>)
    requires Expressible(g) && bands != []
    ensures var before, after := PlaceAll(g, bands[..|bands| - 1]), PlaceAll(g, bands);
            before.count8 <= after.count8 && before.count32 <= after.count32
  {
    var band := bands[|bands| - 1];
    ProductNonNegative(Width8(g, band.level), Height8(g, band.level));
  }

  lemma {:induction false} CountsNonNegative(g: StreamGeometry, bands: seq<Band>)
    requires Expressible(g)
    ensures PlaceAll(g, bands).count8 >= 0 && PlaceAll(g, bands).count32 == |PlaceAll(g, bands).mappings|
  {
    if bands != [] {
      CountsNonNegative(g, bands[..|bands| - 1]);
      CountsGrow(g, bands);
    }
  }

  lemma {:induction false} CoveredInRange(g: StreamGeometry, bands: seq<Band>, i: nat, t: int)
    requires Expressible(g) && i < |PlaceAll(g, bands).mappings| && Covers(PlaceAll(g, bands).mappings[i], t)
    ensures 0 <= t < PlaceAll(g, bands).count8
    decreases |bands|
  {
    hide Covers, MappingGrid, Width8, Height8;
    var before, band := bands[..|bands| - 1], bands[|bands| - 1];
    CountsNonNegative(g, before);
    CountsGrow(g, bands);
    var earlier := PlaceAll(g, before);
    var n := |earlier.mappings|;
    if i < n {
      CoveredInRange(g, before, i, t);
    } else {
      GridWithin(earlier.count8, Width8(g, band.level), Height8(g, band.level), i - n, t);
    }
  }

  /** The 32x32-to-8x8 mappings partition the 8x8 blocks: each index below the count is in
      exactly one rectangle (CoveredInRange: and no rectangle reaches beyond). */
  lemma {:induction false} MappingsPartition(g: StreamGeometry, bands: seq<Band>, t: int)
    requires Expressible(g) && 0 <= t < PlaceAll(g, bands).count8
    ensures ExactlyOneCovers(PlaceAll(g, bands).mappings, t)
    decreases |bands|
  {
    hide Covers, MappingGrid, Width8, Height8, CeilDiv;
    var before, band := bands[..|bands| - 1], bands[|bands| - 1];
    var old8, width8, height8 := PlaceAll(g, before).count8, Width8(g, band.level), Height8(g, band.level);
    var first, grid := PlaceAll(g, before).mappings, MappingGrid(old8, width8, height8);
    var all := PlaceAll(g, bands).mappings;
    assert all == first + grid;
    if t < old8 {
      MappingsPartition(g, before, t);
      var i :| 0 <= i < |first| && Covers(first[i], t)
            && forall j :: 0 <= j < |first| && Covers(first[j], t) ==> j == i;
      assert Covers(all[i], t);
      forall j | 0 <= j < |all| && Covers(all[j], t) ensures j == i {
        if j >= |first| {
          GridWithin(old8, width8, height8, j - |first|, t);
        } else {
          assert all[j] == first[j];
        }
      }
    } else {
      GridPartition(old8, width8, height8, t);
      var i :| 0 <= i < |grid| && Covers(grid[i], t)
            && forall j :: 0 <= j < |grid| && Covers(grid[j], t) ==> j == i;
      assert Covers(all[|first| + i], t);
      forall j | 0 <= j < |all| && Covers(all[j], t) ensures j == |first| + i {
        if j < |first| {
          assert all[j] == first[j];
          CoveredInRange(g, before, j, t);
        } else {
          assert all[j] == grid[j - |first|];
        }
      }
    }
  }

  /** The run of block indices of a band, and the mapping each of its entries points at. */
  ghost predicate EntryRight(g: StreamGeometry, tables: Tables, band: Band)
    requires Expressible(g)
  {
    && band in tables.meta
    && var info := tables.meta[band];
    && info.stride8 == Width8(g, band.level)
    && info.stride32 == CeilDiv(MipExtent(g.width, band.level), 32)
    && info.count32 == info.stride32 * CeilDiv(MipExtent(g.height, band.level), 32)
    && 0 <= info.offset32 && info.offset32 + info.count32 <= |tables.mappings|
    && forall x, y :: 0 <= x < info.stride32 && 0 <= y < CeilDiv(MipExtent(g.height, band.level), 32)
         ==> EntryAt(g, tables, band, x, y)
  }

  ghost predicate EntryAt(g: StreamGeometry, tables: Tables, band: Band, x: nat, y: nat)
    requires Expressible(g) && band in tables.meta
  {
    var info := tables.meta[band];
    var i := info.offset32 + y * info.stride32 + x;
    0 <= i < |tables.mappings|
    && tables.mappings[i] == MappingAt(info.offset8, Width8(g, band.level), Height8(g, band.level), x, y)
  }

  /** The mappings of a band's new entry are its grid, in row-major order. */
  lemma PlacedEntry(g: StreamGeometry, tables: Tables, band: Band, x: nat, y: nat)
    requires Expressible(g) && tables.count32 == |tables.mappings|
    requires x < CeilDiv(MipExtent(g.width, band.level), 32) && y < CeilDiv(MipExtent(g.height, band.level), 32)
    ensures EntryAt(g, Place(g, tables, band), band, x, y)
  {
    var columns, rows := CeilDiv(MipExtent(g.width, band.level), 32), CeilDiv(MipExtent(g.height, band.level), 32);
    CeilOfCeil(MipExtent(g.width, band.level));
    CeilOfCeil(MipExtent(g.height, band.level));
    MappingRowsAt(tables.count8, Width8(g, band.level), Height8(g, band.level), rows, x, y);
    var grid, i := MappingGrid(tables.count8, Width8(g, band.level), Height8(g, band.level)), y * columns + x;
    assert (tables.mappings + grid)[|tables.mappings| + i] == grid[i];
  }

  lemma GridSize(g: StreamGeometry, base: int, level: nat)
    requires Expressible(g)
    ensures |MappingGrid(base, Width8(g, level), Height8(g, level))|
         == CeilDiv(MipExtent(g.width, level), 32) * CeilDiv(MipExtent(g.height, level), 32)
  {
    CeilOfCeil(MipExtent(g.width, level));
    CeilOfCeil(MipExtent(g.height, level));
    MappingRowsLength(base, Width8(g, level), Height8(g, level), CeilDiv(MipExtent(g.height, level), 32));
  }

  /** Placing a band gives it a right entry. */
  lemma PlacedRight(g: StreamGeometry, tables: Tables, band: Band)
    requires Expressible(g) && tables.count32 == |tables.mappings|
    ensures EntryRight(g, Place(g, tables, band), band)
  {
    GridSize(g, tables.count8, band.level);
    forall x, y | 0 <= x < CeilDiv(MipExtent(g.width, band.level), 32)
        && 0 <= y < CeilDiv(MipExtent(g.height, band.level), 32)
      ensures EntryAt(g, Place(g, tables, band), band, x, y)
    {
      PlacedEntry(g, tables, band, x, y);
    }
  }

  /** And it leaves the entries of the other bands as they were. */
  lemma PlacedElsewhere(g: StreamGeometry, tables: Tables, band: Band, other: Band)
    requires Expressible(g) && other != band && EntryRight(g, tables, other)
    ensures EntryRight(g, Place(g, tables, band), other)
    ensures Place(g, tables, band).meta[other] == tables.meta[other]
  {
    var after := Place(g, tables, band);
    var info := tables.meta[other];
    forall x, y | 0 <= x < info.stride32 && 0 <= y < CeilDiv(MipExtent(g.height, other.level), 32)
      ensures EntryAt(g, after, other, x, y)
    {
      assert EntryAt(g, tables, other, x, y);
    }
  }

  ghost predicate Distinct(bands: seq<Band>) {
    forall i, j :: 0 <= i < j < |bands| ==> bands[i] != bands[j]
  }

  lemma {:induction false} EntriesRight(g: StreamGeometry, bands: seq<Band>, i: nat)
    requires Expressible(g) && Distinct(bands) && i < |bands|
    ensures EntryRight(g, PlaceAll(g, bands), bands[i])
    ensures PlaceAll(g, bands).meta[bands[i]].offset32 == PlaceAll(g, bands[..i]).count32
    ensures PlaceAll(g, bands).meta[bands[i]].offset8 == PlaceAll(g, bands[..i]).count8
    decreases |bands|
  {
    var before, band := bands[..|bands| - 1], bands[|bands| - 1];
    CountsNonNegative(g, before);
    if i == |bands| - 1 {
      PlacedRight(g, PlaceAll(g, before), band);
    } else {
      assert before[..i] == bands[..i];
      EntriesRight(g, before, i);
      assert before[i] == bands[i] && bands[i] != band;
      PlacedElsewhere(g, PlaceAll(g, before), band, bands[i]);
    }
  }

  // ---- The codec's order ----

  /** The bands the format has: the coarsest level alone keeps its band 0, and 4:2:0
      chroma has no level 0. */
  predicate Coded(g: StreamGeometry, band: Band) {
    && band.level < LEVELS && band.component < COMPONENTS && !Skipped(g, band.level, band.component)
    && FirstBand(band.level) <= band.band < 4
  }

  lemma {:induction false} BandsBelowMembers(level: nat, component: nat, b: nat)
    ensures forall x :: x in BandsBelow(level, component, b)
                   <==> x.level == level && x.component == component && FirstBand(level) <= x.band < b
    ensures Distinct(BandsBelow(level, component, b))
    decreases b
  {
    if b > FirstBand(level) {
      BandsBelowMembers(level, component, b - 1);
    }
  }

  lemma {:induction false} ComponentsBelowMembers(g: StreamGeometry, level: nat, c: nat)
    requires level < LEVELS && c <= COMPONENTS
    ensures forall x :: x in ComponentsBelow(g, level, c) <==> Coded(g, x) && x.level == level && x.component < c
    ensures Distinct(ComponentsBelow(g, level, c))
  {
    hide BandsBelow;
    if c > 0 {
      ComponentsBelowMembers(g, level, c - 1);
      BandsBelowMembers(level, c - 1, 4);
      if !Skipped(g, level, c - 1) {
        DistinctAppend(ComponentsBelow(g, level, c - 1), BandsBelow(level, c - 1, 4));
      }
    }
  }

  lemma DistinctAppend(a: seq<Band>, b: seq<Band>)
    requires Distinct(a) && Distinct(b) && forall x :: x in a ==> x !in b
    ensures Distinct(a + b)
  {
    forall i, j | 0 <= i < j < |a + b| ensures (a + b)[i] != (a + b)[j] {
      if i < |a| <= j {
        assert a[i] in a && b[j - |a|] in b;
      }
    }
  }

  lemma {:induction false} LevelsFromMembers(g: StreamGeometry, level: nat)
    requires level <= LEVELS
    ensures forall x :: x in LevelsFrom(g, level) <==> Coded(g, x) && level <= x.level
    ensures Distinct(LevelsFrom(g, level))
    decreases LEVELS - level
  {
    hide ComponentsBelow, Distinct;
    if level < LEVELS {
      LevelsFromMembers(g, level + 1);
      ComponentsBelowMembers(g, level, COMPONENTS);
      DistinctAppend(LevelsFrom(g, level + 1), ComponentsBelow(g, level, COMPONENTS));
    } else {
      NoneCoded(g, level);
    }
  }

  lemma NoneCoded(g: StreamGeometry, level: nat)
    requires level == LEVELS
    ensures LevelsFrom(g, level) == [] && Distinct(LevelsFrom(g, level))
    ensures forall x :: Coded(g, x) ==> x.level < level
  {
  }

  /** Every coded band has its entry, and it points at that band's mappings. */
  lemma EveryBandEntry(g: StreamGeometry, band: Band)
    requires Expressible(g) && Coded(g, band)
    ensures EntryRight(g, PlaceAll(g, Order(g)), band)
  {
    hide EntryRight, PlaceAll, LevelsFrom;
    LevelsFromMembers(g, 0);
    var i :| 0 <= i < |Order(g)| && Order(g)[i] == band;
    EntriesRight(g, Order(g), i);
  }

  lemma MipIsShiftedExtent(extent: int, level: nat)
    requires 1 <= extent <= MAX_EXTENT && level < LEVELS
    ensures MipExtent(extent, level) == Shr(AlignedExtent(extent), level + 1)
  {
    assert Max(Align(extent, BLOCK), MIN_IMAGE) == AlignedExtent(extent);
    ShrFirst(AlignedExtent(extent), level);
    BandExtentBound(extent, level);
  }

  /** A band has exactly the parser's count of blocks per band. */
  lemma BandBlocks(g: StreamGeometry, level: nat)
    requires Expressible(g) && level < LEVELS
    ensures CeilDiv(MipExtent(g.width, level), 32) * CeilDiv(MipExtent(g.height, level), 32) == BlocksPerBand(g, level)
  {
    MipIsShiftedExtent(g.width, level);
    MipIsShiftedExtent(g.height, level);
  }

  lemma BandAdds(g: StreamGeometry, tables: Tables, band: Band)
    requires Expressible(g) && band.level < LEVELS
    ensures Place(g, tables, band).count32 == tables.count32 + BlocksPerBand(g, band.level)
  {
    GridSize(g, tables.count8, band.level);
    BandBlocks(g, band.level);
  }

  /** Blocks of a list of bands, each counted as the parser counts it. */
  function Blocks(g: StreamGeometry, bands: seq<Band>): nat {
    if bands == [] then 0 else Blocks(g, bands[..|bands| - 1]) + BlocksPerBand(g, bands[|bands| - 1].level)
  }

  lemma {:induction false} PlacedBlocks(g: StreamGeometry, bands: seq<Band>)
    requires Expressible(g) && forall k :: 0 <= k < |bands| ==> bands[k].level < LEVELS
    ensures PlaceAll(g, bands).count32 == Blocks(g, bands)
    decreases |bands|
  {
    if bands != [] {
      var before := bands[..|bands| - 1];
      PlacedBlocks(g, before);
      BandAdds(g, PlaceAll(g, before), bands[|bands| - 1]);
    }
  }

  lemma NoBlocks(g: StreamGeometry)
    ensures Blocks(g, []) == 0
  {
  }

  lemma {:induction false} BlocksAppend(g: StreamGeometry, a: seq<Band>, b: seq<Band>)
    ensures Blocks(g, a + b) == Blocks(g, a) + Blocks(g, b)
    decreases |b|
  {
    if b == [] {
      assert a + b == a;
    } else {
      assert (a + b)[..|a + b| - 1] == a + b[..|b| - 1];
      BlocksAppend(g, a, b[..|b| - 1]);
    }
  }

  lemma {:induction false} BandsBelowBlocks(g: StreamGeometry, level: nat, component: nat, n: nat)
    ensures Blocks(g, BandsBelow(level, component, FirstBand(level) + n)) == BlocksPerBand(g, level) * n
  {
    if n > 0 {
      BandsBelowBlocks(g, level, component, n - 1);
      BlocksAppend(g, BandsBelow(level, component, FirstBand(level) + n - 1),
                   [Band(component, level, FirstBand(level) + n - 1)]);
      MulNext(BlocksPerBand(g, level), n - 1);
    }
  }

  function ComponentCount(g: StreamGeometry, level: nat, c: nat): nat {
    if c == 0 then 0 else ComponentCount(g, level, c - 1) + if Skipped(g, level, c - 1) then 0 else 1
  }

  lemma {:induction false} ComponentsBelowBlocks(g: StreamGeometry, level: nat, c: nat, perComponent: nat)
    requires perComponent == BlocksPerBand(g, level) * Bands(level)
    ensures Blocks(g, ComponentsBelow(g, level, c)) == perComponent * ComponentCount(g, level, c)
  {
    hide BlocksPerBand, BandsBelow, Blocks;
    if c > 0 {
      ComponentsBelowBlocks(g, level, c - 1, perComponent);
      if !Skipped(g, level, c - 1) {
        var coarser, added := ComponentsBelow(g, level, c - 1), BandsBelow(level, c - 1, 4);
        assert Blocks(g, added) == perComponent by {
          BandsBelowBlocks(g, level, c - 1, Bands(level));
        }
        BlocksAppend(g, coarser, added);
        MulNext(perComponent, ComponentCount(g, level, c - 1));
      }
    } else {
      NoBlocks(g);
    }
  }

  lemma LevelAdds(g: StreamGeometry, level: nat)
    requires level < LEVELS
    ensures Blocks(g, LevelsFrom(g, level)) == Blocks(g, LevelsFrom(g, level + 1)) + LevelBlocks(g, level)
  {
    hide BlocksPerBand, BandsBelow, Blocks;
    ComponentsBelowBlocks(g, level, COMPONENTS, BlocksPerBand(g, level) * Bands(level));
    BlocksAppend(g, LevelsFrom(g, level + 1), ComponentsBelow(g, level, COMPONENTS));
    assert ComponentCount(g, level, 0) == 0;
    assert ComponentCount(g, level, 1) == 1;
    assert ComponentCount(g, level, COMPONENTS) == Components(g, level);
  }

  lemma {:induction false} LevelsCount(g: StreamGeometry, level: nat, all: nat)
    requires level <= all == LEVELS
    ensures Blocks(g, LevelsFrom(g, level)) + BlocksBelow(g, level) == BlocksBelow(g, all)
    decreases all - level
  {
    hide Blocks, LevelBlocks;
    if level < all {
      LevelsCount(g, level + 1, all);
      LevelAdds(g, level);
    } else {
      NoBlocks(g);
    }
  }

  lemma NoBlocksBelow(g: StreamGeometry)
    ensures BlocksBelow(g, 0) == 0
  {
  }

  /** The parser's maxBlockCount is the number of blocks the codec numbers. */
  lemma NumberingAgrees(g: StreamGeometry)
    requires Expressible(g)
    ensures PlaceAll(g, Order(g)).count32 == |PlaceAll(g, Order(g)).mappings| == MaxBlockCount(g)
  {
    hide PlaceAll, Blocks, LevelBlocks, BlocksBelow, ComponentsBelow;
    LevelsFromMembers(g, 0);
    PlacedBlocks(g, Order(g));
    NoBlocksBelow(g);
    LevelsCount(g, 0, LEVELS);
    CountsNonNegative(g, Order(g));
  }

  /** The bands of the levels from `top` up come first. */
  lemma {:induction false} OrderSplits(g: StreamGeometry, top: nat, level: nat) returns (finer: seq<Band>)
    requires level <= top <= LEVELS
    ensures LevelsFrom(g, level) == LevelsFrom(g, top) + finer
    ensures forall x :: x in finer ==> x.level < top
    decreases top - level
  {
    hide ComponentsBelow;
    finer := [];
    if level < top {
      var rest := OrderSplits(g, top, level + 1);
      finer := rest + ComponentsBelow(g, level, COMPONENTS);
      AppendAssociative(LevelsFrom(g, top), rest, ComponentsBelow(g, level, COMPONENTS));
      ComponentsBelowMembers(g, level, COMPONENTS);
    }
  }

  lemma {:induction false} CountsMonotone(g: StreamGeometry, bands: seq<Band>, i: nat, j: nat)
    requires Expressible(g) && i <= j <= |bands|
    ensures PlaceAll(g, bands[..i]).count32 <= PlaceAll(g, bands[..j]).count32
    decreases j - i
  {
    hide PlaceAll;
    if i < j {
      CountsMonotone(g, bands, i, j - 1);
      assert bands[..j][..j - 1] == bands[..j - 1];
      CountsGrow(g, bands[..j]);
    }
  }

  ghost predicate Owns(info: BlockInfo, index: int) {
    info.offset32 <= index < info.offset32 + info.count32
  }

  /** Where the run of the i-th placed band lies. */
  lemma RunOf(g: StreamGeometry, bands: seq<Band>, i: nat)
    requires Expressible(g) && Distinct(bands) && i < |bands|
    requires forall k :: 0 <= k < |bands| ==> bands[k].level < LEVELS
    ensures bands[i] in PlaceAll(g, bands).meta
    ensures var info := PlaceAll(g, bands).meta[bands[i]];
            info.offset32 == PlaceAll(g, bands[..i]).count32
            && info.offset32 + info.count32 == PlaceAll(g, bands[..i + 1]).count32
  {
    hide PlaceAll, BlocksPerBand, EntryAt, Place, Width8, MipExtent;
    EntriesRight(g, bands, i);
    assert bands[..i + 1] == bands[..i] + [bands[i]];
    PlaceNext(g, bands[..i], bands[i]);
    BandAdds(g, PlaceAll(g, bands[..i]), bands[i]);
    BandBlocks(g, bands[i].level);
  }

  lemma {:induction false} OwnerAmong(g: StreamGeometry, bands: seq<Band>, index: nat, n: nat) returns (i: nat)
    requires Expressible(g) && Distinct(bands) && n <= |bands|
    requires forall k :: 0 <= k < |bands| ==> bands[k].level < LEVELS
    requires index < PlaceAll(g, bands[..n]).count32
    ensures i < n && bands[i] in PlaceAll(g, bands).meta && Owns(PlaceAll(g, bands).meta[bands[i]], index)
    decreases n
  {
    hide Distinct, Place;
    RunOf(g, bands, n - 1);
    if index >= PlaceAll(g, bands[..n - 1]).count32 {
      i := n - 1;
    } else {
      i := OwnerAmong(g, bands, index, n - 1);
    }
  }

  lemma CoarseRunEnd(g: StreamGeometry, top: nat)
    requires Expressible(g) && top == LEVELS - 1
    ensures PlaceAll(g, LevelsFrom(g, top)).count32 == CoarseBlockCount(g)
  {
    hide PlaceAll;
    LevelsFromMembers(g, top);
    PlacedBlocks(g, LevelsFrom(g, top));
    LevelAdds(g, top);
    LevelBound(g, top);
    assert LevelsFrom(g, top + 1) == [];
  }

  lemma CoarseOwner(g: StreamGeometry, bands: seq<Band>, top: nat, index: nat, i: nat)
    requires Expressible(g) && top == LEVELS - 1 && bands == Order(g)
    requires i < |bands| && bands[i] in PlaceAll(g, bands).meta
    requires Owns(PlaceAll(g, bands).meta[bands[i]], index)
    ensures bands[i].level == top <==> index < CoarseBlockCount(g)
  {
    hide PlaceAll, CoarseBlockCount, Distinct, LevelsFrom;
    var coarse := LevelsFrom(g, top);
    LevelsFromMembers(g, 0);
    LevelsFromMembers(g, top);
    var finer := OrderSplits(g, top, 0);
    CoarseRunEnd(g, top);
    assert bands[..|coarse|] == coarse;
    RunOf(g, bands, i);
    if i < |coarse| {
      assert bands[i] in coarse;
      CountsMonotone(g, bands, i + 1, |coarse|);
    } else {
      assert bands[i] == finer[i - |coarse|];
      CountsMonotone(g, bands, |coarse|, i);
    }
  }

  /** Every block index belongs to a band, and the indices below coarseBlockCount are exactly
      those of the coarsest level. */
  lemma CoarseIndices(g: StreamGeometry, index: nat)
    requires Expressible(g) && index < MaxBlockCount(g)
    ensures exists i :: 0 <= i < |Order(g)| && Order(g)[i] in PlaceAll(g, Order(g)).meta
                     && Owns(PlaceAll(g, Order(g)).meta[Order(g)[i]], index)
    ensures forall i :: 0 <= i < |Order(g)| && Order(g)[i] in PlaceAll(g, Order(g)).meta
                     && Owns(PlaceAll(g, Order(g)).meta[Order(g)[i]], index)
                  ==> (Order(g)[i].level == LEVELS - 1 <==> index < CoarseBlockCount(g))
  {
    hide PlaceAll, CoarseBlockCount, MaxBlockCount, Distinct, Owns, LevelsFrom;
    var bands := Order(g);
    LevelsFromMembers(g, 0);
    NumberingAgrees(g);
    assert bands[..|bands|] == bands;
    var owner := OwnerAmong(g, bands, index, |bands|);
    var top := LEVELS - 1;
    forall i | 0 <= i < |bands| && bands[i] in PlaceAll(g, bands).meta && Owns(PlaceAll(g, bands).meta[bands[i]], index)
      ensures bands[i].level == top <==> index < CoarseBlockCount(g)
    {
      CoarseOwner(g, bands, top, index, i);
    }
  }
}
