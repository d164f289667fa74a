/** The codec's tables against the pixels of the bands: which 8x8 block a pixel lies in, which 32x32 block covers
    it, and in which order the bands come. */
module BlockPixels {
  import opened Words
  import opened Geometry
  import opened Arithmetic
  import opened BlockMapping
  import opened BlockNumbering

  /** A pixel of a band. */
  predicate InBand(g: StreamGeometry, band: Band, x: nat, y: nat)
    requires Expressible(g)
  {
    x < MipExtent(g.width, band.level) && y < MipExtent(g.height, band.level)
  }

  /** The 8x8 block of a pixel, numbered row by row from the band's first. */
  function BlockOfPixel(info: BlockInfo, x: nat, y: nat): int {
    info.offset8 + y / 8 * info.stride8 + x / 8
  }

  /** 8x8 blocks of one band: one for every eight columns and rows begun. */
  function BandCells(g: StreamGeometry, band: Band): int
    requires Expressible(g)
  {
    CeilDiv(MipExtent(g.width, band.level), 8) * CeilDiv(MipExtent(g.height, band.level), 8)
  }

  function Cells(g: StreamGeometry, bands: seq<Band>): int
    requires Expressible(g)
  {
    if bands == [] then 0 else Cells(g, bands[..|bands| - 1]) + BandCells(g, bands[|bands| - 1])
  }

  lemma {:induction false} CellsCounted(g: StreamGeometry, bands: seq<Band>)
    requires Expressible(g)
    ensures PlaceAll(g, bands).count8 == Cells(g, bands)
  {
    if bands != [] {
      CellsCounted(g, bands[..|bands| - 1]);
    }
  }

  /** All bands: as many 8x8 blocks as there are begun eights in each, added up. */
  lemma CellCount(g: StreamGeometry)
    requires Expressible(g)
    ensures PlaceAll(g, Order(g)).count8 == Cells(g, Order(g))
  {
    CellsCounted(g, Order(g));
  }

  /** The i-th band's 8x8 blocks follow those of the bands before it, in rows as wide as the band. */
  lemma BandPlace(g: StreamGeometry, i: nat)
    requires Expressible(g) && i < |Order(g)|
    ensures Order(g)[i] in PlaceAll(g, Order(g)).meta
    ensures var band, info := Order(g)[i], PlaceAll(g, Order(g)).meta[Order(g)[i]];
            && info.offset8 == Cells(g, Order(g)[..i])
            && 8 * (info.stride8 - 1) < MipExtent(g.width, band.level) <= 8 * info.stride8
  {
    hide PlaceAll, MipExtent, LevelsFrom, EntryAt;
    LevelsFromMembers(g, 0);
    EntriesRight(g, Order(g), i);
    CellsCounted(g, Order(g)[..i]);
    MipPositive(g.width, Order(g)[i].level);
  }

  lemma MipPositive(extent: nat, level: nat)
    ensures MipExtent(extent, level) >= 1
  {
  }

  /** The pixel's row and column of 8x8 blocks, and the mapping of their cell. */
  lemma CellOfPixel(base: int, width: nat, height: nat, x: nat, y: nat)
    requires x < width && y < height
    ensures var columns, rows := CeilDiv(width, 8), CeilDiv(height, 8);
            Covers(MappingAt(base, columns, rows, x / 32, y / 32), base + y / 8 * columns + x / 8)
  {
    var columns, rows := CeilDiv(width, 8), CeilDiv(height, 8);
    Eights(width, columns);
    Eights(height, rows);
    assert x / 8 < columns && y / 8 < rows && x / 8 / 4 == x / 32 && y / 8 / 4 == y / 32;
    hide CeilDiv, MappingAt, Covers;
    RowMajorBound(y / 8, x / 8, columns, rows);
    DivModUnique(y / 8, x / 8, columns);
    CoversCell(base, columns, rows, base + y / 8 * columns + x / 8);
  }

  /** A pixel's 8x8 block is covered by the mapping of the 32x32 block the pixel lies in, counted row by row from
      the band's first. */
  lemma PixelCovered(g: StreamGeometry, band: Band, x: nat, y: nat)
    requires Expressible(g) && Coded(g, band) && InBand(g, band, x, y)
    ensures band in PlaceAll(g, Order(g)).meta
    ensures var tables := PlaceAll(g, Order(g));
            var info := tables.meta[band];
            var i := info.offset32 + y / 32 * info.stride32 + x / 32;
            0 <= i < |tables.mappings| && Covers(tables.mappings[i], BlockOfPixel(info, x, y))
  {
    hide PlaceAll, MipExtent, LevelsFrom, Covers, MappingAt;
    EveryBandEntry(g, band);
    var tables := PlaceAll(g, Order(g));
    assert EntryAt(g, tables, band, x / 32, y / 32);
    CellOfPixel(tables.meta[band].offset8, MipExtent(g.width, band.level), MipExtent(g.height, band.level), x, y);
  }

  /** The 8x8 blocks of a band are those of its pixels, and no others. */
  lemma BandPixels(g: StreamGeometry, i: nat, t: int)
    requires Expressible(g) && i < |Order(g)|
    ensures Order(g)[i] in PlaceAll(g, Order(g)).meta
    ensures var band, info := Order(g)[i], PlaceAll(g, Order(g)).meta[Order(g)[i]];
            Cells(g, Order(g)[..i]) <= t < Cells(g, Order(g)[..i + 1]) <==>
            exists x: nat, y: nat :: InBand(g, band, x, y) && BlockOfPixel(info, x, y) == t
  {
    hide PlaceAll, MipExtent, LevelsFrom, CeilDiv;
    var band := Order(g)[i];
    BandPlace(g, i);
    var info := PlaceAll(g, Order(g)).meta[band];
    var columns, rows := CeilDiv(MipExtent(g.width, band.level), 8), CeilDiv(MipExtent(g.height, band.level), 8);
    assert Order(g)[..i + 1][..i] == Order(g)[..i];
    MipPositive(g.width, band.level);
    MipPositive(g.height, band.level);
    Eights(MipExtent(g.width, band.level), info.stride8);
    Eights(MipExtent(g.height, band.level), rows);
    forall x: nat, y: nat | InBand(g, band, x, y)
      ensures info.offset8 <= BlockOfPixel(info, x, y) < info.offset8 + columns * rows
    {
      RowMajorBound(y / 8, x / 8, columns, rows);
    }
    if info.offset8 <= t < info.offset8 + columns * rows {
      var x, y := PixelOf(info, columns, rows, t);
      assert InBand(g, band, x, y);
    }
  }

  lemma Eights(extent: nat, n: int)
    requires extent > 0
    ensures 8 * (n - 1) < extent <= 8 * n <==> n == CeilDiv(extent, 8)
  {
  }

  /** The first pixel of an 8x8 block. */
  lemma PixelOf(info: BlockInfo, columns: nat, rows: nat, t: int) returns (x: nat, y: nat)
    requires info.stride8 == columns && info.offset8 <= t < info.offset8 + columns * rows
    ensures x <= 8 * (columns - 1) && y <= 8 * (rows - 1) && BlockOfPixel(info, x, y) == t
  {
    var d := t - info.offset8;
    ColumnsPositive(d, columns, rows);
    DivModSplit(d, columns);
    QuotientBound(d, columns, rows);
    x, y := 8 * (d % columns), 8 * (d / columns);
  }

  // ---- The order of the bands ----

  /** Coarse levels come before fine ones, then luma before chroma, then band by band. */
  predicate Precedes(a: Band, b: Band) {
    || a.level > b.level
    || (a.level == b.level && a.component < b.component)
    || (a.level == b.level && a.component == b.component && a.band < b.band)
  }

  ghost predicate InOrder(bands: seq<Band>) {
    forall i, j :: 0 <= i < j < |bands| ==> Precedes(bands[i], bands[j])
  }

  lemma InOrderAppend(a: seq<Band>, b: seq<Band>)
    requires InOrder(a) && InOrder(b) && forall x, y :: x in a && y in b ==> Precedes(x, y)
    ensures InOrder(a + b)
  {
    hide Precedes;
    forall i, j | 0 <= i < j < |a + b| ensures Precedes((a + b)[i], (a + b)[j]) {
      if i < |a| <= j {
        assert a[i] in a && b[j - |a|] in b;
      }
    }
  }

  lemma {:induction false} BandsInOrder(level: nat, component: nat, b: nat)
    ensures InOrder(BandsBelow(level, component, b))
    decreases b
  {
    if b > FirstBand(level) {
      BandsInOrder(level, component, b - 1);
      BandsBelowMembers(level, component, b - 1);
      InOrderAppend(BandsBelow(level, component, b - 1), [Band(component, level, b - 1)]);
    }
  }

  lemma {:induction false} ComponentsInOrder(g: StreamGeometry, level: nat, c: nat)
    requires level < LEVELS && c <= COMPONENTS
    ensures InOrder(ComponentsBelow(g, level, c))
  {
    hide BandsBelow, InOrder;
    if c == 0 {
      assert InOrder([]) by { NothingInOrder(); }
    } else {
      ComponentsInOrder(g, level, c - 1);
      ComponentsBelowMembers(g, level, c - 1);
      BandsBelowMembers(level, c - 1, 4);
      BandsInOrder(level, c - 1, 4);
      InOrderAppend(ComponentsBelow(g, level, c - 1), BandsBelow(level, c - 1, 4));
    }
  }

  lemma NothingInOrder()
    ensures InOrder([])
  {
  }

  lemma {:induction false} LevelsInOrder(g: StreamGeometry, level: nat)
    requires level <= LEVELS
    ensures InOrder(LevelsFrom(g, level))
    decreases LEVELS - level
  {
    hide ComponentsBelow, InOrder;
    if level == LEVELS {
      NothingInOrder();
    } else {
      LevelsInOrder(g, level + 1);
      LevelsFromMembers(g, level + 1);
      ComponentsInOrder(g, level, COMPONENTS);
      ComponentsBelowMembers(g, level, COMPONENTS);
      InOrderAppend(LevelsFrom(g, level + 1), ComponentsBelow(g, level, COMPONENTS));
    }
  }

  /** The codec numbers exactly the coded bands, each once, in this order. */
  lemma OrderRight(g: StreamGeometry)
    ensures InOrder(Order(g)) && forall band :: band in Order(g) <==> Coded(g, band)
  {
    LevelsInOrder(g, 0);
    LevelsFromMembers(g, 0);
  }
}
