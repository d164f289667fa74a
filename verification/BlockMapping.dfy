/** The codec's block numbering: WaveletBuffers walks levels, components and bands,
    gives each band a run of 32x32 block indices and maps every 32x32 block onto the
    8x8 blocks it covers. */
module BlockMapping {
  import opened Words
  import opened Geometry

  const COMPONENTS := 3

  datatype Band = Band(component: nat, level: nat, band: nat)

  datatype BlockInfo = BlockInfo(offset8: int, stride8: int, offset32: int, stride32: int, count32: int)

  datatype Mapping = Mapping(offset8: int, stride8: int, width8: int, height8: int)

  /** What init_block_meta fills in. */
  datatype Tables = Tables(meta: map<Band, BlockInfo>, mappings: seq<Mapping>, count8: int, count32: int)

  /** pyrowave_common.hpp's align, for a power of two: clear the low bits. */
  function Align(value: nat, alignment: nat): nat
    requires alignment > 0
  {
    (value + alignment - 1) - (value + alignment - 1) % alignment
  }

  /** Width (or height) of a band of this level: the mip extent of an image half the aligned extent. */
  function MipExtent(extent: nat, level: nat): nat {
    Max(1, Shr(Max(Align(extent, BLOCK), MIN_IMAGE) / 2, level))
  }

  function Width8(g: StreamGeometry, level: nat): nat
    requires Expressible(g)
  {
    CeilDiv(MipExtent(g.width, level), 8)
  }

  function Height8(g: StreamGeometry, level: nat): nat
    requires Expressible(g)
  {
    CeilDiv(MipExtent(g.height, level), 8)
  }

  /** Mapping of the 32x32 block (x, y) of a band whose 8x8 blocks start at base. */
  function MappingAt(base: int, width8: nat, height8: nat, x: nat, y: nat): Mapping {
    Mapping(base + 4 * y * width8 + 4 * x, width8, Min(4, width8 - 4 * x), Min(4, height8 - 4 * y))
  }

  function MappingRow(base: int, width8: nat, height8: nat, y: nat, x: nat): (row: seq<Mapping>)
    ensures |row| == x
  {
    if x == 0 then [] else MappingRow(base, width8, height8, y, x - 1) + [MappingAt(base, width8, height8, x - 1, y)]
  }

  function MappingRows(base: int, width8: nat, height8: nat, y: nat): seq<Mapping> {
    if y == 0 then []
    else MappingRows(base, width8, height8, y - 1) + MappingRow(base, width8, height8, y - 1, CeilDiv(width8, 4))
  }

  function MappingGrid(base: int, width8: nat, height8: nat): seq<Mapping> {
    MappingRows(base, width8, height8, CeilDiv(height8, 4))
  }

  /** One band added to the tables. */
  function Place(g: StreamGeometry, tables: Tables, band: Band): Tables
    requires Expressible(g)
  {
    var width8, height8 := Width8(g, band.level), Height8(g, band.level);
    var width32, height32 := CeilDiv(MipExtent(g.width, band.level), 32), CeilDiv(MipExtent(g.height, band.level), 32);
    var info := BlockInfo(tables.count8, width8, tables.count32, width32, width32 * height32);
    var grid := MappingGrid(tables.count8, width8, height8);
    Tables(tables.meta[band := info], tables.mappings + grid, tables.count8 + width8 * height8, tables.count32 + |grid|)
  }

  function PlaceAll(g: StreamGeometry, bands: seq<Band>): Tables
    requires Expressible(g)
  {
    if bands == [] then Tables(map[], [], 0, 0)
    else Place(g, PlaceAll(g, bands[..|bands| - 1]), bands[|bands| - 1])
  }

  function FirstBand(level: nat): nat {
    if level == LEVELS - 1 then 0 else 1
  }

  predicate Skipped(g: StreamGeometry, level: nat, component: nat) {
    level == 0 && component != 0 && !g.chroma444
  }

  /** The bands of one component of one level, below band index b. */
  function BandsBelow(level: nat, component: nat, b: nat): seq<Band>
    decreases b
  {
    if b <= FirstBand(level) then [] else BandsBelow(level, component, b - 1) + [Band(component, level, b - 1)]
  }

  function ComponentsBelow(g: StreamGeometry, level: nat, c: nat): seq<Band> {
    if c == 0 then []
    else if Skipped(g, level, c - 1) then ComponentsBelow(g, level, c - 1)
    else ComponentsBelow(g, level, c - 1) + BandsBelow(level, c - 1, 4)
  }

  /** Every band of the levels from LEVELS - 1 down to `level`, in the codec's order. */
  function LevelsFrom(g: StreamGeometry, level: nat): seq<Band>
    requires level <= LEVELS
    decreases LEVELS - level
  {
    if level == LEVELS then [] else LevelsFrom(g, level + 1) + ComponentsBelow(g, level, COMPONENTS)
  }

  function Order(g: StreamGeometry): seq<Band> {
    LevelsFrom(g, 0)
  }

  lemma AppendAssociative<T>(a: seq<T>, b: seq<T>, c: seq<T>)
    ensures a + (b + c) == a + b + c
  {
  }

  class WaveletBuffers {
    const m_geometry: StreamGeometry
    var m_meta: map<Band, BlockInfo>
    var m_mappings: seq<Mapping>
    var m_count8: int
    var m_count32: int

    function State(): Tables
      reads this
    {
      Tables(m_meta, m_mappings, m_count8, m_count32)
    }

    constructor (geometry: StreamGeometry)
      ensures m_geometry == geometry && State() == Tables(map[], [], 0, 0)
    {
      m_geometry := geometry;
      m_meta, m_mappings, m_count8, m_count32 := map[], [], 0, 0;
    }

    method AccumulateBlockMapping(width8: nat, height8: nat)
      modifies this`m_mappings, this`m_count8, this`m_count32
      ensures var grid := MappingGrid(old(m_count8), width8, height8);
              m_mappings == old(m_mappings) + grid && m_count32 == old(m_count32) + |grid|
      ensures m_count8 == old(m_count8) + width8 * height8
    {
      var height32 := (height8 + 3) / 4;
      ghost var before := m_mappings;
      assert m_mappings == before + MappingRows(m_count8, width8, height8, 0);
      for y := 0 to height32
        invariant m_count8 == old(m_count8)
        invariant m_mappings == before + MappingRows(m_count8, width8, height8, y)
        invariant m_count32 == old(m_count32) + |MappingRows(m_count8, width8, height8, y)|
      {
        AccumulateRow(width8, height8, y);
      }
      m_count8 := m_count8 + width8 * height8;
    }

    method AccumulateRow(width8: nat, height8: nat, y: nat)
      modifies this`m_mappings, this`m_count32
      ensures m_mappings == old(m_mappings) + MappingRow(m_count8, width8, height8, y, CeilDiv(width8, 4))
      ensures m_count32 == old(m_count32) + CeilDiv(width8, 4)
    {
      var width32 := (width8 + 3) / 4;
      for x := 0 to width32
        invariant m_mappings == old(m_mappings) + MappingRow(m_count8, width8, height8, y, x)
        invariant m_count32 == old(m_count32) + x
      {
        var mapping := Mapping(m_count8 + 4 * y * width8 + 4 * x, width8,
                               Min(4, width8 - 4 * x), Min(4, height8 - 4 * y));
        m_mappings := m_mappings + [mapping];
        m_count32 := m_count32 + 1;
      }
    }

    /** The nested loops of init_block_meta, one method a loop, place the bands in Order. */
    method InitBlockMeta()
      requires Expressible(m_geometry)
      requires State() == Tables(map[], [], 0, 0)
      modifies this
      ensures State() == PlaceAll(m_geometry, Order(m_geometry))
    {
      var level := LEVELS - 1;
      while level >= 0
        invariant -1 <= level < LEVELS
        invariant State() == PlaceAll(m_geometry, LevelsFrom(m_geometry, level + 1))
      {
        InitLevel(level, LevelsFrom(m_geometry, level + 1));
        level := level - 1;
      }
    }

    method InitLevel(level: nat, ghost coarser: seq<Band>)
      requires Expressible(m_geometry)
      requires State() == PlaceAll(m_geometry, coarser)
      modifies this
      ensures State() == PlaceAll(m_geometry, coarser + ComponentsBelow(m_geometry, level, COMPONENTS))
    {
      assert coarser + ComponentsBelow(m_geometry, level, 0) == coarser;
      for component := 0 to COMPONENTS
        invariant State() == PlaceAll(m_geometry, coarser + ComponentsBelow(m_geometry, level, component))
      {
        ghost var before := ComponentsBelow(m_geometry, level, component);
        if level == 0 && component != 0 && !m_geometry.chroma444 {
          continue;
        }
        ghost var added := BandsBelow(level, component, 4);
        AppendAssociative(coarser, before, added);
        InitComponent(level, component, coarser + before);
      }
    }

    /** The innermost loop: the bands of one component of one level, placed after `before`. */
    method InitComponent(level: nat, component: nat, ghost before: seq<Band>)
      requires Expressible(m_geometry)
      requires State() == PlaceAll(m_geometry, before)
      modifies this
      ensures State() == PlaceAll(m_geometry, before + BandsBelow(level, component, 4))
    {
      hide Place, PlaceAll;
      assert before + BandsBelow(level, component, FirstBand(level)) == before;
      for band := FirstBand(level) to 4
        invariant State() == PlaceAll(m_geometry, before + BandsBelow(level, component, band))
      {
        InitBand(level, component, band);
        PlaceNext(m_geometry, before + BandsBelow(level, component, band), Band(component, level, band));
        assert before + BandsBelow(level, component, band + 1)
            == before + BandsBelow(level, component, band) + [Band(component, level, band)];
      }
    }

    method InitBand(level: nat, component: nat, band: nat)
      requires Expressible(m_geometry)
      modifies this
      ensures State() == Place(m_geometry, old(State()), Band(component, level, band))
    {
      var levelWidth := MipExtent(m_geometry.width, level);
      var levelHeight := MipExtent(m_geometry.height, level);
      var width8 := (levelWidth + 7) / 8;
      var height8 := (levelHeight + 7) / 8;
      var width32 := (levelWidth + 31) / 32;
      var height32 := (levelHeight + 31) / 32;
      m_meta := m_meta[Band(component, level, band) :=
                         BlockInfo(m_count8, width8, m_count32, width32, width32 * height32)];
      AccumulateBlockMapping(width8, height8);
    }
  }

  lemma PlaceNext(g: StreamGeometry, bands: seq<Band>, band: Band)
    requires Expressible(g)
    ensures PlaceAll(g, bands + [band]) == Place(g, PlaceAll(g, bands), band)
  {
    assert (bands + [band])[..|bands + [band]| - 1] == bands;
  }
}
