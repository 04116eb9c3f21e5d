/** The data the router works on: grid points, route segments, nets with
    their resolved pins, the global grid extent and a bounding box. */
module Design {
  import opened CoordinateCodec

  type NetId = nat

  /** A grid cell address (row, column, layer index). */
  datatype Point = Point(row: int, col: int, layer: int)

  /** An axis-aligned route segment from point `s` to point `e`, owned by `net`. */
  datatype Segment = Segment(s: Point, e: Point, net: NetId)

  /** A net: its pins, each resolved to its cell's (row, col) and its pin layer,
      and the minimum routing layer it may route on directly. */
  datatype Net = Net(id: NetId, pins: seq<Point>, minRoutingLayer: int)

  /** The global grid: rows and columns are inclusive index ranges,
      `layerSz` is the number of layers. */
  datatype GridExtent = GridExtent(rowBegin: int, rowEnd: int, colBegin: int, colEnd: int, layerSz: int)

  const INT32_MIN: int := -0x8000_0000
  const INT32_MAX: int := 0x7FFF_FFFF

  /** A value the source's 32-bit `int` represents. */
  predicate InInt32(x: int)
  {
    INT32_MIN <= x <= INT32_MAX
  }

  /** The extent is non-empty and leaves room in the source's 32-bit `int` for the
      arithmetic done on it: 5 cells of padding past either end of the row and
      column ranges, a span `end - begin + 1`, and one layer above the top. Its
      cells (layer indices 0 to `layerSz`) number fewer than 2^64, so a codec
      over any box inside it has a `max()` and indices that an `unsigned long
      long` holds. */
  predicate ValidExtent(g: GridExtent)
  {
    && INT32_MIN + 5 <= g.rowBegin <= g.rowEnd <= INT32_MAX - 5 && g.rowEnd - g.rowBegin < INT32_MAX
    && INT32_MIN + 5 <= g.colBegin <= g.colEnd <= INT32_MAX - 5 && g.colEnd - g.colBegin < INT32_MAX
    && 0 <= g.layerSz < INT32_MAX
    && (g.rowEnd - g.rowBegin + 1) * (g.colEnd - g.colBegin + 1) * (g.layerSz + 1) < 0x1_0000_0000_0000_0000
  }

  predicate PointInGrid(g: GridExtent, p: Point)
  {
    g.rowBegin <= p.row <= g.rowEnd && g.colBegin <= p.col <= g.colEnd && 0 <= p.layer <= g.layerSz
  }

  /** Segments are normalised: the start is the minimum and the end the maximum on every axis. */
  predicate Normalized(seg: Segment)
  {
    seg.s.row <= seg.e.row && seg.s.col <= seg.e.col && seg.s.layer <= seg.e.layer
  }

  predicate RouteInGrid(g: GridExtent, route: seq<Segment>)
  {
    forall seg | seg in route :: Normalized(seg) && PointInGrid(g, seg.s) && PointInGrid(g, seg.e)
  }

  predicate NetInGrid(g: GridExtent, net: Net)
  {
    && 0 <= net.minRoutingLayer <= g.layerSz
    && forall p | p in net.pins :: PointInGrid(g, p)
  }

  /** The conversion of a signed value to `unsigned long long`. */
  function ToU64(x: int): (r: nat)
    ensures r < 0x1_0000_0000_0000_0000
    ensures 0 <= x < 0x1_0000_0000_0000_0000 ==> r == x
    ensures x < 0 && -0x1_0000_0000_0000_0000 <= x ==> r == x + 0x1_0000_0000_0000_0000
  {
    x % 0x1_0000_0000_0000_0000
  }

  /** A localized routing region: inclusive row, column and layer ranges. */
  datatype Box = Box(minR: int, maxR: int, minC: int, maxC: int, minL: int, maxL: int) {

    predicate NonEmpty()
    {
      minR <= maxR && minC <= maxC && minL <= maxL
    }

    predicate Contains(p: Point)
    {
      minR <= p.row <= maxR && minC <= p.col <= maxC && minL <= p.layer <= maxL
    }

    /** The codec over the box dimensions. */
    function Codec(): (cd: Codec)
      requires NonEmpty()
      ensures cd.rows == maxR - minR + 1 && cd.cols == maxC - minC + 1 && cd.layers == maxL - minL + 1
    {
      CoordinateCodec.Codec(maxR - minR + 1, maxC - minC + 1, maxL - minL + 1)
    }

    /** Offset of a point from the box origin. */
    function Rel(p: Point): (o: Offset)
      requires Contains(p)
      ensures NonEmpty() && Codec().Contains(o)
      ensures Abs(o) == p
    {
      Offset(p.row - minR, p.col - minC, p.layer - minL)
    }

    /** The point at an offset from the box origin. */
    function Abs(o: Offset): (p: Point)
    {
      Point(o.row + minR, o.col + minC, o.layer + minL)
    }

    /** The vertex index of a point of the box. */
    function Id(p: Point): (v: nat)
      requires Contains(p)
      ensures NonEmpty() && v < Codec().Max()
    {
      Codec().Encode(Rel(p))
    }

    /** The point a vertex index stands for. */
    function PointOf(v: nat): (p: Point)
      requires NonEmpty() && v < Codec().Max()
      ensures Contains(p) && Id(p) == v
    {
      Abs(Codec().Decode(v))
    }
  }

  /** Vertex ids and points are in one-to-one correspondence inside a box. */
  lemma PointOfId(b: Box, p: Point)
    requires b.Contains(p)
    ensures b.PointOf(b.Id(p)) == p
  {
    DecodeEncode(b.Codec(), b.Rel(p));
  }

  lemma IdInjective(b: Box, p: Point, q: Point)
    requires b.Contains(p) && b.Contains(q) && b.Id(p) == b.Id(q)
    ensures p == q
  {
    PointOfId(b, p);
    PointOfId(b, q);
  }
}
