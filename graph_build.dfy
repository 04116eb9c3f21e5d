/** The capacity-pruned routing graph over a bounding box: wire edges along the
    preferred direction of each layer, via edges between consecutive layers,
    and nothing touching a cell without supply. The functions below list the
    edges in the order the builder's sweeps add them. */
module GraphBuild {
  import opened CoordinateCodec
  import opened Design
  import opened WeightedGraph

  /** Everything the graph depends on: the box, the grid supply and the per-layer
      weight factor and preferred direction ('H' or 'V'). */
  datatype Layout = Layout(box: Box, supply: (int, int, int) -> int, factor: seq<int>, dir: seq<char>) {

    predicate Valid()
    {
      box.NonEmpty() && 0 <= box.minL && box.maxL < |factor| && box.maxL < |dir|
    }

    function Supply(p: Point): int
    {
      supply(p.row, p.col, p.layer)
    }

    function Max(): nat
      requires box.NonEmpty()
    {
      box.Codec().Max()
    }
  }

  function East(p: Point): Point { Point(p.row, p.col + 1, p.layer) }
  function South(p: Point): Point { Point(p.row + 1, p.col, p.layer) }
  function Up(p: Point): Point { Point(p.row, p.col, p.layer + 1) }

  /** The two sweeps of the builder: wires over every layer of the box, vias over every
      layer but the top one. */
  datatype Pass = WirePass | ViaPass

  function Top(x: Layout, pass: Pass): int
  {
    if pass == WirePass then x.box.maxL else x.box.maxL - 1
  }

  predicate InSweep(x: Layout, pass: Pass, p: Point)
  {
    x.box.Contains(p) && p.layer <= Top(x, pass)
  }

  function HWire(x: Layout, p: Point): Edge
    requires x.Valid() && x.box.Contains(p) && p.col < x.box.maxC
  {
    Edge(x.box.Id(p), x.box.Id(East(p)), x.factor[p.layer] * 2)
  }

  function VWire(x: Layout, p: Point): Edge
    requires x.Valid() && x.box.Contains(p) && p.row < x.box.maxR
  {
    Edge(x.box.Id(p), x.box.Id(South(p)), x.factor[p.layer] * 2)
  }

  function Via(x: Layout, p: Point): Edge
    requires x.Valid() && x.box.Contains(p) && p.layer < x.box.maxL
  {
    Edge(x.box.Id(p), x.box.Id(Up(p)), x.factor[p.layer] + x.factor[p.layer + 1])
  }

  /** The edges one sweep adds at cell `p`. */
  function CellEdges(x: Layout, pass: Pass, p: Point): seq<Edge>
    requires x.Valid() && InSweep(x, pass, p)
  {
    match pass
    case WirePass =>
      if x.Supply(p) <= 0 then []
      else
        (if p.col != x.box.maxC && x.Supply(East(p)) > 0 && x.dir[p.layer] == 'H' then [HWire(x, p)] else [])
        + (if p.row != x.box.maxR && x.Supply(South(p)) > 0 && x.dir[p.layer] == 'V' then [VWire(x, p)] else [])
    case ViaPass =>
      if x.Supply(p) <= 0 || x.Supply(Up(p)) <= 0 then [] else [Via(x, p)]
  }

  /** The edges one sweep adds at `p`, or nothing outside the sweep. */
  function CellAt(x: Layout, pass: Pass, p: Point): seq<Edge>
  {
    if x.Valid() && InSweep(x, pass, p) then CellEdges(x, pass, p) else []
  }

  /** The concatenation f(lo) + f(lo + 1) + ... + f(hi - 1): one loop of the builder. */
  function Span(f: int -> seq<Edge>, lo: int, hi: int): seq<Edge>
    requires lo <= hi
    decreases hi - lo
  {
    if hi == lo then [] else Span(f, lo, hi - 1) + Piece(f, hi - 1)
  }

  /** Piece `k` of a span. */
  function Piece(f: int -> seq<Edge>, k: int): seq<Edge>
  {
    f(k)
  }

  /** Every edge of f(k) carries k as its key. */
  ghost predicate Keyed(f: int -> seq<Edge>, key: Edge -> int)
  {
    forall k, i | 0 <= i < |Piece(f, k)| :: key(Piece(f, k)[i]) == k
  }

  /** With keyed pieces, an edge is in the span exactly when its own piece is in range and holds it. */
  lemma {:induction false} SpanMembers(f: int -> seq<Edge>, key: Edge -> int, lo: int, hi: int, e: Edge)
    requires lo <= hi && Keyed(f, key)
    ensures e in Span(f, lo, hi) <==> lo <= key(e) < hi && e in Piece(f, key(e))
    decreases hi - lo
  {
    if hi != lo {
      SpanMembers(f, key, lo, hi - 1, e);
    }
  }

  /** Keyed pieces that are each free of duplicates concatenate to a sequence free of duplicates. */
  lemma {:induction false} SpanDistinct(f: int -> seq<Edge>, key: Edge -> int, lo: int, hi: int)
    requires lo <= hi && Keyed(f, key)
    requires forall k | lo <= k < hi :: Distinct(Piece(f, k))
    ensures Distinct(Span(f, lo, hi))
    decreases hi - lo
  {
    if hi != lo {
      SpanDistinct(f, key, lo, hi - 1);
      var done, last := Span(f, lo, hi - 1), Piece(f, hi - 1);
      forall d | d in done ensures d !in last {
        SpanMembers(f, key, lo, hi - 1, d);
      }
      DistinctConcat(done, last);
    }
  }

  /** The cells of row `r` on layer `l`, by column. */
  function RowCells(x: Layout, pass: Pass, l: int, r: int): int -> seq<Edge>
  {
    c => CellAt(x, pass, Point(r, c, l))
  }

  /** The rows of layer `l`, by row index. */
  function LayerRows(x: Layout, pass: Pass, l: int): int -> seq<Edge>
  {
    r => if x.Valid() && x.box.minL <= l <= Top(x, pass) && x.box.minR <= r <= x.box.maxR
         then ColSweep(x, pass, l, r, x.box.maxC + 1) else []
  }

  /** The layers of one sweep, by layer index. */
  function PassLayers(x: Layout, pass: Pass): int -> seq<Edge>
  {
    l => if x.Valid() && x.box.minL <= l <= Top(x, pass) then RowSweep(x, pass, l, x.box.maxR + 1) else []
  }

  /** Cells minC .. cEnd-1 of row `r` on layer `l`. */
  function ColSweep(x: Layout, pass: Pass, l: int, r: int, cEnd: int): seq<Edge>
    requires x.Valid() && x.box.minL <= l <= Top(x, pass) && x.box.minR <= r <= x.box.maxR
    requires x.box.minC <= cEnd <= x.box.maxC + 1
  {
    Span(RowCells(x, pass, l, r), x.box.minC, cEnd)
  }

  /** Rows minR .. rEnd-1 of layer `l`. */
  function RowSweep(x: Layout, pass: Pass, l: int, rEnd: int): seq<Edge>
    requires x.Valid() && x.box.minL <= l <= Top(x, pass) && x.box.minR <= rEnd <= x.box.maxR + 1
  {
    Span(LayerRows(x, pass, l), x.box.minR, rEnd)
  }

  /** Layers minL .. lEnd-1. */
  function LayerSweep(x: Layout, pass: Pass, lEnd: int): seq<Edge>
    requires x.Valid() && x.box.minL <= lEnd <= Top(x, pass) + 1
  {
    Span(PassLayers(x, pass), x.box.minL, lEnd)
  }

  /** All edges of the graph, in the order the builder adds them. */
  function GraphEdges(x: Layout): seq<Edge>
    requires x.Valid()
  {
    LayerSweep(x, WirePass, x.box.maxL + 1) + LayerSweep(x, ViaPass, x.box.maxL)
  }

  // ---------------------------------------------------------------------
  // Where an edge comes from

  /** The cell an edge starts at. */
  function Origin(x: Layout, e: Edge): Point
    requires x.box.NonEmpty() && e.v1 < x.Max()
  {
    x.box.PointOf(e.v1)
  }

  /** The origin's coordinates, or a value outside the box for an edge of no cell. */
  function ColOf(x: Layout, e: Edge): int
  {
    if x.box.NonEmpty() && e.v1 < x.Max() then Origin(x, e).col else x.box.minC - 1
  }

  function RowOf(x: Layout, e: Edge): int
  {
    if x.box.NonEmpty() && e.v1 < x.Max() then Origin(x, e).row else x.box.minR - 1
  }

  function LayerOf(x: Layout, e: Edge): int
  {
    if x.box.NonEmpty() && e.v1 < x.Max() then Origin(x, e).layer else x.box.minL - 1
  }

  /** `e` is one of the edges that sweep `pass` adds at its own origin cell. */
  predicate FromCell(x: Layout, pass: Pass, e: Edge)
  {
    x.Valid() && e.v1 < x.Max() && InSweep(x, pass, Origin(x, e)) && e in CellEdges(x, pass, Origin(x, e))
  }

  lemma CellEdgeOrigin(x: Layout, pass: Pass, p: Point, e: Edge)
    requires x.Valid() && InSweep(x, pass, p) && e in CellEdges(x, pass, p)
    ensures e.v1 == x.box.Id(p) && Origin(x, e) == p && FromCell(x, pass, e)
  {
    PointOfId(x.box, p);
  }

  /** The target of a wire edge is on the origin's layer, that of a via edge one layer up. */
  lemma CellEdgeTarget(x: Layout, pass: Pass, e: Edge)
    requires FromCell(x, pass, e)
    ensures e.v2 < x.Max()
    ensures x.box.PointOf(e.v2).layer == Origin(x, e).layer + (if pass == ViaPass then 1 else 0)
  {
    var p := Origin(x, e);
    match pass
    case WirePass =>
      if p.col < x.box.maxC { PointOfId(x.box, East(p)); }
      if p.row < x.box.maxR { PointOfId(x.box, South(p)); }
    case ViaPass =>
      PointOfId(x.box, Up(p));
  }

  /** A cell adds at most one edge: a layer has one preferred direction. */
  lemma CellEdgesDistinct(x: Layout, pass: Pass, p: Point)
    requires x.Valid() && InSweep(x, pass, p)
    ensures |CellEdges(x, pass, p)| <= 1
    ensures Distinct(CellEdges(x, pass, p))
  {
  }

  // ---------------------------------------------------------------------
  // Membership, loop by loop

  lemma RowCellsKeyed(x: Layout, pass: Pass, l: int, r: int)
    ensures Keyed(RowCells(x, pass, l, r), d => ColOf(x, d))
  {
    forall c, i | 0 <= i < |Piece(RowCells(x, pass, l, r), c)|
      ensures ColOf(x, Piece(RowCells(x, pass, l, r), c)[i]) == c
    {
      CellEdgeOrigin(x, pass, Point(r, c, l), Piece(RowCells(x, pass, l, r), c)[i]);
    }
  }

  lemma {:induction false} ColSweepMembers(x: Layout, pass: Pass, l: int, r: int, cEnd: int, e: Edge)
    requires x.Valid() && x.box.minL <= l <= Top(x, pass) && x.box.minR <= r <= x.box.maxR
    requires x.box.minC <= cEnd <= x.box.maxC + 1
    ensures e in ColSweep(x, pass, l, r, cEnd) <==>
      FromCell(x, pass, e) && Origin(x, e).layer == l && Origin(x, e).row == r && Origin(x, e).col < cEnd
  {
    RowCellsKeyed(x, pass, l, r);
    SpanMembers(RowCells(x, pass, l, r), d => ColOf(x, d), x.box.minC, cEnd, e);
    var p := Point(r, ColOf(x, e), l);
    if e in CellAt(x, pass, p) {
      CellEdgeOrigin(x, pass, p, e);
    }
  }

  lemma LayerRowsKeyed(x: Layout, pass: Pass, l: int)
    ensures Keyed(LayerRows(x, pass, l), d => RowOf(x, d))
  {
    forall r, i | 0 <= i < |Piece(LayerRows(x, pass, l), r)|
      ensures RowOf(x, Piece(LayerRows(x, pass, l), r)[i]) == r
    {
      ColSweepMembers(x, pass, l, r, x.box.maxC + 1, Piece(LayerRows(x, pass, l), r)[i]);
    }
  }

  lemma {:induction false} RowSweepMembers(x: Layout, pass: Pass, l: int, rEnd: int, e: Edge)
    requires x.Valid() && x.box.minL <= l <= Top(x, pass) && x.box.minR <= rEnd <= x.box.maxR + 1
    ensures e in RowSweep(x, pass, l, rEnd) <==>
      FromCell(x, pass, e) && Origin(x, e).layer == l && Origin(x, e).row < rEnd
  {
    LayerRowsKeyed(x, pass, l);
    SpanMembers(LayerRows(x, pass, l), d => RowOf(x, d), x.box.minR, rEnd, e);
    var r := RowOf(x, e);
    if x.box.minR <= r <= x.box.maxR {
      ColSweepMembers(x, pass, l, r, x.box.maxC + 1, e);
    }
  }

  lemma PassLayersKeyed(x: Layout, pass: Pass)
    ensures Keyed(PassLayers(x, pass), d => LayerOf(x, d))
  {
    forall l, i | 0 <= i < |Piece(PassLayers(x, pass), l)|
      ensures LayerOf(x, Piece(PassLayers(x, pass), l)[i]) == l
    {
      RowSweepMembers(x, pass, l, x.box.maxR + 1, Piece(PassLayers(x, pass), l)[i]);
    }
  }

  lemma {:induction false} LayerSweepMembers(x: Layout, pass: Pass, lEnd: int, e: Edge)
    requires x.Valid() && x.box.minL <= lEnd <= Top(x, pass) + 1
    ensures e in LayerSweep(x, pass, lEnd) <==> FromCell(x, pass, e) && Origin(x, e).layer < lEnd
  {
    PassLayersKeyed(x, pass);
    SpanMembers(PassLayers(x, pass), d => LayerOf(x, d), x.box.minL, lEnd, e);
    var l := LayerOf(x, e);
    if x.box.minL <= l <= Top(x, pass) {
      RowSweepMembers(x, pass, l, x.box.maxR + 1, e);
    }
  }

  /** An edge is in the graph exactly when one of the two sweeps adds it at its origin cell. */
  lemma GraphMembers(x: Layout, e: Edge)
    requires x.Valid()
    ensures e in GraphEdges(x) <==> FromCell(x, WirePass, e) || FromCell(x, ViaPass, e)
  {
    LayerSweepMembers(x, WirePass, x.box.maxL + 1, e);
    LayerSweepMembers(x, ViaPass, x.box.maxL, e);
  }

  // ---------------------------------------------------------------------
  // The graph's properties

  /** Every edge joins two cells of the box with positive supply, its ids are valid
      vertices, and it is a wire along the layer's direction with weight 2*factor,
      or a via to the next layer up with the sum of the two layers' factors. */
  lemma GraphEdgeLegal(x: Layout, e: Edge)
    requires x.Valid() && e in GraphEdges(x)
    ensures e.v1 < x.Max() && e.v2 < x.Max()
    ensures var a := x.box.PointOf(e.v1); var b := x.box.PointOf(e.v2);
      && x.Supply(a) > 0 && x.Supply(b) > 0
      && ((b == East(a) && x.dir[a.layer] == 'H' && e.w == 2 * x.factor[a.layer])
       || (b == South(a) && x.dir[a.layer] == 'V' && e.w == 2 * x.factor[a.layer])
       || (b == Up(a) && e.w == x.factor[a.layer] + x.factor[b.layer]))
  {
    GraphMembers(x, e);
    var pass := if FromCell(x, WirePass, e) then WirePass else ViaPass;
    var a := Origin(x, e);
    CellEdgeTarget(x, pass, e);
    match pass
    case WirePass =>
      if a.col < x.box.maxC { PointOfId(x.box, East(a)); }
      if a.row < x.box.maxR { PointOfId(x.box, South(a)); }
    case ViaPass =>
      PointOfId(x.box, Up(a));
  }

  /** Every qualifying pair of neighbouring cells gets its edge. */
  lemma GraphEdgesComplete(x: Layout, p: Point)
    requires x.Valid() && x.box.Contains(p) && x.Supply(p) > 0
    ensures p.col < x.box.maxC && x.Supply(East(p)) > 0 && x.dir[p.layer] == 'H' ==> HWire(x, p) in GraphEdges(x)
    ensures p.row < x.box.maxR && x.Supply(South(p)) > 0 && x.dir[p.layer] == 'V' ==> VWire(x, p) in GraphEdges(x)
    ensures p.layer < x.box.maxL && x.Supply(Up(p)) > 0 ==> Via(x, p) in GraphEdges(x)
  {
    PointOfId(x.box, p);
    if p.col < x.box.maxC && x.Supply(East(p)) > 0 && x.dir[p.layer] == 'H' {
      GraphMembers(x, HWire(x, p));
    }
    if p.row < x.box.maxR && x.Supply(South(p)) > 0 && x.dir[p.layer] == 'V' {
      GraphMembers(x, VWire(x, p));
    }
    if p.layer < x.box.maxL && x.Supply(Up(p)) > 0 {
      GraphMembers(x, Via(x, p));
    }
  }

  lemma ColSweepDistinct(x: Layout, pass: Pass, l: int, r: int)
    requires x.Valid() && x.box.minL <= l <= Top(x, pass) && x.box.minR <= r <= x.box.maxR
    ensures Distinct(ColSweep(x, pass, l, r, x.box.maxC + 1))
  {
    RowCellsKeyed(x, pass, l, r);
    forall c | x.box.minC <= c < x.box.maxC + 1 ensures Distinct(Piece(RowCells(x, pass, l, r), c)) {
      CellEdgesDistinct(x, pass, Point(r, c, l));
    }
    SpanDistinct(RowCells(x, pass, l, r), d => ColOf(x, d), x.box.minC, x.box.maxC + 1);
  }

  lemma RowSweepDistinct(x: Layout, pass: Pass, l: int)
    requires x.Valid() && x.box.minL <= l <= Top(x, pass)
    ensures Distinct(RowSweep(x, pass, l, x.box.maxR + 1))
  {
    LayerRowsKeyed(x, pass, l);
    forall r | x.box.minR <= r < x.box.maxR + 1 ensures Distinct(Piece(LayerRows(x, pass, l), r)) {
      ColSweepDistinct(x, pass, l, r);
    }
    SpanDistinct(LayerRows(x, pass, l), d => RowOf(x, d), x.box.minR, x.box.maxR + 1);
  }

  lemma LayerSweepDistinct(x: Layout, pass: Pass, lEnd: int)
    requires x.Valid() && x.box.minL <= lEnd <= Top(x, pass) + 1
    ensures Distinct(LayerSweep(x, pass, lEnd))
  {
    PassLayersKeyed(x, pass);
    forall l | x.box.minL <= l < lEnd ensures Distinct(Piece(PassLayers(x, pass), l)) {
      RowSweepDistinct(x, pass, l);
    }
    SpanDistinct(PassLayers(x, pass), d => LayerOf(x, d), x.box.minL, lEnd);
  }

  /** No edge is added twice: each qualifying pair of cells gets exactly one edge. */
  lemma GraphEdgesDistinct(x: Layout)
    requires x.Valid()
    ensures Distinct(GraphEdges(x))
  {
    var wires := LayerSweep(x, WirePass, x.box.maxL + 1);
    var vias := LayerSweep(x, ViaPass, x.box.maxL);
    LayerSweepDistinct(x, WirePass, x.box.maxL + 1);
    LayerSweepDistinct(x, ViaPass, x.box.maxL);
    forall e | e in wires ensures e !in vias {
      LayerSweepMembers(x, WirePass, x.box.maxL + 1, e);
      LayerSweepMembers(x, ViaPass, x.box.maxL, e);
      CellEdgeTarget(x, WirePass, e);
      if e in vias {
        CellEdgeTarget(x, ViaPass, e);
      }
    }
    DistinctConcat(wires, vias);
  }
}
