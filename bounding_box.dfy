/** The bounding box of one routing attempt: the extremes of the net's pins and
    of its prior route, padded by 5 rows/columns and 1 layer, clamped to the
    grid and to the net's minimum routing layer. */
module BoundingBox {
  import opened Design

  const ROW_COL_PADDING: int := 5
  const LAYER_PADDING: int := 1

  function Min(a: int, b: int): int { if a < b then a else b }
  function Max(a: int, b: int): int { if a < b then b else a }

  /** The fold's starting point: every minimum at the far extreme, every maximum at the near one. */
  function Initial(g: GridExtent, minRoutingLayer: int): Box
  {
    Box(g.rowEnd, g.rowBegin, g.colEnd, g.colBegin, g.layerSz, minRoutingLayer)
  }

  /** Widen the running extremes by one pin. */
  function AddPin(b: Box, p: Point): Box
  {
    Box(Min(b.minR, p.row), Max(b.maxR, p.row), Min(b.minC, p.col), Max(b.maxC, p.col),
        Min(b.minL, p.layer), Max(b.maxL, p.layer))
  }

  /** Widen the running extremes by one segment: minima from its start, maxima from its end. */
  function AddSegment(b: Box, seg: Segment): Box
  {
    Box(Min(b.minR, seg.s.row), Max(b.maxR, seg.e.row), Min(b.minC, seg.s.col), Max(b.maxC, seg.e.col),
        Min(b.minL, seg.s.layer), Max(b.maxL, seg.e.layer))
  }

  function FoldPins(b: Box, pins: seq<Point>): Box
    decreases |pins|
  {
    if pins == [] then b else AddPin(FoldPins(b, pins[..|pins| - 1]), pins[|pins| - 1])
  }

  function FoldRoute(b: Box, route: seq<Segment>): Box
    decreases |route|
  {
    if route == [] then b else AddSegment(FoldRoute(b, route[..|route| - 1]), route[|route| - 1])
  }

  /** Padding followed by clamping; the result never leaves the grid nor goes below the floor. */
  function PadAndClamp(g: GridExtent, minRoutingLayer: int, b: Box): (r: Box)
    ensures g.rowBegin <= r.minR && r.maxR <= g.rowEnd
    ensures g.colBegin <= r.minC && r.maxC <= g.colEnd
    ensures minRoutingLayer <= r.minL && r.maxL <= g.layerSz
  {
    Box(Max(b.minR - ROW_COL_PADDING, g.rowBegin), Min(b.maxR + ROW_COL_PADDING, g.rowEnd),
        Max(b.minC - ROW_COL_PADDING, g.colBegin), Min(b.maxC + ROW_COL_PADDING, g.colEnd),
        Max(b.minL - LAYER_PADDING, minRoutingLayer), Min(b.maxL + LAYER_PADDING, g.layerSz))
  }

  /** The box `setGraphInfo` computes for a net and its prior route. */
  function BoxOf(g: GridExtent, net: Net, route: seq<Segment>): (r: Box)
    ensures g.rowBegin <= r.minR && r.maxR <= g.rowEnd
    ensures g.colBegin <= r.minC && r.maxC <= g.colEnd
    ensures net.minRoutingLayer <= r.minL && r.maxL <= g.layerSz
  {
    PadAndClamp(g, net.minRoutingLayer,
                FoldRoute(FoldPins(Initial(g, net.minRoutingLayer), net.pins), route))
  }

  /** `a` lies within `b` (as ranges; used for the running extremes). */
  predicate Within(a: Box, b: Box)
  {
    b.minR <= a.minR && a.maxR <= b.maxR && b.minC <= a.minC && a.maxC <= b.maxC
    && b.minL <= a.minL && a.maxL <= b.maxL
  }

  /** The pin fold only widens, and its result covers every pin. */
  lemma {:induction false} FoldPinsCovers(b: Box, pins: seq<Point>)
    ensures Within(b, FoldPins(b, pins))
    ensures forall p | p in pins :: FoldPins(b, pins).Contains(p)
    decreases |pins|
  {
    if pins != [] {
      var init := pins[..|pins| - 1];
      FoldPinsCovers(b, init);
      forall p | p in pins ensures FoldPins(b, pins).Contains(p) {
        if p != pins[|pins| - 1] {
          assert p in init;
        }
      }
    }
  }

  /** The route fold only widens, and its result covers both ends of every normalised segment. */
  lemma {:induction false} FoldRouteCovers(b: Box, route: seq<Segment>)
    requires forall seg | seg in route :: Normalized(seg)
    ensures Within(b, FoldRoute(b, route))
    ensures forall seg | seg in route ::
      FoldRoute(b, route).Contains(seg.s) && FoldRoute(b, route).Contains(seg.e)
    decreases |route|
  {
    if route != [] {
      var init := route[..|route| - 1];
      FoldRouteCovers(b, init);
      forall seg | seg in route
        ensures FoldRoute(b, route).Contains(seg.s) && FoldRoute(b, route).Contains(seg.e)
      {
        if seg != route[|route| - 1] {
          assert seg in init;
        }
      }
    }
  }

  /** Every pin's (row, col) is in the box, and so is its layer once lifted to the box floor. */
  lemma BoxContainsPins(g: GridExtent, net: Net, route: seq<Segment>)
    requires NetInGrid(g, net) && RouteInGrid(g, route)
    ensures var b := BoxOf(g, net, route);
      forall p | p in net.pins ::
        b.minR <= p.row <= b.maxR && b.minC <= p.col <= b.maxC && p.layer <= b.maxL
        && b.Contains(Point(p.row, p.col, Max(p.layer, b.minL)))
  {
    var b0 := Initial(g, net.minRoutingLayer);
    FoldPinsCovers(b0, net.pins);
    FoldRouteCovers(FoldPins(b0, net.pins), route);
  }

  /** The start and end of every segment of the prior route are in the box's (row, col) range. */
  lemma BoxContainsRoute(g: GridExtent, net: Net, route: seq<Segment>)
    requires NetInGrid(g, net) && RouteInGrid(g, route)
    ensures var b := BoxOf(g, net, route);
      forall seg | seg in route ::
        && b.minR <= seg.s.row <= b.maxR && b.minC <= seg.s.col <= b.maxC
        && b.minR <= seg.e.row <= b.maxR && b.minC <= seg.e.col <= b.maxC
        && seg.e.layer <= b.maxL
  {
    var b0 := Initial(g, net.minRoutingLayer);
    FoldPinsCovers(b0, net.pins);
    FoldRouteCovers(FoldPins(b0, net.pins), route);
  }

  /** With at least one pin or one prior segment inside the grid, the box is not empty. */
  lemma BoxNonEmpty(g: GridExtent, net: Net, route: seq<Segment>)
    requires NetInGrid(g, net) && RouteInGrid(g, route)
    requires |net.pins| > 0 || |route| > 0
    ensures BoxOf(g, net, route).NonEmpty()
  {
    var b0 := Initial(g, net.minRoutingLayer);
    FoldPinsCovers(b0, net.pins);
    FoldRouteCovers(FoldPins(b0, net.pins), route);
    if |net.pins| > 0 {
      assert net.pins[0] in net.pins;
    } else {
      assert route[0] in route;
    }
  }

  /** A pin is below the box floor exactly when it is below the net's minimum routing layer. */
  lemma BelowFloorIffBelowMinLayer(g: GridExtent, net: Net, route: seq<Segment>, p: Point)
    requires NetInGrid(g, net) && RouteInGrid(g, route) && p in net.pins
    ensures p.layer < BoxOf(g, net, route).minL <==> p.layer < net.minRoutingLayer
  {
    var b0 := Initial(g, net.minRoutingLayer);
    FoldPinsCovers(b0, net.pins);
    FoldRouteCovers(FoldPins(b0, net.pins), route);
  }

  /** Every pin and both ends of every prior segment keep a margin of 5 rows and
      columns and 1 layer inside the box, cut off only by the grid and by the
      net's minimum routing layer; the ceiling is at least one layer above that
      minimum; and once a pin lies below the minimum routing layer, the floor is
      exactly that layer. */
  lemma BoxMargins(g: GridExtent, net: Net, route: seq<Segment>)
    requires NetInGrid(g, net) && RouteInGrid(g, route)
    ensures var b := BoxOf(g, net, route);
      forall p | p in net.pins ::
        && b.minR <= Max(p.row - ROW_COL_PADDING, g.rowBegin) && Min(p.row + ROW_COL_PADDING, g.rowEnd) <= b.maxR
        && b.minC <= Max(p.col - ROW_COL_PADDING, g.colBegin) && Min(p.col + ROW_COL_PADDING, g.colEnd) <= b.maxC
        && b.minL <= Max(p.layer - LAYER_PADDING, net.minRoutingLayer)
        && Min(p.layer + LAYER_PADDING, g.layerSz) <= b.maxL
    ensures var b := BoxOf(g, net, route);
      forall seg | seg in route ::
        && b.minR <= Max(seg.s.row - ROW_COL_PADDING, g.rowBegin) && Min(seg.e.row + ROW_COL_PADDING, g.rowEnd) <= b.maxR
        && b.minC <= Max(seg.s.col - ROW_COL_PADDING, g.colBegin) && Min(seg.e.col + ROW_COL_PADDING, g.colEnd) <= b.maxC
        && b.minL <= Max(seg.s.layer - LAYER_PADDING, net.minRoutingLayer)
        && Min(seg.e.layer + LAYER_PADDING, g.layerSz) <= b.maxL
    ensures Min(net.minRoutingLayer + LAYER_PADDING, g.layerSz) <= BoxOf(g, net, route).maxL
    ensures (exists p | p in net.pins :: p.layer < net.minRoutingLayer) ==>
      BoxOf(g, net, route).minL == net.minRoutingLayer
  {
    var b0 := Initial(g, net.minRoutingLayer);
    FoldPinsCovers(b0, net.pins);
    FoldRouteCovers(FoldPins(b0, net.pins), route);
  }

  /** The running extremes lie inside the grid's row, column and layer ranges. */
  predicate InGridRange(g: GridExtent, b: Box)
  {
    && g.rowBegin <= b.minR <= g.rowEnd && g.rowBegin <= b.maxR <= g.rowEnd
    && g.colBegin <= b.minC <= g.colEnd && g.colBegin <= b.maxC <= g.colEnd
    && 0 <= b.minL <= g.layerSz && 0 <= b.maxL <= g.layerSz
  }

  /** Folding pins of the grid keeps the running extremes inside the grid. */
  lemma {:induction false} FoldPinsInGrid(g: GridExtent, b: Box, pins: seq<Point>)
    requires InGridRange(g, b) && forall p | p in pins :: PointInGrid(g, p)
    ensures InGridRange(g, FoldPins(b, pins))
    decreases |pins|
  {
    if pins != [] {
      var init := pins[..|pins| - 1];
      assert pins[|pins| - 1] in pins;
      assert forall p | p in init :: p in pins;
      FoldPinsInGrid(g, b, init);
    }
  }

  /** Folding segments of the grid keeps the running extremes inside the grid. */
  lemma {:induction false} FoldRouteInGrid(g: GridExtent, b: Box, route: seq<Segment>)
    requires InGridRange(g, b) && RouteInGrid(g, route)
    ensures InGridRange(g, FoldRoute(b, route))
    decreases |route|
  {
    if route != [] {
      var init := route[..|route| - 1];
      assert route[|route| - 1] in route;
      assert forall seg | seg in init :: seg in route;
      FoldRouteInGrid(g, b, init);
    }
  }

  /** On a valid extent every value `setGraphInfo` computes fits the source's 32-bit
      `int`: the running extremes, the padded ones before clamping, and the three
      box spans handed to the codec. */
  lemma SetGraphInfoInRange(g: GridExtent, net: Net, route: seq<Segment>)
    requires ValidExtent(g) && NetInGrid(g, net) && RouteInGrid(g, route)
    ensures var f := FoldRoute(FoldPins(Initial(g, net.minRoutingLayer), net.pins), route);
      && InInt32(f.minR) && InInt32(f.maxR) && InInt32(f.minC) && InInt32(f.maxC)
      && InInt32(f.minL) && InInt32(f.maxL)
      && InInt32(f.minR - ROW_COL_PADDING) && InInt32(f.maxR + ROW_COL_PADDING)
      && InInt32(f.minC - ROW_COL_PADDING) && InInt32(f.maxC + ROW_COL_PADDING)
      && InInt32(f.minL - LAYER_PADDING) && InInt32(f.maxL + LAYER_PADDING)
    ensures var b := BoxOf(g, net, route);
      InInt32(b.maxR - b.minR + 1) && InInt32(b.maxC - b.minC + 1) && InInt32(b.maxL - b.minL + 1)
  {
    var b0 := Initial(g, net.minRoutingLayer);
    FoldPinsInGrid(g, b0, net.pins);
    FoldRouteInGrid(g, FoldPins(b0, net.pins), route);
  }

  /** Without pins and without a prior route nothing pulls the initial extremes back over
      each other, so only padding can uncross them: the row range comes out inverted
      exactly when it spans more than twice the padding, likewise the column range, and
      the layer range exactly when the grid reaches more than two layers above the
      minimum routing layer. */
  lemma EmptyNetBoxInverted(g: GridExtent, net: Net)
    requires g.rowBegin <= g.rowEnd && g.colBegin <= g.colEnd && net.pins == []
    requires 0 <= net.minRoutingLayer <= g.layerSz
    ensures var b := BoxOf(g, net, []);
      && (b.minR > b.maxR <==> g.rowEnd - g.rowBegin > 2 * ROW_COL_PADDING)
      && (b.minC > b.maxC <==> g.colEnd - g.colBegin > 2 * ROW_COL_PADDING)
      && (b.minL > b.maxL <==> g.layerSz > net.minRoutingLayer + 2 * LAYER_PADDING)
    ensures !BoxOf(g, net, []).NonEmpty() <==>
      || g.rowEnd - g.rowBegin > 2 * ROW_COL_PADDING
      || g.colEnd - g.colBegin > 2 * ROW_COL_PADDING
      || g.layerSz > net.minRoutingLayer + 2 * LAYER_PADDING
  {
    assert FoldPins(Initial(g, net.minRoutingLayer), net.pins) == Initial(g, net.minRoutingLayer);
  }
}
