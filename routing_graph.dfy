/** The per-net session object: bounding box, codec, terminal set, the map of
    pins below the floor, and the routing graph, all rebuilt for every net. */
module RoutingGraph {
  import opened CoordinateCodec
  import opened Design
  import opened BoundingBox
  import opened Terminals
  import opened WeightedGraph
  import opened GraphBuild
  import opened FinalRoute

  /** The codec `setGraphInfo` builds: the box extents, each cast to `unsigned long long`. */
  function CastCodec(b: Box): Codec
  {
    Codec(ToU64(b.maxR - b.minR + 1), ToU64(b.maxC - b.minC + 1), ToU64(b.maxL - b.minL + 1))
  }

  /** For a net with a pin or a prior segment inside a valid grid, the box is non-empty,
      the casts do not wrap, the codec's `max()` (and so every index it encodes)
      is below 2^64, and every pin lies in the box. */
  lemma SetGraphInfoReady(g: GridExtent, net: Net, route: seq<Segment>)
    requires ValidExtent(g) && NetInGrid(g, net) && RouteInGrid(g, route)
    requires |net.pins| > 0 || |route| > 0
    ensures var b := BoxOf(g, net, route);
      && b.NonEmpty() && CastCodec(b) == b.Codec() && PinsInBox(b, net.pins)
      && b.Codec().Max() < 0x1_0000_0000_0000_0000
  {
    BoxNonEmpty(g, net, route);
    BoxContainsPins(g, net, route);
    var b := BoxOf(g, net, route);
    MaxMonotone(b.Codec(), Codec(g.rowEnd - g.rowBegin + 1, g.colEnd - g.colBegin + 1, g.layerSz + 1));
  }

  class RoutingGraphManager {
    var net: Net
    var minR: int
    var maxR: int
    var minC: int
    var maxC: int
    var minLayerIdx: int
    var maxLayerIdx: int
    var codec: Codec
    var terminals: set<nat>
    var pinMinLayer: map<nat, int>
    var g: Graph

    function Box(): Box
      reads this`minR, this`maxR, this`minC, this`maxC, this`minLayerIdx, this`maxLayerIdx
    {
      Design.Box(minR, maxR, minC, maxC, minLayerIdx, maxLayerIdx)
    }

    /** The box is non-empty, the codec spans it, and the net's pins lie in it. */
    predicate Valid()
      reads this`minR, this`maxR, this`minC, this`maxC, this`minLayerIdx, this`maxLayerIdx, this`codec, this`net
    {
      Box().NonEmpty() && codec == Box().Codec() && PinsInBox(Box(), net.pins)
    }

    constructor ()
      ensures terminals == {} && pinMinLayer == map[] && g == Empty(0)
    {
      net := Net(0, [], 0);
      minR, maxR, minC, maxC, minLayerIdx, maxLayerIdx := 0, 0, 0, 0, 0, 0;
      codec := Codec(1, 1, 1);
      terminals := {};
      pinMinLayer := map[];
      g := Empty(0);
    }

    /** Computes the bounding box of `n` and its prior route and the codec over it. */
    method SetGraphInfo(grid: GridExtent, n: Net, originRoute: seq<Segment>)
      modifies this`net, this`minR, this`maxR, this`minC, this`maxC, this`minLayerIdx, this`maxLayerIdx, this`codec
      ensures net == n && Box() == BoxOf(grid, n, originRoute) && codec == CastCodec(Box())
    {
      net := n;
      maxR := grid.rowBegin;
      minR := grid.rowEnd;
      maxC := grid.colBegin;
      minC := grid.colEnd;
      minLayerIdx := grid.layerSz;
      maxLayerIdx := n.minRoutingLayer;
      ghost var b0 := Initial(grid, n.minRoutingLayer);
      assert Box() == b0;
      WidenByPins(n.pins);
      ghost var b1 := FoldPins(b0, n.pins);
      assert Box() == b1;
      WidenByRoute(originRoute);
      ghost var b2 := FoldRoute(b1, originRoute);
      assert Box() == b2;
      PadAndClampExtremes(grid, n.minRoutingLayer);
      assert Box() == PadAndClamp(grid, n.minRoutingLayer, b2);
      codec := Codec(ToU64(maxR - minR + 1), ToU64(maxC - minC + 1), ToU64(maxLayerIdx - minLayerIdx + 1));
    }

    /** The pin loop of `SetGraphInfo`: widens the running extremes by every pin. */
    method WidenByPins(pins: seq<Point>)
      modifies this`minR, this`maxR, this`minC, this`maxC, this`minLayerIdx, this`maxLayerIdx
      ensures Box() == FoldPins(old(Box()), pins)
    {
      var i := 0;
      while i < |pins|
        invariant 0 <= i <= |pins|
        invariant Box() == FoldPins(old(Box()), pins[..i])
      {
        var pin := pins[i];
        minR := Min(minR, pin.row);
        maxR := Max(maxR, pin.row);
        minC := Min(minC, pin.col);
        maxC := Max(maxC, pin.col);
        minLayerIdx := Min(minLayerIdx, pin.layer);
        maxLayerIdx := Max(maxLayerIdx, pin.layer);
        assert pins[..i + 1][..i] == pins[..i];
        i := i + 1;
      }
      assert pins[..|pins|] == pins;
    }

    /** The route loop of `SetGraphInfo`: widens the running extremes by every prior segment. */
    method WidenByRoute(route: seq<Segment>)
      modifies this`minR, this`maxR, this`minC, this`maxC, this`minLayerIdx, this`maxLayerIdx
      ensures Box() == FoldRoute(old(Box()), route)
    {
      var j := 0;
      while j < |route|
        invariant 0 <= j <= |route|
        invariant Box() == FoldRoute(old(Box()), route[..j])
      {
        var seg := route[j];
        minR := Min(minR, seg.s.row);
        maxR := Max(maxR, seg.e.row);
        minC := Min(minC, seg.s.col);
        maxC := Max(maxC, seg.e.col);
        minLayerIdx := Min(minLayerIdx, seg.s.layer);
        maxLayerIdx := Max(maxLayerIdx, seg.e.layer);
        assert route[..j + 1][..j] == route[..j];
        j := j + 1;
      }
      assert route[..|route|] == route;
    }

    /** The padding and clamping step of `SetGraphInfo`. */
    method PadAndClampExtremes(grid: GridExtent, minRoutingLayer: int)
      modifies this`minR, this`maxR, this`minC, this`maxC, this`minLayerIdx, this`maxLayerIdx
      ensures Box() == PadAndClamp(grid, minRoutingLayer, old(Box()))
    {
      minR := Max(minR - ROW_COL_PADDING, grid.rowBegin);
      maxR := Min(maxR + ROW_COL_PADDING, grid.rowEnd);
      minC := Max(minC - ROW_COL_PADDING, grid.colBegin);
      maxC := Min(maxC + ROW_COL_PADDING, grid.colEnd);
      minLayerIdx := Max(minLayerIdx - LAYER_PADDING, minRoutingLayer);
      maxLayerIdx := Min(maxLayerIdx + LAYER_PADDING, grid.layerSz);
    }

    /** Fills the terminal set and the map of pins below the floor, and returns one stub
        per recorded (row, col); the stubs come in no particular order. */
    method CreateTerminalsAndRouteUnderMinLayer() returns (stubs: seq<Segment>)
      requires Valid()
      modifies this`terminals, this`pinMinLayer
      ensures terminals == TerminalsOf(Box(), net.pins)
      ensures pinMinLayer == PinMinLayerOf(Box(), net.pins)
      ensures |stubs| == |pinMinLayer|
      ensures (set s | s in stubs) == StubsOf(Box(), pinMinLayer, net.id)
      ensures forall i, j | 0 <= i < j < |stubs| :: stubs[i] != stubs[j]
    {
      terminals, pinMinLayer := ScanPins(Box(), net.pins);
      stubs := EmitStubs(Box(), pinMinLayer, net.pins, net.id);
    }

    /** Rebuilds the graph from nothing: wire edges, then via edges, between cells with supply. */
    method CreateGraph(supply: (int, int, int) -> int, layerFactor: seq<int>, layerDir: seq<char>)
      requires Valid() && 0 <= minLayerIdx && maxLayerIdx < |layerFactor| && maxLayerIdx < |layerDir|
      modifies this`g
      ensures g == Graph(codec.Max(), GraphEdges(Layout(Box(), supply, layerFactor, layerDir)))
    {
      g := BuildGraph(Layout(Box(), supply, layerFactor, layerDir), codec.Max());
    }

    /** The stubs followed by the decoded segment of every solved edge, in order. */
    method CreateFinalRoute(eids: seq<nat>, routeUnderMinLayer: seq<Segment>) returns (route: seq<Segment>)
      requires Valid() && EdgesInBox(Box(), g.edges) && ValidIds(g.edges, eids)
      ensures route == FinalRouteOf(Box(), net.id, g.edges, eids, routeUnderMinLayer)
    {
      route := routeUnderMinLayer;
      var i := 0;
      while i < |eids|
        invariant 0 <= i <= |eids|
        invariant route == FinalRouteOf(Box(), net.id, g.edges, eids[..i], routeUnderMinLayer)
      {
        var edge := g.GetEdge(eids[i]);
        assert edge in g.edges;
        var p1 := DecodePoint(Box(), edge.v1);
        var p2 := DecodePoint(Box(), edge.v2);
        PointOfId(Box(), p1);
        PointOfId(Box(), p2);
        route := route + [Segment(p1, p2, net.id)];
        assert eids[..i + 1][..i] == eids[..i];
        i := i + 1;
      }
      assert eids[..|eids|] == eids;
    }
  }

  // -----------------------------------------------------------------------
  // The loops of the builder, over values

  /** The pin loop of `createTerminalsAndRouteUnderMinLayer`. */
  method ScanPins(b: Box, pins: seq<Point>) returns (terminals: set<nat>, pinMinLayer: map<nat, int>)
    requires PinsInBox(b, pins)
    ensures terminals == TerminalsOf(b, pins) && pinMinLayer == PinMinLayerOf(b, pins)
  {
    terminals, pinMinLayer := {}, map[];
    var i := 0;
    while i < |pins|
      invariant 0 <= i <= |pins|
      invariant terminals == TerminalsOf(b, pins[..i])
      invariant pinMinLayer == PinMinLayerOf(b, pins[..i])
    {
      var pin := pins[i];
      assert pin in pins;
      assert pins[..i + 1][..i] == pins[..i];
      var coord := EncodePoint(b, Point(pin.row, pin.col, Max(pin.layer, b.minL)));
      terminals := terminals + {coord};
      if pin.layer < b.minL {
        var key := EncodePoint(b, Point(pin.row, pin.col, b.minL));
        if key in pinMinLayer {
          pinMinLayer := pinMinLayer[key := Min(pinMinLayer[key], pin.layer)];
        } else {
          pinMinLayer := pinMinLayer[key := pin.layer];
        }
      }
      i := i + 1;
    }
    assert pins[..|pins|] == pins;
  }

  /** The stub loop of `createTerminalsAndRouteUnderMinLayer`: one stub per recorded key. */
  method EmitStubs(b: Box, pinMinLayer: map<nat, int>, ghost pins: seq<Point>, net: NetId) returns (stubs: seq<Segment>)
    requires PinsInBox(b, pins) && pinMinLayer == PinMinLayerOf(b, pins)
    ensures |stubs| == |pinMinLayer|
    ensures (set s | s in stubs) == StubsOf(b, pinMinLayer, net)
    ensures forall i, j | 0 <= i < j < |stubs| :: stubs[i] != stubs[j]
  {
    stubs := [];
    ghost var emitted: seq<nat> := [];
    var rest := pinMinLayer.Keys;
    while rest != {}
      invariant EmitState(b, pinMinLayer, net, rest, emitted, stubs)
      decreases |rest|
    {
      var k :| k in rest;
      var q := DecodePoint(b, k);
      PointOfId(b, q);
      var seg := Segment(Point(q.row, q.col, pinMinLayer[k]), Point(q.row, q.col, b.minL), net);
      assert seg == StubOf(b, k, pinMinLayer[k], net);
      EmitStep(b, pins, net, rest, emitted, stubs, k);
      stubs := stubs + [seg];
      emitted := emitted + [k];
      rest := rest - {k};
    }
    assert pinMinLayer.Keys - rest == pinMinLayer.Keys;
    StubsOfEmitted(b, pinMinLayer, net, emitted, stubs);
  }

  /** The state of the stub loop: `emitted` lists the keys already visited, in visiting order,
      and `stubs` their stubs. */
  ghost predicate EmitState(b: Box, m: map<nat, int>, net: NetId, rest: set<nat>, emitted: seq<nat>, stubs: seq<Segment>)
  {
    && KeysInRange(b, m) && rest <= m.Keys && |emitted| == |stubs| && |stubs| == |m.Keys - rest|
    && (forall i | 0 <= i < |emitted| ::
          emitted[i] in m && emitted[i] !in rest && stubs[i] == StubOf(b, emitted[i], m[emitted[i]], net))
    && (forall k | k in m && k !in rest :: k in emitted)
    && (forall i, j | 0 <= i < j < |stubs| :: stubs[i] != stubs[j])
  }

  /** Visiting one more key keeps the loop state. */
  lemma EmitStep(b: Box, pins: seq<Point>, net: NetId, rest: set<nat>, emitted: seq<nat>, stubs: seq<Segment>, k: nat)
    requires PinsInBox(b, pins) && k in rest
    requires EmitState(b, PinMinLayerOf(b, pins), net, rest, emitted, stubs)
    ensures var m := PinMinLayerOf(b, pins);
      EmitState(b, m, net, rest - {k}, emitted + [k], stubs + [StubOf(b, k, m[k], net)])
  {
    var m := PinMinLayerOf(b, pins);
    var seg := StubOf(b, k, m[k], net);
    forall i | 0 <= i < |stubs| ensures stubs[i] != seg {
      if stubs[i] == seg {
        StubOfInjective(b, pins, net, k, emitted[i]);
      }
    }
    assert m.Keys - (rest - {k}) == (m.Keys - rest) + {k};
  }

  /** Stubs emitted for a list of keys that covers the map are exactly the map's stubs. */
  lemma StubsOfEmitted(b: Box, m: map<nat, int>, net: NetId, emitted: seq<nat>, stubs: seq<Segment>)
    requires KeysInRange(b, m) && |emitted| == |stubs|
    requires forall i | 0 <= i < |emitted| :: emitted[i] in m && stubs[i] == StubOf(b, emitted[i], m[emitted[i]], net)
    requires forall k | k in m :: k in emitted
    ensures (set s | s in stubs) == StubsOf(b, m, net)
  {
    forall s | s in stubs ensures s in StubsOf(b, m, net) {
      var i :| 0 <= i < |stubs| && stubs[i] == s;
      assert emitted[i] in m.Keys;
    }
    forall s | s in StubsOf(b, m, net) ensures s in stubs {
      var k :| k in m && s == StubOf(b, k, m[k], net);
      var i :| 0 <= i < |emitted| && emitted[i] == k;
      assert stubs[i] == s;
    }
  }

  /** The two sweeps of `createGraph` over a graph with `n` vertices and no edges. */
  method BuildGraph(x: Layout, n: nat) returns (graph: Graph)
    requires x.Valid()
    ensures graph == Graph(n, GraphEdges(x))
  {
    graph := SweepLayers(x, WirePass, Empty(n));
    graph := SweepLayers(x, ViaPass, graph);
    GraphEdgesBySweeps(x);
  }

  /** The graph's edge list is the wire sweep followed by the via sweep. */
  lemma GraphEdgesBySweeps(x: Layout)
    requires x.Valid()
    ensures GraphEdges(x) == [] + LayerSweep(x, WirePass, Top(x, WirePass) + 1) + LayerSweep(x, ViaPass, Top(x, ViaPass) + 1)
  {
    var wires, vias := LayerSweep(x, WirePass, x.box.maxL + 1), LayerSweep(x, ViaPass, x.box.maxL);
    assert [] + wires == wires;
  }

  /** One sweep: every layer it covers, bottom up (all layers for wires, all but the top for vias). */
  method SweepLayers(x: Layout, pass: Pass, graph: Graph) returns (graph': Graph)
    requires x.Valid()
    ensures graph'.vertexNum == graph.vertexNum && graph'.edges == graph.edges + LayerSweep(x, pass, Top(x, pass) + 1)
  {
    graph' := graph;
    var l := x.box.minL;
    LayerSweepFrom(x, pass, graph.edges);
    while l <= Top(x, pass)
      invariant x.box.minL <= l <= Top(x, pass) + 1
      invariant graph'.vertexNum == graph.vertexNum && graph'.edges == graph.edges + LayerSweep(x, pass, l)
    {
      graph' := SweepLayer(x, pass, l, graph');
      LayerSweepStep(x, pass, l, graph.edges);
      l := l + 1;
    }
  }

  /** One layer of a sweep: every row of the box, in order. */
  method SweepLayer(x: Layout, pass: Pass, l: int, graph: Graph) returns (graph': Graph)
    requires x.Valid() && x.box.minL <= l <= Top(x, pass)
    ensures graph'.vertexNum == graph.vertexNum && graph'.edges == graph.edges + RowSweep(x, pass, l, x.box.maxR + 1)
  {
    graph' := graph;
    var r := x.box.minR;
    RowSweepFrom(x, pass, l, graph.edges);
    while r <= x.box.maxR
      invariant x.box.minR <= r <= x.box.maxR + 1
      invariant graph'.vertexNum == graph.vertexNum && graph'.edges == graph.edges + RowSweep(x, pass, l, r)
    {
      graph' := SweepRow(x, pass, l, r, graph');
      RowSweepStep(x, pass, l, r, graph.edges);
      r := r + 1;
    }
  }

  /** One row of a sweep: every column of the box, in order. */
  method SweepRow(x: Layout, pass: Pass, l: int, r: int, graph: Graph) returns (graph': Graph)
    requires x.Valid() && x.box.minL <= l <= Top(x, pass) && x.box.minR <= r <= x.box.maxR
    ensures graph'.vertexNum == graph.vertexNum && graph'.edges == graph.edges + ColSweep(x, pass, l, r, x.box.maxC + 1)
  {
    graph' := graph;
    var c := x.box.minC;
    ColSweepFrom(x, pass, l, r, graph.edges);
    while c <= x.box.maxC
      invariant x.box.minC <= c <= x.box.maxC + 1
      invariant graph'.vertexNum == graph.vertexNum && graph'.edges == graph.edges + ColSweep(x, pass, l, r, c)
    {
      if pass == WirePass {
        graph' := AddWireEdges(x, r, c, l, graph');
      } else {
        graph' := AddViaEdge(x, r, c, l, graph');
      }
      ColSweepStep(x, pass, l, r, c, graph.edges);
      c := c + 1;
    }
  }

  // How the sweep functions grow by one step, appended to the edges already there.

  lemma LayerSweepFrom(x: Layout, pass: Pass, done: seq<Edge>)
    requires x.Valid()
    ensures done + LayerSweep(x, pass, x.box.minL) == done
  {
    assert done + [] == done;
  }

  lemma LayerSweepStep(x: Layout, pass: Pass, l: int, done: seq<Edge>)
    requires x.Valid() && x.box.minL <= l <= Top(x, pass)
    ensures done + LayerSweep(x, pass, l + 1) == done + LayerSweep(x, pass, l) + RowSweep(x, pass, l, x.box.maxR + 1)
  {
    var prev, layer := LayerSweep(x, pass, l), RowSweep(x, pass, l, x.box.maxR + 1);
    assert LayerSweep(x, pass, l + 1) == prev + layer;
    assert done + (prev + layer) == done + prev + layer;
  }

  lemma RowSweepFrom(x: Layout, pass: Pass, l: int, done: seq<Edge>)
    requires x.Valid() && x.box.minL <= l <= Top(x, pass)
    ensures done + RowSweep(x, pass, l, x.box.minR) == done
  {
    assert done + [] == done;
  }

  lemma RowSweepStep(x: Layout, pass: Pass, l: int, r: int, done: seq<Edge>)
    requires x.Valid() && x.box.minL <= l <= Top(x, pass) && x.box.minR <= r <= x.box.maxR
    ensures done + RowSweep(x, pass, l, r + 1) == done + RowSweep(x, pass, l, r) + ColSweep(x, pass, l, r, x.box.maxC + 1)
  {
    var prev, row := RowSweep(x, pass, l, r), ColSweep(x, pass, l, r, x.box.maxC + 1);
    assert RowSweep(x, pass, l, r + 1) == prev + row;
    assert done + (prev + row) == done + prev + row;
  }

  lemma ColSweepFrom(x: Layout, pass: Pass, l: int, r: int, done: seq<Edge>)
    requires x.Valid() && x.box.minL <= l <= Top(x, pass) && x.box.minR <= r <= x.box.maxR
    ensures done + ColSweep(x, pass, l, r, x.box.minC) == done
  {
    assert done + [] == done;
  }

  lemma ColSweepStep(x: Layout, pass: Pass, l: int, r: int, c: int, done: seq<Edge>)
    requires x.Valid() && x.box.minL <= l <= Top(x, pass) && x.box.minR <= r <= x.box.maxR
    requires x.box.minC <= c <= x.box.maxC
    ensures done + ColSweep(x, pass, l, r, c + 1) == done + ColSweep(x, pass, l, r, c) + CellEdges(x, pass, Point(r, c, l))
  {
    var prev, cell := ColSweep(x, pass, l, r, c), CellEdges(x, pass, Point(r, c, l));
    assert ColSweep(x, pass, l, r, c + 1) == prev + cell;
    assert done + (prev + cell) == done + prev + cell;
  }

  /** The body of the wire sweep at cell (r, c, l). */
  method AddWireEdges(x: Layout, r: int, c: int, l: int, graph: Graph) returns (graph': Graph)
    requires x.Valid() && InSweep(x, WirePass, Point(r, c, l))
    ensures graph'.vertexNum == graph.vertexNum && graph'.edges == graph.edges + CellEdges(x, WirePass, Point(r, c, l))
  {
    var b := x.box;
    graph' := graph;
    if x.supply(r, c, l) > 0 {
      var coord := EncodePoint(b, Point(r, c, l));
      if c != b.maxC && x.supply(r, c + 1, l) > 0 && x.dir[l] == 'H' {
        var neighbour := EncodePoint(b, Point(r, c + 1, l));
        graph' := graph'.AddEdge(coord, neighbour, x.factor[l] * 2);
      }
      if r != b.maxR && x.supply(r + 1, c, l) > 0 && x.dir[l] == 'V' {
        var neighbour := EncodePoint(b, Point(r + 1, c, l));
        graph' := graph'.AddEdge(coord, neighbour, x.factor[l] * 2);
      }
    }
  }

  /** The body of the via sweep at cell (r, c, l). */
  method AddViaEdge(x: Layout, r: int, c: int, l: int, graph: Graph) returns (graph': Graph)
    requires x.Valid() && InSweep(x, ViaPass, Point(r, c, l))
    ensures graph'.vertexNum == graph.vertexNum && graph'.edges == graph.edges + CellEdges(x, ViaPass, Point(r, c, l))
  {
    graph' := graph;
    if x.supply(r, c, l) <= 0 || x.supply(r, c, l + 1) <= 0 {
      return;
    }
    var coord := EncodePoint(x.box, Point(r, c, l));
    var neighbour := EncodePoint(x.box, Point(r, c, l + 1));
    graph' := graph'.AddEdge(coord, neighbour, x.factor[l] + x.factor[l + 1]);
  }

  /** The inline `codec.encode` of the offset of `p` from the box origin, as the
      builder's loops compute it; `Box.Id` is its specification, and the result
      is a vertex of the graph that decodes back to `p`. */
  method EncodePoint(b: Box, p: Point) returns (v: nat)
    requires b.Contains(p)
    ensures b.NonEmpty() && v < b.Codec().Max() && b.PointOf(v) == p
  {
    v := b.Codec().Encode(Offset(p.row - b.minR, p.col - b.minC, p.layer - b.minL));
    PointOfId(b, p);
  }

  /** The inline `codec.decode` of `v`, shifted back by the box origin, as the route
      reconstruction computes it; `Box.PointOf` is its specification, and the result
      is a point of the box that encodes back to `v`. */
  method DecodePoint(b: Box, v: nat) returns (p: Point)
    requires b.NonEmpty() && v < b.Codec().Max()
    ensures b.Contains(p) && b.Id(p) == v
  {
    var o := b.Codec().Decode(v);
    p := Point(o.row + b.minR, o.col + b.minC, o.layer + b.minL);
  }
}
