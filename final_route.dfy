/** Turning the solver's edge ids back into absolute route segments. */
module FinalRoute {
  import opened CoordinateCodec
  import opened Design
  import opened WeightedGraph
  import opened GraphBuild

  /** Both ends of every edge are vertices of the box's codec. */
  predicate EdgesInBox(b: Box, edges: seq<Edge>)
  {
    b.NonEmpty() && forall e | e in edges :: e.v1 < b.Codec().Max() && e.v2 < b.Codec().Max()
  }

  predicate ValidIds(edges: seq<Edge>, eids: seq<nat>)
  {
    forall k | 0 <= k < |eids| :: eids[k] < |edges|
  }

  /** The segment between the decoded ends of one edge. */
  function SegmentOf(b: Box, e: Edge, net: NetId): (s: Segment)
    requires b.NonEmpty() && e.v1 < b.Codec().Max() && e.v2 < b.Codec().Max()
    ensures b.Contains(s.s) && b.Contains(s.e) && s.net == net
    ensures b.Id(s.s) == e.v1 && b.Id(s.e) == e.v2
  {
    Segment(b.PointOf(e.v1), b.PointOf(e.v2), net)
  }

  /** The stubs, followed by one segment per edge id, in the order of the ids. */
  function FinalRouteOf(b: Box, net: NetId, edges: seq<Edge>, eids: seq<nat>, stubs: seq<Segment>): (r: seq<Segment>)
    requires EdgesInBox(b, edges) && ValidIds(edges, eids)
    ensures |r| == |stubs| + |eids| && r[..|stubs|] == stubs
    ensures forall j | 0 <= j < |eids| :: r[|stubs| + j] == SegmentOf(b, edges[eids[j]], net)
    decreases |eids|
  {
    if eids == [] then stubs
    else
      var e := edges[eids[|eids| - 1]];
      assert e in edges;
      var prev := FinalRouteOf(b, net, edges, eids[..|eids| - 1], stubs);
      var r := prev + [SegmentOf(b, e, net)];
      assert r[..|stubs|] == prev[..|stubs|];
      assert forall j | 0 <= j < |eids| - 1 :: eids[j] == eids[..|eids| - 1][j];
      r
  }

  /** The graph's own edges satisfy the codec bound. */
  lemma GraphEdgesInBox(x: Layout)
    requires x.Valid()
    ensures EdgesInBox(x.box, GraphEdges(x))
  {
    forall e | e in GraphEdges(x) ensures e.v1 < x.Max() && e.v2 < x.Max() {
      GraphEdgeLegal(x, e);
    }
  }

  /** Reconstructed from the routing graph, every segment after the stubs is a single
      step between two cells of the box with positive supply: a wire along its layer's
      direction or a via one layer up. */
  lemma FinalRouteSteps(x: Layout, net: NetId, eids: seq<nat>, stubs: seq<Segment>, j: nat)
    requires x.Valid() && ValidIds(GraphEdges(x), eids) && j < |eids|
    ensures EdgesInBox(x.box, GraphEdges(x))
    ensures var seg := FinalRouteOf(x.box, net, GraphEdges(x), eids, stubs)[|stubs| + j];
      && x.box.Contains(seg.s) && x.box.Contains(seg.e)
      && x.Supply(seg.s) > 0 && x.Supply(seg.e) > 0
      && ((seg.e == East(seg.s) && x.dir[seg.s.layer] == 'H')
       || (seg.e == South(seg.s) && x.dir[seg.s.layer] == 'V')
       || seg.e == Up(seg.s))
  {
    GraphEdgesInBox(x);
    var edges := GraphEdges(x);
    var e := edges[eids[j]];
    var seg := FinalRouteOf(x.box, net, edges, eids, stubs)[|stubs| + j];
    GraphEdgeLegal(x, e);
    PointOfId(x.box, seg.s);
    PointOfId(x.box, seg.e);
  }
}
