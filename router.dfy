/** The router proper: one net at a time through the localized graph, and the
    rip-up-and-reroute sweep over every routed net. */
module Router {
  import opened Design
  import opened BoundingBox
  import opened Terminals
  import opened WeightedGraph
  import opened GraphBuild
  import opened FinalRoute
  import opened RoutingGraph

  datatype Option<T> = None | Some(value: T)

  /** A net's stored route together with its price. */
  datatype NetRoute = NetRoute(route: seq<Segment>, cost: int)

  /** One entry of the cost snapshot taken at the start of a sweep. */
  datatype NetCost = NetCost(net: NetId, cost: int)

  /** A change to the grid's demand bookkeeping. */
  datatype GridEvent = Removed(net: NetId) | Added(net: NetId)

  /** What the grid's supply and prices depend on: the stored routes, and the nets whose
      demand is currently on the grid. */
  datatype GridState = GridState(routes: map<NetId, NetRoute>, placed: set<NetId>)

  /** The part of the grid manager the router touches: the net-to-route map and the
      demand of the placed nets. */
  class GridManager {
    var netRoutes: map<NetId, NetRoute>
    var placed: set<NetId>
    ghost var log: seq<GridEvent>

    function State(): GridState
      reads this`netRoutes, this`placed
    {
      GridState(netRoutes, placed)
    }

    constructor (routes: map<NetId, NetRoute>)
      ensures netRoutes == routes && placed == routes.Keys && log == []
    {
      netRoutes := routes;
      placed := routes.Keys;
      log := [];
    }

    /** Takes the net's demand off the grid. */
    method RemoveNet(id: NetId)
      modifies this`placed, this`log
      ensures placed == old(placed) - {id} && log == old(log) + [Removed(id)]
    {
      placed := placed - {id};
      log := log + [Removed(id)];
    }

    /** Puts the net's demand (along its stored route) back on the grid. */
    method AddNet(id: NetId)
      modifies this`placed, this`log
      ensures placed == old(placed) + {id} && log == old(log) + [Added(id)]
    {
      placed := placed + {id};
      log := log + [Added(id)];
    }

    /** Overwrites the stored entry of a net. */
    method SetRoute(id: NetId, nr: NetRoute)
      modifies this`netRoutes
      ensures netRoutes == old(netRoutes)[id := nr]
    {
      netRoutes := netRoutes[id := nr];
    }

    /** The (net, cost) pairs of the stored routes, in the map's iteration order. */
    method Snapshot() returns (snap: seq<NetCost>)
      ensures |snap| == |netRoutes|
      ensures forall i | 0 <= i < |snap| :: snap[i].net in netRoutes && snap[i].cost == netRoutes[snap[i].net].cost
      ensures forall id | id in netRoutes :: NetCost(id, netRoutes[id].cost) in snap
      ensures forall i, j | 0 <= i < j < |snap| :: snap[i] != snap[j]
    {
      snap := CostsOf(netRoutes);
    }
  }

  /** The (net, cost) pairs of `routes`, one per key, in the map's iteration order. */
  method CostsOf(routes: map<NetId, NetRoute>) returns (snap: seq<NetCost>)
    ensures |snap| == |routes|
    ensures forall i | 0 <= i < |snap| :: snap[i].net in routes && snap[i].cost == routes[snap[i].net].cost
    ensures forall id | id in routes :: NetCost(id, routes[id].cost) in snap
    ensures forall i, j | 0 <= i < j < |snap| :: snap[i] != snap[j]
  {
    snap := [];
    var rest := routes.Keys;
    while rest != {}
      invariant CostsSoFar(routes, rest, snap)
      decreases |rest|
    {
      var id :| id in rest;
      CostsStep(routes, rest, snap, id);
      snap := snap + [NetCost(id, routes[id].cost)];
      rest := rest - {id};
    }
    assert routes.Keys - rest == routes.Keys;
  }

  /** The loop state of `CostsOf`: one entry for each key already taken out of `rest`. */
  predicate CostsSoFar(routes: map<NetId, NetRoute>, rest: set<NetId>, snap: seq<NetCost>)
  {
    && rest <= routes.Keys && |snap| == |routes.Keys - rest|
    && (forall i | 0 <= i < |snap| ::
          snap[i].net in routes && snap[i].net !in rest && snap[i].cost == routes[snap[i].net].cost)
    && (forall id | id in routes && id !in rest :: NetCost(id, routes[id].cost) in snap)
    && (forall i, j | 0 <= i < j < |snap| :: snap[i] != snap[j])
  }

  lemma CostsStep(routes: map<NetId, NetRoute>, rest: set<NetId>, snap: seq<NetCost>, id: NetId)
    requires CostsSoFar(routes, rest, snap) && id in rest
    ensures CostsSoFar(routes, rest - {id}, snap + [NetCost(id, routes[id].cost)])
  {
    assert routes.Keys - (rest - {id}) == (routes.Keys - rest) + {id};
  }

  // -----------------------------------------------------------------------
  // Sorting the snapshot

  predicate SortedByCost(s: seq<NetCost>)
  {
    forall i, j | 0 <= i < j < |s| :: s[i].cost <= s[j].cost
  }

  /** `s` with `x` inserted before the first entry that costs at least as much. */
  function InsertByCost(x: NetCost, s: seq<NetCost>): (r: seq<NetCost>)
    ensures multiset(r) == multiset(s) + multiset{x}
    ensures r[0] == x || r[0] == s[0]
    decreases |s|
  {
    if s == [] then [x]
    else if x.cost <= s[0].cost then [x] + s
    else
      assert s == [s[0]] + s[1..];
      [s[0]] + InsertByCost(x, s[1..])
  }

  /** Inserting into a sorted snapshot keeps it sorted. */
  lemma {:induction false} InsertSorted(x: NetCost, s: seq<NetCost>)
    requires SortedByCost(s)
    ensures SortedByCost(InsertByCost(x, s))
    decreases |s|
  {
    if s != [] && x.cost > s[0].cost {
      var tail := InsertByCost(x, s[1..]);
      InsertSorted(x, s[1..]);
      assert s[0].cost <= tail[0].cost;
      var r := [s[0]] + tail;
      assert r == InsertByCost(x, s);
      forall i, j | 0 <= i < j < |r| ensures r[i].cost <= r[j].cost {
        if i == 0 && 1 < j {
          assert r[j] == tail[j - 1];
        }
      }
    }
  }

  /** The snapshot in ascending cost order, as the comparator `A.second < B.second` asks. */
  function SortByCost(s: seq<NetCost>): (r: seq<NetCost>)
    ensures SortedByCost(r) && multiset(r) == multiset(s)
    decreases |s|
  {
    if s == [] then []
    else
      assert s == s[..|s| - 1] + [s[|s| - 1]];
      InsertSorted(s[|s| - 1], SortByCost(s[..|s| - 1]));
      InsertByCost(s[|s| - 1], SortByCost(s[..|s| - 1]))
  }

  /** A sequence without repeated elements has each element at most once in its multiset. */
  lemma {:induction false} MultiplicityAtMostOne(s: seq<NetCost>, x: NetCost)
    requires forall i, j | 0 <= i < j < |s| :: s[i] != s[j]
    ensures multiset(s)[x] <= 1
    decreases |s|
  {
    if s != [] {
      var init := s[..|s| - 1];
      assert s == init + [s[|s| - 1]];
      MultiplicityAtMostOne(init, x);
      if s[|s| - 1] == x {
        assert x !in init;
      }
    }
  }

  /** A permutation of a sequence without repeats has no repeats. */
  lemma PermutationDistinct(a: seq<NetCost>, b: seq<NetCost>)
    requires multiset(a) == multiset(b)
    requires forall i, j | 0 <= i < j < |a| :: a[i] != a[j]
    ensures forall i, j | 0 <= i < j < |b| :: b[i] != b[j]
  {
    forall i, j | 0 <= i < j < |b| ensures b[i] != b[j] {
      if b[i] == b[j] {
        assert b == b[..j] + [b[j]] + b[j + 1..];
        assert b[i] in b[..j];
        assert multiset(b)[b[j]] >= 2;
        MultiplicityAtMostOne(a, b[j]);
      }
    }
  }

  // -----------------------------------------------------------------------
  // The visit log

  /** The grid events of visiting `order`: each net removed, then re-added. */
  function Visits(order: seq<NetId>): (v: seq<GridEvent>)
    ensures |v| == 2 * |order|
    decreases |order|
  {
    if order == [] then []
    else Visits(order[..|order| - 1]) + [Removed(order[|order| - 1]), Added(order[|order| - 1])]
  }

  /** The events of the `k`-th visited net sit at positions `2k` and `2k + 1`. */
  lemma {:induction false} VisitsAt(order: seq<NetId>, k: nat)
    requires k < |order|
    ensures Visits(order)[2 * k] == Removed(order[k]) && Visits(order)[2 * k + 1] == Added(order[k])
    decreases |order|
  {
    var init := order[..|order| - 1];
    if k < |init| {
      VisitsAt(init, k);
      assert init[k] == order[k];
    }
  }

  lemma VisitsSnoc(s: seq<NetId>, id: NetId)
    ensures Visits(s + [id]) == Visits(s) + [Removed(id), Added(id)]
  {
    assert (s + [id])[..|s|] == s;
  }

  /** One more visit extends the sweep's log by that net's two events. */
  lemma LogStep(log0: seq<GridEvent>, log1: seq<GridEvent>, log2: seq<GridEvent>, done: seq<NetId>, id: NetId)
    requires log1 == log0 + Visits(done) && log2 == log1 + [Removed(id), Added(id)]
    ensures log2 == log0 + Visits(done + [id])
  {
    VisitsSnoc(done, id);
  }

  /** One more visit puts that net's demand back on the grid. */
  lemma PlacedStep(placed0: set<NetId>, placed1: set<NetId>, placed2: set<NetId>, done: seq<NetId>, id: NetId)
    requires placed1 == placed0 + Elements(done) && placed2 == placed1 + {id}
    ensures placed2 == placed0 + Elements(done + [id])
  {
    ElementsSnoc(done, id);
  }

  lemma PrefixSnoc(s: seq<NetId>, i: nat)
    requires i < |s|
    ensures s[..i + 1] == s[..i] + [s[i]]
  {
  }

  /** Each net is removed, and re-added, exactly as often as it occurs in `order`;
      together with `VisitsAt`, a sweep over distinct nets removes and re-adds each
      of them once, the removal just before the re-addition. */
  lemma {:induction false} VisitsCount(order: seq<NetId>, id: NetId)
    ensures multiset(Visits(order))[Removed(id)] == multiset(order)[id]
    ensures multiset(Visits(order))[Added(id)] == multiset(order)[id]
    decreases |order|
  {
    if order != [] {
      var init, last := order[..|order| - 1], order[|order| - 1];
      var v := Visits(init);
      var step := [Removed(last), Added(last)];
      assert Visits(order) == v + step;
      assert multiset(v + step) == multiset(v) + multiset(step);
      assert order == init + [last];
      assert multiset(order) == multiset(init) + multiset([last]);
      VisitsCount(init, id);
    }
  }

  // -----------------------------------------------------------------------
  // The router

  /** The data a net needs for all the routing stages to be defined: a 32-bit grid, the net
      and its prior route inside it, at least one pin or prior segment, and per-layer
      factor and direction tables covering every layer index. */
  predicate Routable(extent: GridExtent, layerFactor: seq<int>, layerDir: seq<char>, net: Net, route: seq<Segment>)
  {
    && ValidExtent(extent) && NetInGrid(extent, net) && RouteInGrid(extent, route)
    && (|net.pins| > 0 || |route| > 0)
    && extent.layerSz < |layerFactor| && extent.layerSz < |layerDir|
  }

  /** The solver returns, when it succeeds, edge ids of the graph it was given. */
  ghost predicate SolverContract(solver: (Graph, set<nat>) -> Option<seq<nat>>)
  {
    forall graph, ts :: solver(graph, ts).Some? ==> ValidIds(graph.edges, solver(graph, ts).value)
  }

  /** The layout `createGraph` works on for a net routed with grid supply `supply`. */
  function LayoutOf(extent: GridExtent, layerFactor: seq<int>, layerDir: seq<char>, net: Net, route: seq<Segment>,
                    supply: (int, int, int) -> int): Layout
  {
    Layout(BoxOf(extent, net, route), supply, layerFactor, layerDir)
  }

  class GraphApproxRouter {
    const grid: GridManager
    const rgm: RoutingGraphManager
    const extent: GridExtent
    const layerFactor: seq<int>
    const layerDir: seq<char>
    /** The net behind each key of the grid's net-route map. */
    const nets: map<NetId, Net>

    constructor (grid: GridManager, extent: GridExtent, layerFactor: seq<int>, layerDir: seq<char>, nets: map<NetId, Net>)
      ensures this.grid == grid && this.extent == extent && this.nets == nets
      ensures this.layerFactor == layerFactor && this.layerDir == layerDir && fresh(rgm)
    {
      this.grid := grid;
      this.extent := extent;
      this.layerFactor := layerFactor;
      this.layerDir := layerDir;
      this.nets := nets;
      rgm := new RoutingGraphManager();
    }

    /** Routes one net inside its bounding box. On solver failure the result is
        `([], false)`; otherwise it is the stubs followed by the solved edges. The stubs
        are returned as `stubs` since their order is the map's. */
    method SingleNetRoute(net: Net, originRoute: seq<Segment>, supply: (int, int, int) -> int,
                          solver: (Graph, set<nat>) -> Option<seq<nat>>)
        returns (route: seq<Segment>, ok: bool, ghost stubs: seq<Segment>)
      requires Routable(extent, layerFactor, layerDir, net, originRoute) && SolverContract(solver)
      modifies rgm
      ensures PinsInBox(BoxOf(extent, net, originRoute), net.pins)
      ensures LayoutOf(extent, layerFactor, layerDir, net, originRoute, supply).Valid()
      ensures var x := LayoutOf(extent, layerFactor, layerDir, net, originRoute, supply);
        EdgesInBox(x.box, GraphEdges(x))
      ensures var x := LayoutOf(extent, layerFactor, layerDir, net, originRoute, supply);
        var edges := GraphEdges(x);
        var res := solver(Graph(x.Max(), edges), TerminalsOf(x.box, net.pins));
        && (ok <==> res.Some?)
        && (!ok ==> route == [])
        && (ok ==> ValidIds(edges, res.value) && route == FinalRouteOf(x.box, net.id, edges, res.value, stubs))
      ensures var b := BoxOf(extent, net, originRoute);
        && (set s | s in stubs) == StubsOf(b, PinMinLayerOf(b, net.pins), net.id)
        && |stubs| == |PinMinLayerOf(b, net.pins)|
        && (forall i, j | 0 <= i < j < |stubs| :: stubs[i] != stubs[j])
    {
      rgm.SetGraphInfo(extent, net, originRoute);
      SetGraphInfoReady(extent, net, originRoute);
      var routeUnderMinLayer := rgm.CreateTerminalsAndRouteUnderMinLayer();
      stubs := routeUnderMinLayer;
      rgm.CreateGraph(supply, layerFactor, layerDir);
      GraphEdgesInBox(Layout(rgm.Box(), supply, layerFactor, layerDir));
      var res := solver(rgm.g, rgm.terminals);
      if res.None? {
        return [], false, stubs;
      }
      route := rgm.CreateFinalRoute(res.value, routeUnderMinLayer);
      ok := true;
    }

    /** Every routed net is known and can go through the routing stages with its stored route. */
    predicate RoutableNets(routes: map<NetId, NetRoute>)
    {
      forall id | id in routes ::
        id in nets && nets[id].id == id && Routable(extent, layerFactor, layerDir, nets[id], routes[id].route)
    }

    /** Rip-up and reroute: every routed net, cheapest first, is taken off the grid,
        routed again against the remaining demand, and put back; its stored route is
        replaced only by a strictly cheaper one. */
    method RerouteAll(supplyOf: GridState -> ((int, int, int) -> int),
                      routeCost: (GridState, NetId, seq<Segment>) -> int,
                      reduce: seq<Segment> -> seq<Segment>,
                      solver: (Graph, set<nat>) -> Option<seq<nat>>)
        returns (ghost order: seq<NetId>, ghost candidates: seq<seq<Segment>>, ghost states: seq<GridState>)
      requires SolverContract(solver) && RoutableNets(grid.netRoutes)
      modifies grid, rgm
      ensures NoWorse(old(grid.netRoutes), grid.netRoutes)
      ensures |candidates| == |order| && |states| == |order|
      ensures forall k | 0 <= k < |order| ::
        Visited(order, k, old(grid.netRoutes), old(grid.placed), routeCost, states[k], candidates[k], grid.netRoutes)
      ensures |order| == |old(grid.netRoutes)| && (forall id | id in order :: id in old(grid.netRoutes))
      ensures forall i, j | 0 <= i < j < |order| :: order[i] != order[j]
      ensures forall i, j | 0 <= i < j < |order| :: old(grid.netRoutes[order[i]].cost) <= old(grid.netRoutes[order[j]].cost)
      ensures grid.log == old(grid.log) + Visits(order)
      ensures grid.placed == old(grid.placed) + old(grid.netRoutes.Keys)
    {
      var netPtrs := SnapshotByCost();
      var ids := NetsOf(netPtrs);
      SweepOrder(netPtrs, grid.netRoutes);
      candidates, states := SweepNets(ids, supplyOf, routeCost, reduce, solver);
      order := ids;
    }

    /** The loop of `RerouteAll`: each net of `ids`, in turn, goes through `RerouteNet`. */
    method SweepNets(ids: seq<NetId>,
                     supplyOf: GridState -> ((int, int, int) -> int),
                     routeCost: (GridState, NetId, seq<Segment>) -> int,
                     reduce: seq<Segment> -> seq<Segment>,
                     solver: (Graph, set<nat>) -> Option<seq<nat>>)
        returns (ghost candidates: seq<seq<Segment>>, ghost states: seq<GridState>)
      requires SolverContract(solver) && RoutableNets(grid.netRoutes)
      requires forall i | 0 <= i < |ids| :: ids[i] in grid.netRoutes
      requires forall i, j | 0 <= i < j < |ids| :: ids[i] != ids[j]
      modifies grid, rgm
      ensures NoWorse(old(grid.netRoutes), grid.netRoutes)
      ensures |candidates| == |ids| && |states| == |ids|
      ensures forall k | 0 <= k < |ids| ::
        Visited(ids, k, old(grid.netRoutes), old(grid.placed), routeCost, states[k], candidates[k], grid.netRoutes)
      ensures grid.log == old(grid.log) + Visits(ids)
      ensures grid.placed == old(grid.placed) + Elements(ids)
    {
      ghost var routes0, placed0, log0 := grid.netRoutes, grid.placed, grid.log;
      candidates, states := [], [];
      var i := 0;
      while i < |ids|
        invariant 0 <= i <= |ids| && SweptUpTo(ids, i, routes0, placed0, log0, routeCost, candidates, states)
      {
        ghost var candidate, state := SweepStep(ids, i, routes0, placed0, log0, candidates, states,
                                                supplyOf, routeCost, reduce, solver);
        candidates, states := candidates + [candidate], states + [state];
        i := i + 1;
      }
      assert ids[..|ids|] == ids;
    }

    /** The grid after the first `i` nets of `ids` have been visited, with the record of
        each of those visits. */
    ghost predicate SweptUpTo(ids: seq<NetId>, i: nat, routes0: map<NetId, NetRoute>, placed0: set<NetId>,
                              log0: seq<GridEvent>, routeCost: (GridState, NetId, seq<Segment>) -> int,
                              candidates: seq<seq<Segment>>, states: seq<GridState>)
      reads grid
    {
      && i <= |ids| && |candidates| == i && |states| == i
      && (forall k | 0 <= k < i ::
            Visited(ids, k, routes0, placed0, routeCost, states[k], candidates[k], grid.netRoutes))
      && NoWorse(routes0, grid.netRoutes)
      && (forall j | i <= j < |ids| :: ids[j] in routes0 && grid.netRoutes[ids[j]] == routes0[ids[j]])
      && grid.log == log0 + Visits(ids[..i])
      && grid.placed == placed0 + Elements(ids[..i])
    }

    /** The body of the sweep's loop: visit the `i`-th net. */
    method SweepStep(ids: seq<NetId>, i: nat, ghost routes0: map<NetId, NetRoute>, ghost placed0: set<NetId>,
                     ghost log0: seq<GridEvent>, ghost candidates: seq<seq<Segment>>, ghost states: seq<GridState>,
                     supplyOf: GridState -> ((int, int, int) -> int),
                     routeCost: (GridState, NetId, seq<Segment>) -> int,
                     reduce: seq<Segment> -> seq<Segment>,
                     solver: (Graph, set<nat>) -> Option<seq<nat>>)
        returns (ghost candidate: seq<Segment>, ghost state: GridState)
      requires SolverContract(solver) && RoutableNets(routes0)
      requires forall j, k | 0 <= j < k < |ids| :: ids[j] != ids[k]
      requires i < |ids| && SweptUpTo(ids, i, routes0, placed0, log0, routeCost, candidates, states)
      modifies grid, rgm
      ensures SweptUpTo(ids, i + 1, routes0, placed0, log0, routeCost, candidates + [candidate], states + [state])
    {
      var id := ids[i];
      PrefixSnoc(ids, i);
      ghost var before, log1, placed1 := grid.netRoutes, grid.log, grid.placed;
      state := GridState(before, placed1 - {id});
      candidate := RerouteNet(id, supplyOf, routeCost, reduce, solver);
      NoWorseStep(routes0, before, grid.netRoutes, id);
      forall k | 0 <= k < i + 1
        ensures Visited(ids, k, routes0, placed0, routeCost, (states + [state])[k], (candidates + [candidate])[k],
                        grid.netRoutes)
      {
        if k < i {
          VisitedFrame(ids, k, routes0, placed0, routeCost, states[k], candidates[k], before, grid.netRoutes, id);
        }
      }
      LogStep(log0, log1, grid.log, ids[..i], id);
      PlacedStep(placed0, placed1, grid.placed, ids[..i], id);
    }

    /** The sweep's order: the (net, cost) snapshot sorted by ascending cost. */
    method SnapshotByCost() returns (netPtrs: seq<NetCost>)
      ensures |netPtrs| == |grid.netRoutes|
      ensures forall i | 0 <= i < |netPtrs| ::
        netPtrs[i].net in grid.netRoutes && netPtrs[i].cost == grid.netRoutes[netPtrs[i].net].cost
      ensures forall id | id in grid.netRoutes :: NetCost(id, grid.netRoutes[id].cost) in netPtrs
      ensures forall i, j | 0 <= i < j < |netPtrs| :: netPtrs[i].net != netPtrs[j].net
      ensures SortedByCost(netPtrs)
    {
      var snap := grid.Snapshot();
      netPtrs := SortByCost(snap);
      PermutationDistinct(snap, netPtrs);
      forall i | 0 <= i < |netPtrs|
        ensures netPtrs[i].net in grid.netRoutes && netPtrs[i].cost == grid.netRoutes[netPtrs[i].net].cost
      {
        assert netPtrs[i] in multiset(snap);
      }
      forall id | id in grid.netRoutes ensures NetCost(id, grid.netRoutes[id].cost) in netPtrs {
        assert NetCost(id, grid.netRoutes[id].cost) in multiset(snap);
      }
      forall i, j | 0 <= i < j < |netPtrs| ensures netPtrs[i].net != netPtrs[j].net {
        assert netPtrs[i] != netPtrs[j];
      }
      assert |multiset(netPtrs)| == |multiset(snap)|;
    }

    /** One step of the sweep, for the net `id`. */
    method RerouteNet(id: NetId,
                      supplyOf: GridState -> ((int, int, int) -> int),
                      routeCost: (GridState, NetId, seq<Segment>) -> int,
                      reduce: seq<Segment> -> seq<Segment>,
                      solver: (Graph, set<nat>) -> Option<seq<nat>>)
        returns (ghost candidate: seq<Segment>)
      requires SolverContract(solver) && id in grid.netRoutes && id in nets && nets[id].id == id
      requires Routable(extent, layerFactor, layerDir, nets[id], grid.netRoutes[id].route)
      modifies grid, rgm
      ensures grid.netRoutes.Keys == old(grid.netRoutes.Keys)
      ensures grid.netRoutes == old(grid.netRoutes)[id := grid.netRoutes[id]]
      ensures var cost := routeCost(GridState(old(grid.netRoutes), old(grid.placed) - {id}), id, candidate);
        grid.netRoutes[id] == if cost < old(grid.netRoutes[id].cost) then NetRoute(candidate, cost)
                              else old(grid.netRoutes[id])
      ensures grid.placed == old(grid.placed) + {id}
      ensures grid.log == old(grid.log) + [Removed(id), Added(id)]
    {
      var originRoute := grid.netRoutes[id];
      var routes := RipUpAndRoute(id, supplyOf, reduce, solver);
      candidate := routes;
      var cost := routeCost(grid.State(), id, routes);
      if cost < originRoute.cost {
        grid.SetRoute(id, NetRoute(routes, cost));
      }
      grid.AddNet(id);
    }

    /** The first half of a visit: the net's demand leaves the grid, the net is routed
        against what remains, and the new route's segments are merged by `reduce`. */
    method RipUpAndRoute(id: NetId,
                         supplyOf: GridState -> ((int, int, int) -> int),
                         reduce: seq<Segment> -> seq<Segment>,
                         solver: (Graph, set<nat>) -> Option<seq<nat>>)
        returns (routes: seq<Segment>)
      requires SolverContract(solver) && id in grid.netRoutes && id in nets
      requires Routable(extent, layerFactor, layerDir, nets[id], grid.netRoutes[id].route)
      modifies grid`placed, grid`log, rgm
      ensures grid.placed == old(grid.placed) - {id} && grid.log == old(grid.log) + [Removed(id)]
    {
      grid.RemoveNet(id);
      var route, _, _ := SingleNetRoute(nets[id], grid.netRoutes[id].route, supplyOf(grid.State()), solver);
      routes := reduce(route);
    }
  }

  /** The same nets are routed, each by its old route or by a strictly cheaper one. */
  predicate NoWorse(before: map<NetId, NetRoute>, after: map<NetId, NetRoute>)
  {
    && after.Keys == before.Keys
    && forall id | id in after :: after[id] == before[id] || after[id].cost < before[id].cost
  }

  /** Rerouting a net not yet touched keeps the sweep no worse than where it started. */
  lemma NoWorseStep(start: map<NetId, NetRoute>, before: map<NetId, NetRoute>, after: map<NetId, NetRoute>, id: NetId)
    requires NoWorse(start, before) && id in before && before[id] == start[id]
    requires id in after && after == before[id := after[id]]
    requires after[id] == before[id] || after[id].cost < before[id].cost
    ensures NoWorse(start, after)
  {
  }

  /** The record of the `k`-th visit of a sweep over `ids` that started from the routes
      `routes0` and the placed nets `placed0`: the candidate was priced in `state`, where
      the net itself is off the grid, every earlier net is on it and every later net
      still holds its starting route; the net now holds that candidate, at that price,
      exactly when the price is strictly below its starting cost, and its starting
      entry otherwise. */
  ghost predicate Visited(ids: seq<NetId>, k: nat, routes0: map<NetId, NetRoute>, placed0: set<NetId>,
                          routeCost: (GridState, NetId, seq<Segment>) -> int,
                          state: GridState, candidate: seq<Segment>, now: map<NetId, NetRoute>)
  {
    && k < |ids| && ids[k] in routes0 && ids[k] in now
    && state.placed == placed0 + Elements(ids[..k]) - {ids[k]}
    && NoWorse(routes0, state.routes)
    && (forall j | k <= j < |ids| :: ids[j] in state.routes && state.routes[ids[j]] == routes0[ids[j]])
    && var cost := routeCost(state, ids[k], candidate);
       now[ids[k]] == if cost < routes0[ids[k]].cost then NetRoute(candidate, cost) else routes0[ids[k]]
  }

  /** A visit's record survives the visits of other nets. */
  lemma VisitedFrame(ids: seq<NetId>, k: nat, routes0: map<NetId, NetRoute>, placed0: set<NetId>,
                     routeCost: (GridState, NetId, seq<Segment>) -> int,
                     state: GridState, candidate: seq<Segment>,
                     before: map<NetId, NetRoute>, after: map<NetId, NetRoute>, id: NetId)
    requires Visited(ids, k, routes0, placed0, routeCost, state, candidate, before)
    requires id in after && after == before[id := after[id]] && ids[k] != id
    ensures Visited(ids, k, routes0, placed0, routeCost, state, candidate, after)
  {
  }

  /** The net order of a snapshot sorted by cost: every routed net once, by ascending
      stored cost. */
  lemma SweepOrder(netPtrs: seq<NetCost>, routes: map<NetId, NetRoute>)
    requires |netPtrs| == |routes|
    requires forall i | 0 <= i < |netPtrs| ::
      netPtrs[i].net in routes && netPtrs[i].cost == routes[netPtrs[i].net].cost
    requires forall id | id in routes :: NetCost(id, routes[id].cost) in netPtrs
    requires forall i, j | 0 <= i < j < |netPtrs| :: netPtrs[i].net != netPtrs[j].net
    requires SortedByCost(netPtrs)
    ensures var order := NetsOf(netPtrs);
      && |order| == |routes| && Elements(order) == routes.Keys
      && (forall i, j | 0 <= i < j < |order| :: order[i] != order[j])
      && (forall i, j | 0 <= i < j < |order| :: routes[order[i]].cost <= routes[order[j]].cost)
  {
    var order := NetsOf(netPtrs);
    forall id | id in routes ensures id in Elements(order) {
      var j :| 0 <= j < |netPtrs| && netPtrs[j] == NetCost(id, routes[id].cost);
      assert order[j] == id;
    }
  }

  /** The nets occurring in `s`. */
  function Elements(s: seq<NetId>): set<NetId>
  {
    set id | id in s
  }

  lemma ElementsSnoc(s: seq<NetId>, id: NetId)
    ensures Elements(s + [id]) == Elements(s) + {id}
  {
  }

  function NetsOf(s: seq<NetCost>): (ids: seq<NetId>)
    ensures |ids| == |s| && forall i | 0 <= i < |s| :: ids[i] == s[i].net
  {
    seq(|s|, i requires 0 <= i < |s| => s[i].net)
  }
}
