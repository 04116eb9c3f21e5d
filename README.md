# Graph-approximation router: a Dafny model

This project models the localized Steiner-tree router of the ICCAD 2021 problem B
cell-move router (`GraphApproxRouter.cpp`). It covers two classes.

`RoutingGraphManager` is a per-net session object. For one net it does four things:

- computes a bounding box from the net's pins and its prior route, padded by 5
  rows/columns and 1 layer and clamped to the grid and to the net's minimum routing
  layer;
- builds a mixed-radix codec over the box;
- collects the terminal vertices and the "stubs", which are vertical segments that
  lift pins below the box floor up to it;
- builds a capacity-pruned routing graph:
  - wire edges along each layer's preferred direction;
  - via edges between consecutive layers;
  - no edge touching a cell without supply.

It then turns the solver's edge ids back into route segments.

`GraphApproxRouter` routes one net through those routing stages. Its `rerouteAll`
operation visits every routed net in ascending cost order. Each visit takes the
net's demand off the grid, routes the net again, keeps the new route only when it
is strictly cheaper, and puts the demand back.

One module per concept:

- `CoordinateCodec` (codec.dfy): the 3-D codec.
- `Design` (design.dfy): points, segments, nets, the grid extent, the box.
- `BoundingBox` (bounding_box.dfy): the box computation.
- `Terminals` (terminals.dfy): terminals and stubs.
- `WeightedGraph` (graph.dfy): the graph value.
- `GraphBuild` (graph_build.dfy): the graph's edges, as the builder's sweeps list them.
- `FinalRoute` (final_route.dfy): from edge ids to segments.
- `RoutingGraph` (routing_graph.dfy): the session class and its loops.
- `Router` (router.dfy): the router class, the grid manager's state and the rip-up-and-reroute sweep.

The stateful parts use imperative Dafny:

- The session object is a `class` whose methods update their fields.
- The builder's loops are `while` loops, proved against the pure functions that
  specify them (`FoldPins`, `TerminalsOf`, `PinMinLayerOf`, `ColSweep`/`RowSweep`/`LayerSweep`,
  `FinalRouteOf`).
- The properties of the code are lemmas about those functions.

The builder's three nested loops are specified by one generic concatenation `Span`,
whose membership and no-duplicate lemmas are proved once for every level.

Calls into the rest of the program are parameters:

- the grid supply of a cell (`supply`, or `supplyOf` a grid state);
- the route pricing (`routeCost`);
- `reduceRouteSegments` (`reduce`);
- the Steiner-tree solver (`solver`).

The solver is assumed only to return edge ids of the graph it was given (`SolverContract`).
Pins arrive already resolved to their cell's (row, column) and their pin layer.
The grid manager's demand bookkeeping is the set of nets whose demand is on the grid.
A ghost log records every removal and re-addition.

## Model

Every source cell refers to `src/lib/cell_move_router/Router/GraphApproxRouter.cpp`.

| member | source | states |
|---|---|---|
| CoordinateCodec.Codec.Decode | src/lib/cell_move_router/Router/GraphApproxRouter.cpp:86 | decoding an index below `max()` gives an offset inside the box whose encoding is that index |
| CoordinateCodec.DecodeEncode | src/lib/cell_move_router/Router/GraphApproxRouter.cpp:69-71 | decoding an encoded in-box offset gives the offset back |
| CoordinateCodec.EncodeInjective | src/lib/cell_move_router/Router/GraphApproxRouter.cpp:69-71 | two in-box offsets with the same index are equal, so distinct cells get distinct vertices |
| CoordinateCodec.MaxMonotone | src/lib/cell_move_router/Router/GraphApproxRouter.cpp:56-59 | a codec no larger in any dimension has no larger `max()`, which bounds every box's codec by the grid's |
| Design.ToU64 | src/lib/cell_move_router/Router/GraphApproxRouter.cpp:56-59 | the `unsigned long long` cast: below 2^64, the identity on non-negative values, plus 2^64 on small negative ones |
| Design.PointOfId | src/lib/cell_move_router/Router/GraphApproxRouter.cpp:86-88 | the point decoded from a cell's vertex id is that cell |
| Design.IdInjective | src/lib/cell_move_router/Router/GraphApproxRouter.cpp:105-107 | two cells of the box with the same vertex id are the same cell |
| BoundingBox.PadAndClamp | src/lib/cell_move_router/Router/GraphApproxRouter.cpp:49-54 | the padded box never leaves the grid's rows, columns and layer count, and its floor is at least the minimum routing layer |
| BoundingBox.BoxOf | src/lib/cell_move_router/Router/GraphApproxRouter.cpp:21-54 | the box `setGraphInfo` computes lies inside the grid and not below the minimum routing layer |
| BoundingBox.FoldPinsCovers | src/lib/cell_move_router/Router/GraphApproxRouter.cpp:28-38 | the pin loop only widens the running extremes, and afterwards every pin lies inside them |
| BoundingBox.FoldRouteCovers | src/lib/cell_move_router/Router/GraphApproxRouter.cpp:40-47 | the route loop only widens, and afterwards both ends of every normalised segment lie inside |
| BoundingBox.BoxContainsPins | src/lib/cell_move_router/Router/GraphApproxRouter.cpp:21-54 | every pin's row and column are in the box, its layer is not above the ceiling, and the pin lifted to the floor is in the box |
| BoundingBox.BoxContainsRoute | src/lib/cell_move_router/Router/GraphApproxRouter.cpp:40-54 | both ends of every prior segment are in the box's row and column ranges, and every segment's top layer is not above the ceiling |
| BoundingBox.BoxNonEmpty | src/lib/cell_move_router/Router/GraphApproxRouter.cpp:21-54 | a net with a pin or a prior segment inside the grid gets a non-empty box |
| BoundingBox.BelowFloorIffBelowMinLayer | src/lib/cell_move_router/Router/GraphApproxRouter.cpp:53 | a pin is below the box floor exactly when it is below the net's minimum routing layer |
| BoundingBox.BoxMargins | src/lib/cell_move_router/Router/GraphApproxRouter.cpp:49-54 | every pin and both ends of every prior segment keep 5 rows and columns and 1 layer of margin inside the box, cut only by the grid and the minimum routing layer; the ceiling is at least one layer above the minimum routing layer; with a pin below that layer, the floor is exactly that layer |
| BoundingBox.FoldPinsInGrid | src/lib/cell_move_router/Router/GraphApproxRouter.cpp:28-38 | the pin loop over pins of the grid keeps the running extremes inside the grid |
| BoundingBox.FoldRouteInGrid | src/lib/cell_move_router/Router/GraphApproxRouter.cpp:40-47 | the route loop over segments of the grid keeps the running extremes inside the grid |
| BoundingBox.SetGraphInfoInRange | src/lib/cell_move_router/Router/GraphApproxRouter.cpp:21-59 | on a valid extent every running extreme, every padded extreme before clamping and every codec span fits a 32-bit `int` |
| BoundingBox.EmptyNetBoxInverted | src/lib/cell_move_router/Router/GraphApproxRouter.cpp:21-54 | for a net with no pins and no prior route, the box's row range is inverted exactly when `rowEnd - rowBegin > 10`, its column range exactly when `colEnd - colBegin > 10`, its layer range exactly when `layerSz > minRoutingLayer + 2`; the box is empty exactly when one of the three holds, because the initial extremes are pulled back only by the padding |
| Terminals.TerminalPoint | src/lib/cell_move_router/Router/GraphApproxRouter.cpp:69-71 | a pin's terminal cell has the pin's row and column; its layer is the pin's layer, or the floor when the pin is below it; the cell is in the box |
| Terminals.TerminalsOf | src/lib/cell_move_router/Router/GraphApproxRouter.cpp:63-72 | the terminal set has at most as many elements as there are pins, and every element is below `max()` |
| Terminals.TerminalsOfIsImage | src/lib/cell_move_router/Router/GraphApproxRouter.cpp:65-72 | the terminal set is exactly the image of the pins under their terminal vertex |
| Terminals.TerminalsCoverPins | src/lib/cell_move_router/Router/GraphApproxRouter.cpp:65-72 | every pin's vertex is a terminal and decodes to the pin's lifted cell; every terminal comes from some pin |
| Terminals.PinMinLayerOf | src/lib/cell_move_router/Router/GraphApproxRouter.cpp:73-82 | every key of the pin-minimum-layer map is a vertex of the box |
| Terminals.PinMinLayerSpec | src/lib/cell_move_router/Router/GraphApproxRouter.cpp:73-82 | every pin below the floor has its floor key in the map with a layer at most its own; every key maps to the layer of some pin below the floor at that key |
| Terminals.KeysOnFloor | src/lib/cell_move_router/Router/GraphApproxRouter.cpp:74-75 | every recorded key decodes to a cell on the box floor |
| Terminals.StubOfInjective | src/lib/cell_move_router/Router/GraphApproxRouter.cpp:85-91 | different recorded keys give different stubs |
| Terminals.StubsRiseFromLowestPin | src/lib/cell_move_router/Router/GraphApproxRouter.cpp:85-91 | every stub is vertical, ends on the floor and belongs to the net; it starts at the layer of some pin below the floor at its row and column, and no such pin is lower |
| Terminals.StubsCoverLowPins | src/lib/cell_move_router/Router/GraphApproxRouter.cpp:73-91 | every pin below the floor has a stub at its row and column |
| Terminals.StubsEndAtMinRoutingLayer | src/lib/cell_move_router/Router/GraphApproxRouter.cpp:84-91 | in the box `setGraphInfo` computes, every stub starts below the net's minimum routing layer and ends exactly on it |
| Terminals.StubsDistinctCells | src/lib/cell_move_router/Router/GraphApproxRouter.cpp:76-80 | no two stubs share a row and column |
| GraphBuild.CellEdgeOrigin | src/lib/cell_move_router/Router/GraphApproxRouter.cpp:105-143 | every edge added at a cell starts at that cell's vertex |
| GraphBuild.CellEdgeTarget | src/lib/cell_move_router/Router/GraphApproxRouter.cpp:108-143 | a wire edge ends on its origin's layer and a via edge one layer up, at a valid vertex |
| GraphBuild.CellEdgesDistinct | src/lib/cell_move_router/Router/GraphApproxRouter.cpp:108-125 | a cell adds at most one edge (one wire edge, since a layer has one preferred direction, or one via edge), so never one twice |
| GraphBuild.SpanMembers | src/lib/cell_move_router/Router/GraphApproxRouter.cpp:100-146 | when each piece of a loop's output is keyed by its loop index, an edge is in the loop's output exactly when its key is in range and its own piece holds it |
| GraphBuild.SpanDistinct | src/lib/cell_move_router/Router/GraphApproxRouter.cpp:100-146 | keyed pieces without repeats concatenate to a sequence without repeats |
| GraphBuild.ColSweepMembers | src/lib/cell_move_router/Router/GraphApproxRouter.cpp:102-125 | an edge is added by the column loop exactly when its origin cell adds it and lies in that row and layer, left of the loop bound |
| GraphBuild.RowSweepMembers | src/lib/cell_move_router/Router/GraphApproxRouter.cpp:101-127 | an edge is added by the row loop exactly when its origin cell adds it and lies on that layer, above the row bound |
| GraphBuild.LayerSweepMembers | src/lib/cell_move_router/Router/GraphApproxRouter.cpp:100-146 | an edge is added by a layer sweep exactly when its origin cell adds it and lies below the layer bound |
| GraphBuild.GraphMembers | src/lib/cell_move_router/Router/GraphApproxRouter.cpp:96-146 | an edge is in the graph exactly when the wire sweep or the via sweep adds it at its origin cell |
| GraphBuild.GraphEdgeLegal | src/lib/cell_move_router/Router/GraphApproxRouter.cpp:103-143 | every edge joins two valid vertices whose cells have positive supply; it is one of two kinds. A wire one column east on an 'H' layer or one row south on a 'V' layer weighs twice the layer factor. A via one layer up weighs the sum of the two layers' factors |
| GraphBuild.GraphEdgesComplete | src/lib/cell_move_router/Router/GraphApproxRouter.cpp:100-146 | every pair of neighbouring cells with positive supply that qualifies gets its edge: east on 'H' layers, south on 'V' layers, and up below the top layer |
| GraphBuild.ColSweepDistinct | src/lib/cell_move_router/Router/GraphApproxRouter.cpp:102-125 | one row of a sweep adds no edge twice |
| GraphBuild.RowSweepDistinct | src/lib/cell_move_router/Router/GraphApproxRouter.cpp:101-127 | one layer of a sweep adds no edge twice |
| GraphBuild.LayerSweepDistinct | src/lib/cell_move_router/Router/GraphApproxRouter.cpp:100-146 | a whole sweep adds no edge twice |
| GraphBuild.GraphEdgesDistinct | src/lib/cell_move_router/Router/GraphApproxRouter.cpp:96-146 | the graph holds no edge twice; in particular no wire edge equals a via edge |
| FinalRoute.SegmentOf | src/lib/cell_move_router/Router/GraphApproxRouter.cpp:153-160 | the segment of an edge runs between the box cells its two vertex ids stand for, and belongs to the net |
| FinalRoute.FinalRouteOf | src/lib/cell_move_router/Router/GraphApproxRouter.cpp:148-163 | the final route is the stubs followed by exactly one segment per edge id, in the order of the ids |
| FinalRoute.GraphEdgesInBox | src/lib/cell_move_router/Router/GraphApproxRouter.cpp:96-146 | both ends of every graph edge are vertices of the box |
| FinalRoute.FinalRouteSteps | src/lib/cell_move_router/Router/GraphApproxRouter.cpp:148-163 | every segment after the stubs is one step between two supplied cells of the box: east on an 'H' layer, south on a 'V' layer, or one layer up |
| RoutingGraph.SetGraphInfoReady | src/lib/cell_move_router/Router/GraphApproxRouter.cpp:21-59 | for a net with a pin or a prior segment in a valid grid, the box is non-empty, the unsigned casts of the codec sizes do not wrap, the codec's `max()` (so every encoded index) is below 2^64, and every pin lies in the box |
| RoutingGraph.RoutingGraphManager.SetGraphInfo | src/lib/cell_move_router/Router/GraphApproxRouter.cpp:7-60 | after the call the stored box is the folded, padded and clamped box of the net and its prior route, and the codec is `CastCodec` of that box: its row, column and layer spans, each cast to `unsigned long long` as at :56-59 (`SetGraphInfoReady` shows the casts do not wrap) |
| RoutingGraph.RoutingGraphManager.WidenByPins | src/lib/cell_move_router/Router/GraphApproxRouter.cpp:28-38 | the pin loop leaves the pin fold of the extremes it started from |
| RoutingGraph.RoutingGraphManager.WidenByRoute | src/lib/cell_move_router/Router/GraphApproxRouter.cpp:40-47 | the route loop leaves the route fold of the extremes it started from |
| RoutingGraph.RoutingGraphManager.PadAndClampExtremes | src/lib/cell_move_router/Router/GraphApproxRouter.cpp:49-54 | the fields become the padded and clamped box |
| RoutingGraph.RoutingGraphManager.CreateTerminalsAndRouteUnderMinLayer | src/lib/cell_move_router/Router/GraphApproxRouter.cpp:61-93 | the terminal set and the pin-minimum-layer map become their specification functions of the pins; the returned stubs are exactly the map's stubs, one per key, without repeats |
| RoutingGraph.RoutingGraphManager.CreateGraph | src/lib/cell_move_router/Router/GraphApproxRouter.cpp:94-147 | the graph becomes a graph with `max()` vertices and exactly the edges of the two sweeps, in order |
| RoutingGraph.RoutingGraphManager.CreateFinalRoute | src/lib/cell_move_router/Router/GraphApproxRouter.cpp:148-163 | the result is the stubs followed by one segment per edge id |
| RoutingGraph.ScanPins | src/lib/cell_move_router/Router/GraphApproxRouter.cpp:65-83 | the pin loop computes the terminal set and the pin-minimum-layer map of all the pins |
| RoutingGraph.EmitStubs | src/lib/cell_move_router/Router/GraphApproxRouter.cpp:84-92 | the stub loop emits one stub per key of the map, covering exactly the map's stubs, with no stub twice |
| RoutingGraph.EmitStep | src/lib/cell_move_router/Router/GraphApproxRouter.cpp:85-91 | visiting one more key keeps the stub loop's state: every stub matches its key, and no stub repeats |
| RoutingGraph.StubsOfEmitted | src/lib/cell_move_router/Router/GraphApproxRouter.cpp:85-91 | stubs emitted for a list of keys that covers the map form exactly the map's stub set |
| RoutingGraph.BuildGraph | src/lib/cell_move_router/Router/GraphApproxRouter.cpp:96-146 | clearing the graph and running the wire sweep then the via sweep gives exactly the graph's edge list |
| RoutingGraph.SweepLayers | src/lib/cell_move_router/Router/GraphApproxRouter.cpp:100-146 | a sweep's outer loop appends exactly that sweep's edges to the graph, keeping its vertex count |
| RoutingGraph.SweepLayer | src/lib/cell_move_router/Router/GraphApproxRouter.cpp:101-127 | the row loop appends exactly one layer's edges |
| RoutingGraph.SweepRow | src/lib/cell_move_router/Router/GraphApproxRouter.cpp:102-126 | the column loop appends exactly one row's edges |
| RoutingGraph.AddWireEdges | src/lib/cell_move_router/Router/GraphApproxRouter.cpp:103-125 | the wire body appends exactly the cell's wire edges |
| RoutingGraph.AddViaEdge | src/lib/cell_move_router/Router/GraphApproxRouter.cpp:133-143 | the via body appends exactly the cell's via edge, or nothing |
| RoutingGraph.EncodePoint | src/lib/cell_move_router/Router/GraphApproxRouter.cpp:105-107 | encoding a cell's offset from the box origin gives a vertex below `max()` that decodes back to the cell |
| RoutingGraph.DecodePoint | src/lib/cell_move_router/Router/GraphApproxRouter.cpp:154-159 | decoding a vertex id and shifting it back by the box origin gives a cell of the box whose vertex id is that id |
| Router.GridManager.RemoveNet | src/lib/cell_move_router/Router/GraphApproxRouter.cpp:197 | the net's demand leaves the grid and the removal is logged |
| Router.GridManager.AddNet | src/lib/cell_move_router/Router/GraphApproxRouter.cpp:204 | the net's demand is back on the grid and the re-addition is logged |
| Router.GridManager.SetRoute | src/lib/cell_move_router/Router/GraphApproxRouter.cpp:202 | only the net's entry of the net-route map changes |
| Router.GridManager.Snapshot | src/lib/cell_move_router/Router/GraphApproxRouter.cpp:184-187 | the snapshot has one (net, stored cost) pair per routed net, each exactly once |
| Router.CostsOf | src/lib/cell_move_router/Router/GraphApproxRouter.cpp:184-187 | the loop over the net-route map collects one (net, stored cost) pair per key, without repeats |
| Router.CostsStep | src/lib/cell_move_router/Router/GraphApproxRouter.cpp:185-186 | taking one more key keeps the snapshot loop's state |
| Router.InsertByCost | src/lib/cell_move_router/Router/GraphApproxRouter.cpp:188-193 | insertion adds exactly the one element to the multiset |
| Router.InsertSorted | src/lib/cell_move_router/Router/GraphApproxRouter.cpp:188-193 | inserting into an ascending snapshot keeps it ascending |
| Router.SortByCost | src/lib/cell_move_router/Router/GraphApproxRouter.cpp:188-193 | the sorted snapshot is ascending in cost and a permutation of the input |
| Router.PermutationDistinct | src/lib/cell_move_router/Router/GraphApproxRouter.cpp:193 | sorting a snapshot without repeats leaves none |
| Router.Visits | src/lib/cell_move_router/Router/GraphApproxRouter.cpp:194-205 | visiting n nets produces 2n grid events |
| Router.VisitsAt | src/lib/cell_move_router/Router/GraphApproxRouter.cpp:197-204 | the k-th visited net is removed at event 2k and re-added at event 2k+1 |
| Router.VisitsCount | src/lib/cell_move_router/Router/GraphApproxRouter.cpp:194-205 | each net is removed, and re-added, exactly as often as it occurs in the visit order |
| Router.GraphApproxRouter.SingleNetRoute | src/lib/cell_move_router/Router/GraphApproxRouter.cpp:165-181 | the solver is called on the pruned graph of the net's box with the net's terminals. On failure the result is `([], false)`. Otherwise it is `true` with the stubs followed by one segment per solved edge id. The stubs are one per recorded (row, col), without repeats |
| Router.GraphApproxRouter.RerouteAll | src/lib/cell_move_router/Router/GraphApproxRouter.cpp:183-206 | every routed net is visited exactly once, in ascending order of its stored cost. Each visit removes the net and then re-adds it. For the k-th visited net, a candidate is priced in the state of its visit: the net itself off the grid, every earlier net on it, every later net still with its starting route. The net ends with that candidate exactly when its price is strictly below the starting cost, and with its starting entry otherwise. So every net keeps its route or has a strictly cheaper one. Every routed net's demand is on the grid |
| Router.GraphApproxRouter.SweepNets | src/lib/cell_move_router/Router/GraphApproxRouter.cpp:194-205 | the loop over the sorted nets keeps routes no worse, records for each visit the state its candidate was priced in and applies the accept rule to it, logs each visit's removal and re-addition, and puts every visited net back on the grid |
| Router.GraphApproxRouter.SweepStep | src/lib/cell_move_router/Router/GraphApproxRouter.cpp:195-204 | one iteration extends the loop state by one visited net and its record; the records of earlier visits stay true |
| Router.GraphApproxRouter.SnapshotByCost | src/lib/cell_move_router/Router/GraphApproxRouter.cpp:184-193 | the sorted snapshot holds every routed net exactly once with its stored cost, in ascending cost |
| Router.GraphApproxRouter.RerouteNet | src/lib/cell_move_router/Router/GraphApproxRouter.cpp:195-204 | one visit changes only the net's own entry. The candidate route is priced on the state with the net's demand off the grid; the entry becomes the candidate at that price exactly when the price is strictly below the old cost, and stays otherwise. The net ends up on the grid with its removal and re-addition logged |
| Router.GraphApproxRouter.RipUpAndRoute | src/lib/cell_move_router/Router/GraphApproxRouter.cpp:196-199 | the net's demand is off the grid while it is rerouted, and the removal is logged |
| Router.VisitedFrame | src/lib/cell_move_router/Router/GraphApproxRouter.cpp:194-205 | a visit's record stays true while other nets are visited |
| Router.NoWorseStep | src/lib/cell_move_router/Router/GraphApproxRouter.cpp:201-203 | replacing an untouched net's route by itself or by a strictly cheaper one keeps the sweep no worse than at its start |
| Router.SweepOrder | src/lib/cell_move_router/Router/GraphApproxRouter.cpp:188-194 | the net order of the sorted snapshot lists every routed net once, by ascending stored cost |

## Left out

- CoordinateCodec.hpp is not part of this model. The codec is modelled as a mixed-radix
  code with the row varying slowest and the layer fastest. Every property above uses
  only its round trip and its bound `max()`, not its layout.
- RegionCalculator.hpp is not used by this core and is not modelled.
- The grid manager is not part of this model. Cell supply (`supplyOf`), route pricing
  (`getRouteCost`) and `reduceRouteSegments` become function parameters. Pin
  positions arrive already resolved to (row, col, layer) points in `Net.pins`;
  `getCellCoordinate` is not modelled. The demand of a net is one member of a set of placed nets, and
  the supply depends on the grid state only through `supplyOf`.
- The Steiner-tree solver is a parameter. The only assumption about it is that a
  result holds valid edge ids of the graph it was given. Its optimality is not modelled.
- Router.GraphApproxRouter.RipUpAndRoute: does not state that the returned route is
  `reduce` applied to the route `SingleNetRoute` found. The router's properties only
  need the pricing done after it, and stating it would put the heavy router contract
  into every caller.
- Router.GraphApproxRouter.RerouteNet: the candidate route is a ghost output. Its contract
  fixes the accept rule for that candidate, but does not say that it is the route
  `RipUpAndRoute` returned, for the same reason.
- Router.GraphApproxRouter.RerouteAll: the per-visit candidates and grid states are ghost
  outputs. No contract ties a candidate to the route the net is actually rerouted
  with (see `RerouteNet` and `RipUpAndRoute`), so the accept rule is stated for
  whatever route was priced. The states' routes of already visited nets are bounded
  by no-worse only, not fixed entry by entry.
- Router.GraphApproxRouter.SingleNetRoute: returns the stubs as a ghost output, because the
  order the pin-minimum-layer map is walked in depends on a container type this
  model does not see. The contract fixes the stub set, the stub count and the absence
  of repeats, but not the order.
- Router.CostsOf: the snapshot is taken in an unspecified order, for the same reason.
- Router.SortByCost: uses insertion, which settles ties in one particular way;
  `std::sort` may order nets of equal cost differently. The sweep's contract
  (ascending, a permutation) holds for every such order.
- Fixed-width arithmetic. A valid extent (`ValidExtent`) leaves room for the padding
  and the spans in a 32-bit `int`; on such an extent no `int` value of `setGraphInfo`
  overflows (`SetGraphInfoInRange`). A valid extent also has fewer than 2^64 cells, so
  the codec's `max()` and every `encode` result fit their 64-bit unsigned types
  (`SetGraphInfoReady`); the model's codec itself is unbounded. A grid closer than 5
  cells to the limits of `int`, or with 2^64 cells or more, is outside the model. Offsets from the box origin are non-negative inside the box,
  so the model leaves their `unsigned long long` casts out. The casts of the codec
  sizes are modelled (`ToU64`) and shown not to wrap for routable nets on a valid
  extent. The `long long` edge weights and route costs are unbounded integers, so
  overflow is not modelled.
- A net with neither pins nor a prior route can give an inverted box: it does exactly
  when `rowEnd - rowBegin > 10`, `colEnd - colBegin > 10` or
  `layerSz > minRoutingLayer + 2` (`EmptyNetBoxInverted`). The routing stages are
  modelled only for nets with at least one of the two (`Routable`).
- `LayerDir.at(L)` and `LayerFactor.at(L)` would throw beyond the tables. The model
  requires the tables to cover every layer index of the grid.
- When routing fails, the source still prices the empty route and would keep it if it
  were cheaper. The model does the same. Whether the pricing can make an empty route
  cheaper is up to `getRouteCost`, which is not part of this model.
- The comparator `A.second < B.second` (:188-193) sorts ascending, cheapest net first;
  the model does the same.
- Concurrency and I/O: none in this core.
