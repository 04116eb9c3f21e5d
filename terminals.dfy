/** Terminal vertices of a net and the stubs that connect pins below the box
    floor straight up to it. */
module Terminals {
  import opened CoordinateCodec
  import opened Design
  import opened BoundingBox

  /** The pin's (row, col) lies in the box and its layer is not above the box ceiling. */
  predicate PinInBox(b: Box, p: Point)
  {
    b.NonEmpty() && b.minR <= p.row <= b.maxR && b.minC <= p.col <= b.maxC && p.layer <= b.maxL
  }

  predicate PinsInBox(b: Box, pins: seq<Point>)
  {
    b.NonEmpty() && forall p | p in pins :: PinInBox(b, p)
  }

  /** The pin's location with its layer lifted to the box floor. */
  function TerminalPoint(b: Box, p: Point): (t: Point)
    requires PinInBox(b, p)
    ensures b.Contains(t) && t.row == p.row && t.col == p.col
    ensures t.layer == if p.layer < b.minL then b.minL else p.layer
  {
    Point(p.row, p.col, Max(p.layer, b.minL))
  }

  function Terminal(b: Box, p: Point): nat
    requires PinInBox(b, p)
  {
    b.Id(TerminalPoint(b, p))
  }

  /** The key under which a pin below the floor is recorded: its (row, col) at the floor. */
  function StubKey(b: Box, p: Point): nat
    requires PinInBox(b, p)
  {
    b.Id(Point(p.row, p.col, b.minL))
  }

  /** The terminal set after scanning `pins` in order: duplicates collapse. */
  function TerminalsOf(b: Box, pins: seq<Point>): (ts: set<nat>)
    requires PinsInBox(b, pins)
    ensures |ts| <= |pins|
    ensures forall t | t in ts :: t < b.Codec().Max()
    decreases |pins|
  {
    if pins == [] then {}
    else
      assert pins[|pins| - 1] in pins;
      TerminalsOf(b, pins[..|pins| - 1]) + {Terminal(b, pins[|pins| - 1])}
  }

  /** The map from floor key to the lowest below-floor pin layer seen at that (row, col). */
  function PinMinLayerOf(b: Box, pins: seq<Point>): (m: map<nat, int>)
    requires PinsInBox(b, pins)
    ensures KeysInRange(b, m)
    decreases |pins|
  {
    if pins == [] then map[]
    else
      var m := PinMinLayerOf(b, pins[..|pins| - 1]);
      var p := pins[|pins| - 1];
      assert p in pins;
      if p.layer < b.minL then
        var k := StubKey(b, p);
        if k in m then m[k := Min(m[k], p.layer)] else m[k := p.layer]
      else m
  }

  /** The stub for one recorded (row, col): a vertical segment from `layer` up to the floor. */
  function StubOf(b: Box, k: nat, layer: int, net: NetId): Segment
    requires b.NonEmpty() && k < b.Codec().Max()
  {
    var q := b.PointOf(k);
    Segment(Point(q.row, q.col, layer), Point(q.row, q.col, b.minL), net)
  }

  predicate KeysInRange(b: Box, m: map<nat, int>)
  {
    b.NonEmpty() && forall k | k in m :: k < b.Codec().Max()
  }

  /** The stubs emitted for the keys `ks` of `m`. */
  function StubsOver(b: Box, m: map<nat, int>, ks: set<nat>, net: NetId): set<Segment>
    requires KeysInRange(b, m)
  {
    set k | k in ks && k in m :: StubOf(b, k, m[k], net)
  }

  function StubsOf(b: Box, m: map<nat, int>, net: NetId): set<Segment>
    requires KeysInRange(b, m)
  {
    StubsOver(b, m, m.Keys, net)
  }

  // ---------------------------------------------------------------------
  // Properties

  /** The terminal set is the image of the pins under `Terminal`. */
  lemma {:induction false} TerminalsOfIsImage(b: Box, pins: seq<Point>)
    requires PinsInBox(b, pins)
    ensures TerminalsOf(b, pins) == set p | p in pins :: Terminal(b, p)
    decreases |pins|
  {
    if pins != [] {
      var init := pins[..|pins| - 1];
      var last := pins[|pins| - 1];
      TerminalsOfIsImage(b, init);
      assert pins == init + [last];
      assert (set p | p in pins :: Terminal(b, p))
          == (set p | p in init :: Terminal(b, p)) + {Terminal(b, last)};
    }
  }

  /** Every pin's terminal is in the set, at the pin's (row, col) and lifted layer. */
  lemma TerminalsCoverPins(b: Box, pins: seq<Point>)
    requires PinsInBox(b, pins)
    ensures forall p | p in pins ::
      Terminal(b, p) in TerminalsOf(b, pins) && b.PointOf(Terminal(b, p)) == TerminalPoint(b, p)
    ensures forall t | t in TerminalsOf(b, pins) :: exists p | p in pins :: Terminal(b, p) == t
  {
    TerminalsOfIsImage(b, pins);
    forall p | p in pins ensures b.PointOf(Terminal(b, p)) == TerminalPoint(b, p) {
      PointOfId(b, TerminalPoint(b, p));
    }
  }

  /** What the pin-minimum-layer map records: a key for each (row, col) holding a pin
      below the floor, mapped to the lowest such pin layer there. */
  lemma {:induction false} PinMinLayerSpec(b: Box, pins: seq<Point>)
    requires PinsInBox(b, pins)
    ensures var m := PinMinLayerOf(b, pins);
      && KeysInRange(b, m)
      && (forall p | p in pins && p.layer < b.minL :: StubKey(b, p) in m && m[StubKey(b, p)] <= p.layer)
      && (forall k | k in m :: exists p | p in pins && p.layer < b.minL :: StubKey(b, p) == k && m[k] == p.layer)
    decreases |pins|
  {
    if pins != [] {
      var init := pins[..|pins| - 1];
      var last := pins[|pins| - 1];
      assert pins == init + [last];
      PinMinLayerSpec(b, init);
      var m0 := PinMinLayerOf(b, init);
      var m := PinMinLayerOf(b, pins);
      forall p | p in pins && p.layer < b.minL
        ensures StubKey(b, p) in m && m[StubKey(b, p)] <= p.layer
      {
        if p != last {
          assert p in init;
        }
      }
      forall k | k in m
        ensures exists p | p in pins && p.layer < b.minL :: StubKey(b, p) == k && m[k] == p.layer
      {
        if last.layer < b.minL && k == StubKey(b, last) {
          if k in m0 && m0[k] < last.layer {
            var p :| p in init && p.layer < b.minL && StubKey(b, p) == k && m0[k] == p.layer;
            assert p in pins;
          } else {
            assert m[k] == last.layer;
          }
        } else {
          var p :| p in init && p.layer < b.minL && StubKey(b, p) == k && m0[k] == p.layer;
          assert p in pins;
        }
      }
    }
  }

  /** A recorded key stands for a point on the box floor. */
  lemma KeysOnFloor(b: Box, pins: seq<Point>, k: nat)
    requires PinsInBox(b, pins) && k in PinMinLayerOf(b, pins)
    ensures k < b.Codec().Max() && b.PointOf(k).layer == b.minL
  {
    PinMinLayerSpec(b, pins);
    var p :| p in pins && p.layer < b.minL && StubKey(b, p) == k;
    PointOfId(b, Point(p.row, p.col, b.minL));
  }

  /** Different recorded keys give different stubs. */
  lemma StubOfInjective(b: Box, pins: seq<Point>, net: NetId, k1: nat, k2: nat)
    requires PinsInBox(b, pins)
    requires k1 in PinMinLayerOf(b, pins) && k2 in PinMinLayerOf(b, pins)
    requires var m := PinMinLayerOf(b, pins); StubOf(b, k1, m[k1], net) == StubOf(b, k2, m[k2], net)
    ensures k1 == k2
  {
    KeysOnFloor(b, pins, k1);
    KeysOnFloor(b, pins, k2);
    assert b.PointOf(k1) == b.PointOf(k2);
  }

  /** Every stub is vertical, ends at the floor, and starts at the lowest below-floor
      pin layer of its (row, col); that is, it stands for some pin below the floor. */
  lemma StubsRiseFromLowestPin(b: Box, pins: seq<Point>, net: NetId, s: Segment)
    requires PinsInBox(b, pins) && s in StubsOf(b, PinMinLayerOf(b, pins), net)
    ensures s.s.row == s.e.row && s.s.col == s.e.col && s.e.layer == b.minL && s.net == net
    ensures exists p | p in pins :: p.layer < b.minL && p.row == s.s.row && p.col == s.s.col && p.layer == s.s.layer
    ensures forall p | p in pins && p.layer < b.minL && p.row == s.s.row && p.col == s.s.col :: s.s.layer <= p.layer
  {
    PinMinLayerSpec(b, pins);
    var m := PinMinLayerOf(b, pins);
    var k :| k in m && s == StubOf(b, k, m[k], net);
    var p :| p in pins && p.layer < b.minL && StubKey(b, p) == k && m[k] == p.layer;
    PointOfId(b, Point(p.row, p.col, b.minL));
    forall p' | p' in pins && p'.layer < b.minL && p'.row == s.s.row && p'.col == s.s.col
      ensures s.s.layer <= p'.layer
    {
      assert StubKey(b, p') == k;
    }
  }

  /** Every pin below the floor has a stub at its (row, col). */
  lemma StubsCoverLowPins(b: Box, pins: seq<Point>, net: NetId, p: Point)
    requires PinsInBox(b, pins) && p in pins && p.layer < b.minL
    ensures exists s | s in StubsOf(b, PinMinLayerOf(b, pins), net) :: s.s.row == p.row && s.s.col == p.col
  {
    PinMinLayerSpec(b, pins);
    var m := PinMinLayerOf(b, pins);
    var k := StubKey(b, p);
    PointOfId(b, Point(p.row, p.col, b.minL));
    assert StubOf(b, k, m[k], net) in StubsOf(b, m, net);
  }

  /** No two stubs share a (row, col). */
  lemma StubsDistinctCells(b: Box, pins: seq<Point>, net: NetId, s1: Segment, s2: Segment)
    requires PinsInBox(b, pins)
    requires s1 in StubsOf(b, PinMinLayerOf(b, pins), net) && s2 in StubsOf(b, PinMinLayerOf(b, pins), net)
    requires s1.s.row == s2.s.row && s1.s.col == s2.s.col
    ensures s1 == s2
  {
    var m := PinMinLayerOf(b, pins);
    var k1 :| k1 in m && s1 == StubOf(b, k1, m[k1], net);
    var k2 :| k2 in m && s2 == StubOf(b, k2, m[k2], net);
    KeysOnFloor(b, pins, k1);
    KeysOnFloor(b, pins, k2);
    assert b.PointOf(k1) == b.PointOf(k2);
  }

  /** In the box `setGraphInfo` computes, every stub runs from a pin below the net's
      minimum routing layer and ends exactly on that layer. */
  lemma StubsEndAtMinRoutingLayer(g: GridExtent, net: Net, route: seq<Segment>, s: Segment)
    requires NetInGrid(g, net) && RouteInGrid(g, route)
    requires PinsInBox(BoxOf(g, net, route), net.pins)
    requires s in StubsOf(BoxOf(g, net, route), PinMinLayerOf(BoxOf(g, net, route), net.pins), net.id)
    ensures s.s.layer < net.minRoutingLayer && s.e.layer == net.minRoutingLayer
  {
    var b := BoxOf(g, net, route);
    StubsRiseFromLowestPin(b, net.pins, net.id, s);
    var p :| p in net.pins && p.layer < b.minL && p.row == s.s.row && p.col == s.s.col && p.layer == s.s.layer;
    BelowFloorIffBelowMinLayer(g, net, route, p);
    BoxMargins(g, net, route);
  }
}
