/** Which wires a solution keeps apart: source ports, both ports of fixed connections, and channels the hardware has. */
module RouteIsolation {
  import opened SwitchGraph
  import opened FlowBalance
  import opened RouteConstraints
  import opened RouteWalk
  import opened RouteTrace
  import opened RouteSolution
  import opened RouteProperties
  import opened ChannelUse
  import opened RouteGuarantees
  import opened RouterObject

  /** Some source drives the port, on the way to a destination or because it is one. */
  ghost predicate Drives(solution: map<PathEndPoint, Settings>, n: Switchbox, p: Port) {
    exists src :: src in solution && n in solution[src] && p in solution[src][n].dsts
  }

  ghost predicate IsDestination(flows: seq<Flow>, n: Switchbox, p: Port) {
    exists f :: f in flows && f.1 == PathEndPoint(n, p)
  }

  /** The edge ends at the wires the port listens to. */
  ghost predicate EndsAt(g: Graph, e: Edge, end: PathEndPoint) {
    e in g.edges && e.1 == end.sb && ConnectingBundle(g.edges[e].bundle) == end.port.bundle
  }

  /** Some source drives the port on the other side of the wires this port listens to. */
  ghost predicate Arrives(g: Graph, solution: map<PathEndPoint, Settings>, end: PathEndPoint) {
    exists e :: EndsAt(g, e, end) && Drives(solution, e.0, Port(g.edges[e].bundle, end.port.channel))
  }

  /** A port is driven exactly when it is a destination or handed out on the way to one. */
  lemma DrivesIff(grid: Graph, flows: seq<Flow>, fixed: ChannelSets, paths: seq<FlowPath>,
                  solution: map<PathEndPoint, Settings>, n: Switchbox, p: Port)
    requires Guaranteed(grid, flows, fixed, paths, solution)
    ensures Drives(solution, n, p) <==> IsDestination(flows, n, p) || Driven(flows, solution, n, p)
  {
    if f :| f in flows && f.1 == PathEndPoint(n, p) {
      assert Delivered(solution[f.0], f.0, f.1);
    }
    if src :| src in solution && n in solution[src] && p in solution[src][n].dsts {
      assert (src, PathEndPoint(n, p)) !in flows ==> Forwards(flows, solution, src, n, p);
    }
    if src :| Forwards(flows, solution, src, n, p) {
      assert src in solution && n in solution[src] && p in solution[src][n].dsts;
    }
  }

  lemma OneEdgeEnds(g: Graph, end: PathEndPoint, e: Edge, e': Edge)
    requires WellFormed(g) && EndsAt(g, e, end) && EndsAt(g, e', end)
    ensures e == e'
  {
    WireHasTwoEnds(e.0, g.edges[e].bundle);
    WireHasTwoEnds(e'.0, g.edges[e'].bundle);
    BundleDeterminesEdge(g, e, e');
  }

  /** Data arrives at a port behind a grid edge exactly when a destination faces it or its channel is due there. */
  lemma ArrivesIff(grid: Graph, flows: seq<Flow>, fixed: ChannelSets, paths: seq<FlowPath>,
                   solution: map<PathEndPoint, Settings>, end: PathEndPoint, e: Edge)
    requires Guaranteed(grid, flows, fixed, paths, solution) && EndsAt(grid, e, end)
    ensures Arrives(grid, solution, end) <==>
      || end.port.channel in DestinationChannels(flows, KeyOf(grid, e))
      || Due(grid, flows, fixed, paths, e, end.port.channel)
  {
    var p := Port(grid.edges[e].bundle, end.port.channel);
    DrivesIff(grid, flows, fixed, paths, solution, e.0, p);
    FacesIff(grid, flows, e, p);
    hide Due, Driven, Drives, IsDestination, DestinationChannels, AllDelivered, Isolated, WithinHardware;
    forall e' | EndsAt(grid, e', end) ensures e' == e {
      OneEdgeEnds(grid, end, e, e');
    }
  }

  lemma FacesIff(g: Graph, flows: seq<Flow>, e: Edge, p: Port)
    requires e in g.edges && p.bundle == g.edges[e].bundle
    ensures IsDestination(flows, e.0, p) <==> p.channel in DestinationChannels(flows, KeyOf(g, e))
  {
    if p.channel in DestinationChannels(flows, KeyOf(g, e)) {
      var f :| f in flows && (f.1.sb, f.1.port.bundle) == KeyOf(g, e) && f.1.port.channel == p.channel;
      assert f.1 == PathEndPoint(e.0, p);
    }
  }

  // ----- source ports

  ghost predicate SourcesIsolated(g: Graph, flows: seq<Flow>, solution: map<PathEndPoint, Settings>) {
    forall f :: f in flows ==> !Arrives(g, solution, f.0)
  }

  /** The channel of the source port is neither due on the edge that ends there nor that of a destination port there. */
  ghost predicate KeptFree(g: Graph, flows: seq<Flow>, fixed: ChannelSets, paths: seq<FlowPath>, f: Flow, e: Edge)
    requires e in g.edges
  {
    && f.0.port.channel !in DestinationChannels(flows, KeyOf(g, e))
    && !Due(g, flows, fixed, paths, e, f.0.port.channel)
  }

  /** No data of any flow arrives at a source port exactly when those behind grid edges are kept free. */
  lemma SourcesIsolatedIff(grid: Graph, flows: seq<Flow>, fixed: ChannelSets, paths: seq<FlowPath>,
                           solution: map<PathEndPoint, Settings>)
    requires Guaranteed(grid, flows, fixed, paths, solution)
    ensures SourcesIsolated(grid, flows, solution) <==>
      forall f, e :: f in flows && EndsAt(grid, e, f.0) ==> KeptFree(grid, flows, fixed, paths, f, e)
  {
    hide Guaranteed, Due, Drives, DestinationChannels;
    forall f, e | f in flows && EndsAt(grid, e, f.0)
      ensures KeptFree(grid, flows, fixed, paths, f, e) <==> !Arrives(grid, solution, f.0)
    {
      ArrivesIff(grid, flows, fixed, paths, solution, f.0, e);
    }
  }

  // ----- fixed connections

  /** The fixed connection sets this channel aside. */
  ghost predicate SetsAside(g: Graph, c: FixedConnection, key: Key, ch: int) {
    if OutgoingEdges(g, c.tile, c.rhs.bundle) != {} then key == (c.tile, c.rhs.bundle) && ch == c.rhs.channel
    else
      && IncomingEdges(g, c.tile, ConnectingBundle(c.lhs.bundle)) != {}
      && key == (Neighbor(c.tile, c.lhs.bundle), ConnectingBundle(c.lhs.bundle)) && ch == c.lhs.channel
  }

  lemma {:induction false} InFixedTable(g: Graph, cs: seq<FixedConnection>, key: Key, ch: int)
    ensures ch in UsedOn(FixedTable(g, cs), key) <==> exists c :: c in cs && SetsAside(g, c, key, ch)
  {
    if cs != [] {
      InFixedTable(g, cs[..|cs| - 1], key, ch);
      hide OutgoingEdges, IncomingEdges;
      assert cs == cs[..|cs| - 1] + [cs[|cs| - 1]];
      var last := cs[|cs| - 1];
      assert ch in UsedOn(FixedTable(g, cs), key) <==>
        ch in UsedOn(FixedTable(g, cs[..|cs| - 1]), key) || SetsAside(g, last, key, ch);
      hide SetsAside;
    }
  }

  /** Data is sent out through the port a fixed connection drives exactly when that port is a destination. */
  lemma FixedOutgoingIff(grid: Graph, flows: seq<Flow>, cs: seq<FixedConnection>, paths: seq<FlowPath>,
                         solution: map<PathEndPoint, Settings>, c: FixedConnection)
    requires Guaranteed(grid, flows, FixedTable(grid, cs), paths, solution) && c in cs
    ensures Drives(solution, c.tile, c.rhs) <==> IsDestination(flows, c.tile, c.rhs)
  {
    DrivesIff(grid, flows, FixedTable(grid, cs), paths, solution, c.tile, c.rhs);
    if src :| Forwards(flows, solution, src, c.tile, c.rhs) {
      var e := (c.tile, Neighbor(c.tile, c.rhs.bundle));
      assert e in OutgoingEdges(grid, c.tile, c.rhs.bundle);
      InFixedTable(grid, cs, (c.tile, c.rhs.bundle), c.rhs.channel);
    }
  }

  /** Data arrives at the port a fixed connection listens to exactly when a destination faces it, or no fixed connection
      sets its channel aside on the wires there and fewer free channels lie below it than sources will use the edge. */
  lemma FixedIncomingIff(grid: Graph, flows: seq<Flow>, cs: seq<FixedConnection>, paths: seq<FlowPath>,
                         solution: map<PathEndPoint, Settings>, c: FixedConnection, e: Edge)
    requires Guaranteed(grid, flows, FixedTable(grid, cs), paths, solution) && c in cs
    requires EndsAt(grid, e, PathEndPoint(c.tile, c.lhs))
    ensures Arrives(grid, solution, PathEndPoint(c.tile, c.lhs)) <==>
      || c.lhs.channel in DestinationChannels(flows, KeyOf(grid, e))
      || (
        && c.lhs.channel >= 0
        && !(exists d :: d in cs && SetsAside(grid, d, KeyOf(grid, e), c.lhs.channel))
        && |FreeBelow(TakenAtStart(grid, flows, FixedTable(grid, cs), e), c.lhs.channel)| < |UsersOf(paths, e)|)
  {
    ArrivesIff(grid, flows, FixedTable(grid, cs), paths, solution, PathEndPoint(c.tile, c.lhs), e);
    InFixedTable(grid, cs, KeyOf(grid, e), c.lhs.channel);
    hide Guaranteed, Arrives, FixedTable, UsedOn, FreeBelow, UsersOf, SetsAside, EndsAt, DestinationChannels;
  }

  /** When the outgoing side is not a grid edge, the incoming one is set aside, and data arrives there only for a
      destination that faces it. */
  lemma FixedIncomingSetAside(grid: Graph, flows: seq<Flow>, cs: seq<FixedConnection>, paths: seq<FlowPath>,
                              solution: map<PathEndPoint, Settings>, c: FixedConnection)
    requires Guaranteed(grid, flows, FixedTable(grid, cs), paths, solution) && c in cs
    requires OutgoingEdges(grid, c.tile, c.rhs.bundle) == {}
    ensures Arrives(grid, solution, PathEndPoint(c.tile, c.lhs)) <==> exists e ::
      && EndsAt(grid, e, PathEndPoint(c.tile, c.lhs))
      && c.lhs.channel in DestinationChannels(flows, KeyOf(grid, e))
  {
    var end := PathEndPoint(c.tile, c.lhs);
    forall e | EndsAt(grid, e, end)
      ensures Arrives(grid, solution, end) <==> c.lhs.channel in DestinationChannels(flows, KeyOf(grid, e))
    {
      WireHasTwoEnds(e.0, grid.edges[e].bundle);
      assert e in IncomingEdges(grid, c.tile, ConnectingBundle(c.lhs.bundle));
      assert SetsAside(grid, c, KeyOf(grid, e), c.lhs.channel);
      hide Guaranteed, Arrives, SetsAside, FixedTable, DestinationChannels;
      FixedIncomingIff(grid, flows, cs, paths, solution, c, e);
    }
  }

  // ----- channels the hardware has

  /** From every number on there is a next free one. */
  lemma NextFree(taken: set<int>, from: int) returns (c: int)
    ensures c >= from && c !in taken && forall x :: from <= x < c ==> x in taken
    decreases taken
  {
    if from in taken {
      c := NextFree(taken - {from}, from + 1);
    } else {
      c := from;
    }
  }

  /** The channels handed out on an edge are all below a size exactly when the sources that use it are no more than the
      channels below that size that were free at the start. */
  lemma ChannelsFitIff(grid: Graph, flows: seq<Flow>, fixed: ChannelSets, paths: seq<FlowPath>,
                       solution: map<PathEndPoint, Settings>, e: Edge, size: nat)
    requires HandsOutDue(grid, flows, fixed, paths, solution) && e in grid.edges
    ensures (forall c: int :: Driven(flows, solution, e.0, Port(grid.edges[e].bundle, c)) ==> 0 <= c < size)
      <==> |UsersOf(paths, e)| <= |FreeBelow(TakenAtStart(grid, flows, fixed, e), size)|
  {
    hide Driven, UsersOf, TakenAtStart;
    var taken, users := TakenAtStart(grid, flows, fixed, e), UsersOf(paths, e);
    forall c: int ensures Driven(flows, solution, e.0, Port(grid.edges[e].bundle, c)) <==>
      c >= 0 && c !in taken && |FreeBelow(taken, c)| < |users|
    {
      assert Due(grid, flows, fixed, paths, e, c) <==> c >= 0 && c !in taken && |FreeBelow(taken, c)| < |users|;
    }
    if |users| <= |FreeBelow(taken, size)| {
      forall c: int | Driven(flows, solution, e.0, Port(grid.edges[e].bundle, c)) ensures 0 <= c < size {
        if c >= size {
          SubsetSize(FreeBelow(taken, size), FreeBelow(taken, c));
        }
      }
    } else {
      var c := NextFree(taken, size);
      assert FreeBelow(taken, c) == FreeBelow(taken, size);
      assert Driven(flows, solution, e.0, Port(grid.edges[e].bundle, c));
    }
  }
}
