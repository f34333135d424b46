/** What the router guarantees about a solution, in terms of flows and grid alone, and why every run meets it. */
module RouteGuarantees {
  import opened Options
  import opened SwitchGraph
  import opened FlowBalance
  import opened RouteConstraints
  import opened RouteWalk
  import opened RouteTrace
  import opened RouteSolution
  import opened RouteProperties
  import opened ChannelUse

  function OutgoingEdges(g: Graph, tile: Switchbox, b: WireBundle): set<Edge> {
    set e | e in g.edges && g.edges[e].bundle == b && e.0 == tile
  }

  function IncomingEdges(g: Graph, tile: Switchbox, b: WireBundle): set<Edge> {
    set e | e in g.edges && g.edges[e].bundle == b && e.1 == tile
  }

  /** One channel of an edge is set aside. */
  ghost predicate Reserved(g: Graph, used: ChannelSets, e: Edge, ch: int, g': Graph, used': ChannelSets) {
    && e in g.edges
    && var d := g.edges[e];
      && g' == Graph(g.nodes, g.edges[e := EdgeData(d.bundle, d.capacity - 1)])
      && used' == used[(e.0, d.bundle) := UsedOn(used, (e.0, d.bundle)) + {ch}]
  }

  ghost predicate WithinBudget(grid: Graph, g: Graph, used: ChannelSets, e: Edge)
    requires e in g.edges && e in grid.edges
  {
    && g.edges[e].bundle == grid.edges[e].bundle
    && |UsedOn(used, (e.0, g.edges[e].bundle))| + g.edges[e].capacity <= grid.edges[e].capacity
  }

  /** On every edge, what is left and what is taken together stay within what the hardware has. */
  ghost predicate Budget(grid: Graph, g: Graph, used: ChannelSets) {
    && g.nodes == grid.nodes && g.edges.Keys == grid.edges.Keys
    && forall e :: e in g.edges ==> WithinBudget(grid, g, used, e)
  }

  lemma ReservedKeepsEdge(grid: Graph, g: Graph, used: ChannelSets, e: Edge, ch: int, g': Graph, used': ChannelSets,
                          f: Edge)
    requires WellFormed(g) && Reserved(g, used, e, ch, g', used') && f in g.edges && f in grid.edges
    requires WithinBudget(grid, g, used, f)
    ensures WithinBudget(grid, g', used', f)
  {
    var key := (e.0, g.edges[e].bundle);
    UnionSize(UsedOn(used, key), {ch});
    if f != e && (f.0, g.edges[f].bundle) == key {
      BundleDeterminesEdge(g, e, f);
    }
  }

  /** Reserving keeps the budget, also when the channel had been reserved from the other end of the wire. */
  lemma ReservedKeepsBudget(grid: Graph, g: Graph, used: ChannelSets, e: Edge, ch: int, g': Graph, used': ChannelSets)
    requires WellFormed(g) && Budget(grid, g, used) && Reserved(g, used, e, ch, g', used')
    ensures WellFormed(g') && Budget(grid, g', used')
  {
    forall f | f in g'.edges ensures f in g.edges && WithinBudget(grid, g', used', f) {
      ReservedKeepsEdge(grid, g, used, e, ch, g', used', f);
    }
  }

  lemma OnlyOne<T>(s: set<T>)
    requires s != {} && forall x, y :: x in s && y in s ==> x == y
    ensures |s| == 1
  {
    var x :| x in s;
    assert s == {x};
  }

  /** No destination port lies on a bundle that has a grid edge. */
  ghost predicate EndpointsOffGrid(g: Graph, flows: seq<Flow>) {
    forall f, e :: f in flows && e in g.edges ==> (e.0, g.edges[e].bundle) != (f.1.sb, f.1.port.bundle)
  }

  ghost predicate AllDelivered(flows: seq<Flow>, solution: map<PathEndPoint, Settings>) {
    forall f :: f in flows ==> f.0 in solution && Delivered(solution[f.0], f.0, f.1)
  }

  /** What `src` drives on `n` beyond the destinations asked for. */
  ghost predicate Forwards(flows: seq<Flow>, solution: map<PathEndPoint, Settings>, src: PathEndPoint, n: Switchbox,
                           p: Port) {
    && src in solution && n in solution[src] && p in solution[src][n].dsts
    && (src, PathEndPoint(n, p)) !in flows
  }

  /** The channels of the destination ports on one bundle. */
  ghost function DestinationChannels(flows: seq<Flow>, key: Key): set<int> {
    set f | f in flows && (f.1.sb, f.1.port.bundle) == key :: f.1.port.channel
  }

  /** Every hop is a grid edge, on a channel below what the edge has plus the destination ports on its bundle. */
  ghost predicate WithinHardware(grid: Graph, flows: seq<Flow>, solution: map<PathEndPoint, Settings>) {
    forall src, n, p :: Forwards(flows, solution, src, n, p) ==>
      && (n, Neighbor(n, p.bundle)) in grid.edges
      && grid.edges[(n, Neighbor(n, p.bundle))].bundle == p.bundle
      && 0 <= p.channel
        < grid.edges[(n, Neighbor(n, p.bundle))].capacity + |DestinationChannels(flows, (n, p.bundle))|
  }

  /** With no destination port on a grid bundle, every hop is on a channel the hardware has. */
  lemma OffGridHopsExist(grid: Graph, flows: seq<Flow>, solution: map<PathEndPoint, Settings>,
                         src: PathEndPoint, n: Switchbox, p: Port)
    requires WithinHardware(grid, flows, solution) && EndpointsOffGrid(grid, flows)
    requires Forwards(flows, solution, src, n, p)
    ensures (n, Neighbor(n, p.bundle)) in grid.edges
    ensures 0 <= p.channel < grid.edges[(n, Neighbor(n, p.bundle))].capacity
  {
    assert DestinationChannels(flows, (n, p.bundle)) == {};
  }

  /** Hops collide neither with fixed connections, nor with any destination, nor with each other. */
  ghost predicate Isolated(flows: seq<Flow>, fixed: ChannelSets, solution: map<PathEndPoint, Settings>) {
    && (forall src, n, p :: Forwards(flows, solution, src, n, p) ==>
      && p.channel !in UsedOn(fixed, (n, p.bundle))
      && (forall f :: f in flows ==> f.1 != PathEndPoint(n, p)))
    && (forall src, src', n, p | Forwards(flows, solution, src, n, p) && Forwards(flows, solution, src', n, p) ::
      src == src')
  }

  // ----- every run meets it

  /** The paths are those of the distinct flows, one each, in order. */
  ghost predicate PathsOf(flows: seq<Flow>, paths: seq<FlowPath>) {
    |paths| == |DictKeys(flows)| && forall k :: 0 <= k < |paths| ==> paths[k].0 == DictKeys(flows)[k]
  }

  /** No new flow follows a repetition, so that every flow's variables carry its own constraints. */
  ghost predicate Aligned(flows: seq<Flow>) {
    && |DictKeys(flows)| <= |flows|
    && forall k :: 0 <= k < |DictKeys(flows)| ==> flows[k] == DictKeys(flows)[k]
  }

  /** Every answer for aligned flows can be traced, though it may fork. */
  lemma ReturnedIsRoutable(g: Graph, order: seq<Edge>, flows: seq<Flow>, status: Status, paths: seq<FlowPath>)
    requires Aligned(flows) && CpReturns(g, order, flows, false, status, paths)
    ensures Routable(g, paths) && PathsOf(flows, paths)
    ensures forall e :: e in g.edges ==> Demand(EdgeSets(paths), e) <= g.edges[e].capacity
  {
    hide FlowPosted;
    forall f | f in paths ensures FlowPosted(g, f.0.0.sb, f.0.1.sb, f.1) {
      var k :| 0 <= k < |paths| && paths[k] == f;
      assert FlowPosted(g, flows[k].0.sb, flows[k].1.sb, EdgeSets(paths)[k]);
    }
  }

  ghost predicate NoForks(paths: seq<FlowPath>) {
    forall f :: f in paths ==> f.0.0.sb != f.0.1.sb && UnforkedRoute(f.1, f.0.0.sb, f.0.1.sb)
  }

  /** Without forks no assertion fails. */
  lemma NoForksIsTraced(paths: seq<FlowPath>)
    requires NoForks(paths)
    ensures AllTraced(paths)
  {
    forall src | src in Sources(paths) ensures TreeOf(paths, src).Some? {
      DestinationsAreFlows(paths, src);
      forall d | d in DestinationsOf(paths, src) ensures src.sb != d.0.sb && UnforkedRoute(d.1, src.sb, d.0.sb) {
        assert ((src, d.0), d.1) in paths;
      }
      UnforkedAreTraced(src.sb, DestinationsOf(paths, src));
    }
  }

  /** An optimal answer has none. */
  lemma OptimalIsTraced(g: Graph, order: seq<Edge>, flows: seq<Flow>, paths: seq<FlowPath>)
    requires WellFormed(g) && forall e :: e in g.edges ==> e in order
    requires Aligned(flows) && CpReturns(g, order, flows, false, OPTIMAL, paths)
    ensures AllTraced(paths)
  {
    forall f | f in paths ensures f.0.0.sb != f.0.1.sb && UnforkedRoute(f.1, f.0.0.sb, f.0.1.sb) {
      var k :| 0 <= k < |paths| && paths[k] == f;
      OptimalIsRoute(g, order, flows, EdgeSets(paths), false, k);
      RouteIsUnforked(f.1, f.0.0.sb, f.0.1.sb);
    }
    NoForksIsTraced(paths);
  }

  lemma FlowHasPath(flows: seq<Flow>, paths: seq<FlowPath>, f: Flow) returns (path: FlowPath)
    requires PathsOf(flows, paths) && f in flows
    ensures path in paths && path.0 == f
  {
    DictKeysAreDistinct(flows);
    var k :| 0 <= k < |DictKeys(flows)| && DictKeys(flows)[k] == f;
    path := paths[k];
  }

  lemma RunDelivers(g: Graph, flows: seq<Flow>, paths: seq<FlowPath>, solution: map<PathEndPoint, Settings>,
                    trees: seq<Tree>, ranks: seq<Ranks>, history: seq<ChannelSets>)
    requires WellFormed(g) && PathsOf(flows, paths)
    requires Routed(g, paths, DictKeys(Sources(paths)), solution, trees, ranks, history)
    ensures AllDelivered(flows, solution)
  {
    forall f | f in flows ensures f.0 in solution && Delivered(solution[f.0], f.0, f.1) {
      var path := FlowHasPath(flows, paths, f);
      FlowsDelivered(g, paths, solution, trees, ranks, history, path);
    }
  }

  /** A hop belongs to one source of the run, and is a hop of its settings. */
  lemma HopOfSource(flows: seq<Flow>, paths: seq<FlowPath>, solution: map<PathEndPoint, Settings>,
                    src: PathEndPoint, n: Switchbox, p: Port) returns (i: nat)
    requires PathsOf(flows, paths) && (forall s :: s in solution <==> s in Sources(paths))
    requires Forwards(flows, solution, src, n, p)
    ensures i < |DictKeys(Sources(paths))| && DictKeys(Sources(paths))[i] == src
    ensures IsHop(paths, src, solution[src], n, p)
  {
    DictKeysAreDistinct(Sources(paths));
    i :| 0 <= i < |DictKeys(Sources(paths))| && DictKeys(Sources(paths))[i] == src;
    if PathEndPoint(n, p) in EndPoints(DestinationsOf(paths, src)) {
      EndIsListed(flows, paths, src, PathEndPoint(n, p));
    }
  }

  lemma EndIsListed(flows: seq<Flow>, paths: seq<FlowPath>, src: PathEndPoint, end: PathEndPoint)
    requires PathsOf(flows, paths) && end in EndPoints(DestinationsOf(paths, src))
    ensures (src, end) in flows
  {
    EndIsFlow(paths, src, end);
    var f :| f in paths && f.0 == (src, end);
    var k :| 0 <= k < |paths| && paths[k] == f;
    DictKeysAreDistinct(flows);
    assert DictKeys(flows)[k] == (src, end);
  }

  lemma RunIsolates(g: Graph, flows: seq<Flow>, paths: seq<FlowPath>, fixed: ChannelSets,
                    solution: map<PathEndPoint, Settings>, trees: seq<Tree>, ranks: seq<Ranks>,
                    history: seq<ChannelSets>)
    requires WellFormed(g) && PathsOf(flows, paths) && (forall s :: s in solution <==> s in Sources(paths))
    requires Routed(g, paths, DictKeys(Sources(paths)), solution, trees, ranks, history)
    requires history[0] == WithEndpoints(fixed, paths)
    ensures Isolated(flows, fixed, solution)
  {
    forall src, n, p | Forwards(flows, solution, src, n, p)
      ensures p.channel !in UsedOn(fixed, (n, p.bundle))
      ensures forall f :: f in flows ==> f.1 != PathEndPoint(n, p)
    {
      var i := HopOfSource(flows, paths, solution, src, n, p);
      HopsAvoidReserved(g, paths, solution, trees, ranks, history, fixed, i, n, p);
      forall f | f in flows ensures f.1 != PathEndPoint(n, p) {
        var path := FlowHasPath(flows, paths, f);
      }
    }
    forall src, src', n, p | Forwards(flows, solution, src, n, p) && Forwards(flows, solution, src', n, p)
      ensures src == src'
    {
      var i := HopOfSource(flows, paths, solution, src, n, p);
      var j := HopOfSource(flows, paths, solution, src', n, p);
      if i < j {
        SourcesNeverShareWires(g, paths, solution, trees, ranks, history, fixed, i, j, n, p);
      } else if j < i {
        SourcesNeverShareWires(g, paths, solution, trees, ranks, history, fixed, j, i, n, p);
      }
    }
  }

  /** The channels of the destination ports are those of the paths. */
  lemma SameDestinationChannels(flows: seq<Flow>, paths: seq<FlowPath>, key: Key)
    requires PathsOf(flows, paths)
    ensures EndpointChannels(paths, key) == DestinationChannels(flows, key)
  {
    DictKeysAreDistinct(flows);
    forall f | f in paths ensures f.0 in flows {
      var k :| 0 <= k < |paths| && paths[k] == f;
      assert DictKeys(flows)[k] == f.0;
    }
    forall f | f in flows ensures exists path :: path in paths && path.0 == f {
      var path := FlowHasPath(flows, paths, f);
    }
  }

  lemma ReservedAtStart(flows: seq<Flow>, paths: seq<FlowPath>, fixed: ChannelSets, key: Key)
    requires PathsOf(flows, paths)
    ensures |UsedOn(WithEndpoints(fixed, paths), key)| <= |UsedOn(fixed, key)| + |DestinationChannels(flows, key)|
  {
    EndpointsTaken(fixed, paths, key);
    SameDestinationChannels(flows, paths, key);
    UnionSize(UsedOn(fixed, key), EndpointChannels(paths, key));
  }

  lemma RunFitsHardware(grid: Graph, g: Graph, flows: seq<Flow>, paths: seq<FlowPath>, fixed: ChannelSets,
                        solution: map<PathEndPoint, Settings>, trees: seq<Tree>, ranks: seq<Ranks>,
                        history: seq<ChannelSets>)
    requires WellFormed(g) && Budget(grid, g, fixed)
    requires PathsOf(flows, paths) && (forall s :: s in solution <==> s in Sources(paths))
    requires forall e :: e in g.edges ==> Demand(EdgeSets(paths), e) <= g.edges[e].capacity
    requires Routed(g, paths, DictKeys(Sources(paths)), solution, trees, ranks, history)
    requires history[0] == WithEndpoints(fixed, paths)
    ensures WithinHardware(grid, flows, solution)
  {
    forall src, n, p | Forwards(flows, solution, src, n, p)
      ensures (n, Neighbor(n, p.bundle)) in grid.edges
      ensures grid.edges[(n, Neighbor(n, p.bundle))].bundle == p.bundle
      ensures 0 <= p.channel
        < grid.edges[(n, Neighbor(n, p.bundle))].capacity + |DestinationChannels(flows, (n, p.bundle))|
    {
      var i := HopOfSource(flows, paths, solution, src, n, p);
      var c := HopChannelBound(g, paths, solution, trees, ranks, history, i, n, p);
      ReservedAtStart(flows, paths, fixed, (n, p.bundle));
      assert WithinBudget(grid, g, fixed, (n, c));
    }
  }

  // ----- exactly which channels are handed out

  /** Some source drives the port on the way to a destination. */
  ghost predicate Driven(flows: seq<Flow>, solution: map<PathEndPoint, Settings>, n: Switchbox, p: Port) {
    exists src :: Forwards(flows, solution, src, n, p)
  }

  /** What is taken on an edge before the first path is traced. */
  ghost function TakenAtStart(g: Graph, flows: seq<Flow>, fixed: ChannelSets, e: Edge): set<int>
    requires e in g.edges
  {
    UsedOn(fixed, KeyOf(g, e)) + DestinationChannels(flows, KeyOf(g, e))
  }

  /** A channel is free at the start, and fewer free ones lie below it than sources will use the edge. */
  ghost predicate Due(g: Graph, flows: seq<Flow>, fixed: ChannelSets, paths: seq<FlowPath>, e: Edge, c: int)
    requires e in g.edges
  {
    var taken := TakenAtStart(g, flows, fixed, e);
    c >= 0 && c !in taken && |FreeBelow(taken, c)| < |UsersOf(paths, e)|
  }

  /** On every edge the channels handed out are exactly those that are due. */
  ghost predicate HandsOutDue(g: Graph, flows: seq<Flow>, fixed: ChannelSets, paths: seq<FlowPath>,
                              solution: map<PathEndPoint, Settings>) {
    forall e, c: int :: e in g.edges ==>
      (Driven(flows, solution, e.0, Port(g.edges[e].bundle, c)) <==> Due(g, flows, fixed, paths, e, c))
  }

  /** What a solution guarantees, in terms of the flows, the channels of fixed connections and the paths. */
  ghost predicate Guaranteed(grid: Graph, flows: seq<Flow>, fixed: ChannelSets, paths: seq<FlowPath>,
                             solution: map<PathEndPoint, Settings>) {
    && WellFormed(grid)
    && AllDelivered(flows, solution)
    && Isolated(flows, fixed, solution)
    && WithinHardware(grid, flows, solution)
    && HandsOutDue(grid, flows, fixed, paths, solution)
  }

  lemma HopIsTraced(g: Graph, flows: seq<Flow>, paths: seq<FlowPath>, fixed: ChannelSets,
                    solution: map<PathEndPoint, Settings>, trees: seq<Tree>, ranks: seq<Ranks>,
                    history: seq<ChannelSets>, src: PathEndPoint, e: Edge, c: int) returns (i: nat)
    requires WellFormed(g) && PathsOf(flows, paths) && (forall s :: s in solution <==> s in Sources(paths))
    requires Routed(g, paths, DictKeys(Sources(paths)), solution, trees, ranks, history)
    requires history[0] == WithEndpoints(fixed, paths) && e in g.edges
    requires Forwards(flows, solution, src, e.0, Port(g.edges[e].bundle, c))
    ensures i < |trees| == |DictKeys(Sources(paths))| && DictKeys(Sources(paths))[i] == src
    ensures UsesEdge(trees[i], e) && trees[i].channel[e.1] == c
  {
    hide Routed, WellFormed, PathsOf, DictKeys, Sources, UsesEdge;
    RunLengths(g, paths, solution, trees, ranks, history);
    i := HopOfSource(flows, paths, solution, src, e.0, Port(g.edges[e].bundle, c));
    HopIff(g, paths, solution, trees, ranks, history, fixed, i, e, c);
  }

  lemma TracedIsHop(g: Graph, flows: seq<Flow>, paths: seq<FlowPath>, fixed: ChannelSets,
                    solution: map<PathEndPoint, Settings>, trees: seq<Tree>, ranks: seq<Ranks>,
                    history: seq<ChannelSets>, i: nat, e: Edge)
    requires WellFormed(g) && PathsOf(flows, paths)
    requires Routed(g, paths, DictKeys(Sources(paths)), solution, trees, ranks, history)
    requires history[0] == WithEndpoints(fixed, paths) && e in g.edges
    requires i < |trees| && UsesEdge(trees[i], e)
    ensures |trees| == |DictKeys(Sources(paths))| && DictKeys(Sources(paths))[i] in solution
    ensures Forwards(flows, solution, DictKeys(Sources(paths))[i], e.0, Port(g.edges[e].bundle, trees[i].channel[e.1]))
  {
    var src, p := DictKeys(Sources(paths))[i], Port(g.edges[e].bundle, trees[i].channel[e.1]);
    HopIff(g, paths, solution, trees, ranks, history, fixed, i, e, trees[i].channel[e.1]);
    hide Routed, WellFormed, UsesEdge;
    if (src, PathEndPoint(e.0, p)) in flows {
      var path := FlowHasPath(flows, paths, (src, PathEndPoint(e.0, p)));
      var j := SourceIndex(paths, path);
    }
  }

  lemma SameStart(g: Graph, flows: seq<Flow>, paths: seq<FlowPath>, fixed: ChannelSets, e: Edge)
    requires PathsOf(flows, paths) && e in g.edges
    ensures UsedOn(WithEndpoints(fixed, paths), KeyOf(g, e)) == TakenAtStart(g, flows, fixed, e)
  {
    EndpointsTaken(fixed, paths, KeyOf(g, e));
    SameDestinationChannels(flows, paths, KeyOf(g, e));
  }

  lemma DrivenIff(g: Graph, flows: seq<Flow>, paths: seq<FlowPath>, fixed: ChannelSets,
                  solution: map<PathEndPoint, Settings>, trees: seq<Tree>, ranks: seq<Ranks>,
                  history: seq<ChannelSets>, e: Edge, c: int)
    requires WellFormed(g) && PathsOf(flows, paths) && (forall s :: s in solution <==> s in Sources(paths))
    requires Routed(g, paths, DictKeys(Sources(paths)), solution, trees, ranks, history)
    requires history[0] == WithEndpoints(fixed, paths) && e in g.edges
    ensures Driven(flows, solution, e.0, Port(g.edges[e].bundle, c)) <==> c in Handed(trees, e, |trees|)
  {
    hide Routed, WellFormed, PathsOf, DictKeys, Sources, Forwards, Handed;
    InHanded(trees, e, |trees|, c);
    if src :| Forwards(flows, solution, src, e.0, Port(g.edges[e].bundle, c)) {
      var i := HopIsTraced(g, flows, paths, fixed, solution, trees, ranks, history, src, e, c);
    }
    if k :| 0 <= k < |trees| && UsesEdge(trees[k], e) && trees[k].channel[e.1] == c {
      TracedIsHop(g, flows, paths, fixed, solution, trees, ranks, history, k, e);
    }
  }

  /** Every run hands out exactly the channels that are due. */
  lemma RunHandsOutDue(g: Graph, flows: seq<Flow>, paths: seq<FlowPath>, fixed: ChannelSets,
                       solution: map<PathEndPoint, Settings>, trees: seq<Tree>, ranks: seq<Ranks>,
                       history: seq<ChannelSets>)
    requires WellFormed(g) && PathsOf(flows, paths) && (forall s :: s in solution <==> s in Sources(paths))
    requires Routed(g, paths, DictKeys(Sources(paths)), solution, trees, ranks, history)
    requires history[0] == WithEndpoints(fixed, paths)
    ensures HandsOutDue(g, flows, fixed, paths, solution)
  {
    hide Routed, WellFormed, PathsOf, DictKeys, Sources, Driven, Handed;
    hide UsersOf, TakenAtStart, FreeBelow, UsedOn;
    forall e, c: int | e in g.edges
      ensures Driven(flows, solution, e.0, Port(g.edges[e].bundle, c)) <==> Due(g, flows, fixed, paths, e, c)
    {
      DrivenIff(g, flows, paths, fixed, solution, trees, ranks, history, e, c);
      HandedIff(g, paths, solution, trees, ranks, history, e, c);
      SameStart(g, flows, paths, fixed, e);
    }
  }

  /** What is due depends only on the shape of the graph, not on the capacities that are left. */
  lemma SameShape(grid: Graph, g: Graph, flows: seq<Flow>, fixed: ChannelSets, paths: seq<FlowPath>,
                  solution: map<PathEndPoint, Settings>)
    requires WellFormed(g) && Budget(grid, g, fixed) && HandsOutDue(g, flows, fixed, paths, solution)
    ensures WellFormed(grid) && HandsOutDue(grid, flows, fixed, paths, solution)
  {
    hide Driven, UsersOf;
    forall e | e in g.edges ensures g.edges[e].bundle == grid.edges[e].bundle {
      assert WithinBudget(grid, g, fixed, e);
    }
  }

  /** Every complete run meets all of it. */
  lemma RunIsGuaranteed(grid: Graph, g: Graph, flows: seq<Flow>, paths: seq<FlowPath>, fixed: ChannelSets,
                        solution: map<PathEndPoint, Settings>, now: ChannelSets, trees: seq<Tree>, ranks: seq<Ranks>,
                        history: seq<ChannelSets>)
    requires WellFormed(g) && Budget(grid, g, fixed) && PathsOf(flows, paths)
    requires forall e :: e in g.edges ==> Demand(EdgeSets(paths), e) <= g.edges[e].capacity
    requires IsRun(g, paths, WithEndpoints(fixed, paths), now, solution, trees, ranks, history)
    ensures Guaranteed(grid, flows, fixed, paths, solution)
  {
    hide WellFormed, Budget, PathsOf, Routed, Sources, DictKeys, WithEndpoints, AllDelivered, Isolated, WithinHardware,
      HandsOutDue;
    RunDelivers(g, flows, paths, solution, trees, ranks, history);
    RunIsolates(g, flows, paths, fixed, solution, trees, ranks, history);
    RunFitsHardware(grid, g, flows, paths, fixed, solution, trees, ranks, history);
    RunHandsOutDue(g, flows, paths, fixed, solution, trees, ranks, history);
    SameShape(grid, g, flows, fixed, paths, solution);
  }
}
