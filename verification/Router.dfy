/** The router object: fixed connections, flows, and the routing solution it computes once. */
module RouterObject {
  import opened Options
  import opened SwitchGraph
  import opened RouteConstraints
  import opened RouteWalk
  import opened RouteTrace
  import opened RouteSolution
  import opened RouteGuarantees

  /** A connection inside a switchbox that is there before routing. */
  datatype FixedConnection = FixedConnection(tile: Switchbox, lhs: Port, rhs: Port)

  /** The channels a list of fixed connections sets aside: on the outgoing wire, or else on the incoming one. */
  function FixedTable(g: Graph, cs: seq<FixedConnection>): ChannelSets {
    if cs == [] then map[] else
      var m, c := FixedTable(g, cs[..|cs| - 1]), cs[|cs| - 1];
      if OutgoingEdges(g, c.tile, c.rhs.bundle) != {} then
        var key := (c.tile, c.rhs.bundle);
        m[key := UsedOn(m, key) + {c.rhs.channel}]
      else if IncomingEdges(g, c.tile, ConnectingBundle(c.lhs.bundle)) != {} then
        var key := (Neighbor(c.tile, c.lhs.bundle), ConnectingBundle(c.lhs.bundle));
        m[key := UsedOn(m, key) + {c.lhs.channel}]
      else m
  }

  /** The edge into a tile on one side starts at the neighbour on that side. */
  lemma IncomingComesFrom(g: Graph, tile: Switchbox, b: WireBundle, e: Edge)
    requires WellFormed(g) && e in IncomingEdges(g, tile, ConnectingBundle(b))
    ensures e.0 == Neighbor(tile, b) && g.edges[e].bundle == ConnectingBundle(b)
  {
    WireHasTwoEnds(e.0, g.edges[e].bundle);
  }

  /** What a fixed connection sets aside is what its place in the list adds to the table. */
  lemma OutgoingRecorded(grid: Graph, cs: seq<FixedConnection>, c: FixedConnection, g: Graph, e: Edge,
                         g': Graph, used': ChannelSets)
    requires Budget(grid, g, FixedTable(grid, cs)) && e in OutgoingEdges(g, c.tile, c.rhs.bundle)
    requires Reserved(g, FixedTable(grid, cs), e, c.rhs.channel, g', used')
    ensures used' == FixedTable(grid, cs + [c])
  {
    assert (cs + [c])[..|cs|] == cs;
    SameEdges(grid, g, FixedTable(grid, cs), c.tile, c.rhs.bundle);
  }

  lemma IncomingRecorded(grid: Graph, cs: seq<FixedConnection>, c: FixedConnection, g: Graph, e: Edge,
                         g': Graph, used': ChannelSets)
    requires WellFormed(g) && Budget(grid, g, FixedTable(grid, cs)) && OutgoingEdges(g, c.tile, c.rhs.bundle) == {}
    requires e in IncomingEdges(g, c.tile, ConnectingBundle(c.lhs.bundle))
    requires Reserved(g, FixedTable(grid, cs), e, c.lhs.channel, g', used')
    ensures used' == FixedTable(grid, cs + [c])
  {
    assert (cs + [c])[..|cs|] == cs;
    SameEdges(grid, g, FixedTable(grid, cs), c.tile, c.rhs.bundle);
    SameEdges(grid, g, FixedTable(grid, cs), c.tile, ConnectingBundle(c.lhs.bundle));
    IncomingComesFrom(g, c.tile, c.lhs.bundle, e);
  }

  lemma NothingRecorded(grid: Graph, cs: seq<FixedConnection>, c: FixedConnection, g: Graph, used: ChannelSets)
    requires Budget(grid, g, used) && OutgoingEdges(g, c.tile, c.rhs.bundle) == {}
    requires IncomingEdges(g, c.tile, ConnectingBundle(c.lhs.bundle)) == {}
    ensures FixedTable(grid, cs + [c]) == FixedTable(grid, cs)
  {
    assert (cs + [c])[..|cs|] == cs;
    SameEdges(grid, g, used, c.tile, c.rhs.bundle);
    SameEdges(grid, g, used, c.tile, ConnectingBundle(c.lhs.bundle));
  }

  /** Which edges there are does not depend on what has been set aside. */
  lemma SameEdges(grid: Graph, g: Graph, used: ChannelSets, tile: Switchbox, b: WireBundle)
    requires Budget(grid, g, used)
    ensures OutgoingEdges(g, tile, b) == OutgoingEdges(grid, tile, b)
    ensures IncomingEdges(g, tile, b) == IncomingEdges(grid, tile, b)
  {
    forall e | e in g.edges ensures g.edges[e].bundle == grid.edges[e].bundle {
      assert WithinBudget(grid, g, used, e);
    }
  }

  class Router {
    var DG: Graph
    const table: ChannelTable
    var flows: seq<Flow>
    var routingSolution: Option<map<PathEndPoint, Settings>>
    ghost var grid: Graph
    ghost var connections: seq<FixedConnection>

    /** Until the flows are routed, exactly the channels of the fixed connections are taken, within the hardware. */
    ghost predicate Valid()
      reads this, table
    {
      && WellFormed(DG)
      && (routingSolution == None ==> Budget(grid, DG, table.used) && table.used == FixedTable(grid, connections))
    }

    constructor ()
      ensures Valid() && fresh(table) && DG == Graph({}, map[]) && table.used == map[]
      ensures flows == [] && routingSolution == None && connections == []
    {
      flows, routingSolution, connections := [], None, [];
      table := new ChannelTable();
      DG, grid := Graph({}, map[]), Graph({}, map[]);
    }

    /** Called once, before any connection is fixed. */
    method Initialize(maxCols: nat, maxRows: nat, tm: TargetModel)
      requires Valid() && routingSolution == None && connections == []
      modifies this`DG, this`grid
      ensures Valid() && DG == grid && IsGrid(grid, maxCols, maxRows, tm)
    {
      DG := BuildGraph(maxCols, maxRows, tm);
      grid := DG;
      forall e | e in DG.edges ensures WithinBudget(grid, DG, table.used, e) {
        assert UsedOn(table.used, (e.0, DG.edges[e].bundle)) == {};
      }
    }

    method AddFlow(src: PathEndPoint, tgt: PathEndPoint)
      requires Valid()
      modifies this`flows
      ensures Valid() && flows == old(flows) + [(src, tgt)]
    {
      flows := flows + [(src, tgt)];
    }

    /** A fixed connection reserves its outgoing wire if that is a grid edge, else its incoming wire if that is one. */
    method AddFixedConnection(tile: Switchbox, lhs: Port, rhs: Port) returns (found: bool)
      requires Valid()
      modifies this`DG, this`connections, table
      ensures Valid() && grid == old(grid) && connections == old(connections) + [FixedConnection(tile, lhs, rhs)]
      ensures found <==>
        || OutgoingEdges(old(DG), tile, rhs.bundle) != {}
        || IncomingEdges(old(DG), tile, ConnectingBundle(lhs.bundle)) != {}
      ensures OutgoingEdges(old(DG), tile, rhs.bundle) != {} ==>
        exists e :: e in OutgoingEdges(old(DG), tile, rhs.bundle)
          && Reserved(old(DG), old(table.used), e, rhs.channel, DG, table.used)
      ensures OutgoingEdges(old(DG), tile, rhs.bundle) == {} && found ==>
        exists e :: e in IncomingEdges(old(DG), tile, ConnectingBundle(lhs.bundle))
          && Reserved(old(DG), old(table.used), e, lhs.channel, DG, table.used)
      ensures !found ==> DG == old(DG) && table.used == old(table.used)
    {
      hide FixedTable, Budget, WellFormed, Reserved;
      ghost var g, cs, c := DG, connections, FixedConnection(tile, lhs, rhs);
      connections := connections + [c];
      var outgoing := OutgoingEdges(DG, tile, rhs.bundle);
      if outgoing != {} {
        MatchIsUnique(DG, outgoing);
        assert |outgoing| == 1;
        var e :| e in outgoing;
        Reserve(e, rhs.channel);
        if routingSolution == None {
          OutgoingRecorded(grid, cs, c, g, e, DG, table.used);
        }
        return true;
      }
      var incoming := IncomingEdges(DG, tile, ConnectingBundle(lhs.bundle));
      if incoming != {} {
        MatchIsUnique(DG, incoming);
        assert |incoming| == 1;
        var e :| e in incoming;
        Reserve(e, lhs.channel);
        if routingSolution == None {
          IncomingRecorded(grid, cs, c, g, e, DG, table.used);
        }
        return true;
      }
      if routingSolution == None {
        NothingRecorded(grid, cs, c, DG, table.used);
      }
      return false;
    }

    lemma MatchIsUnique(g: Graph, s: set<Edge>)
      requires WellFormed(g) && s != {}
      requires forall e :: e in s ==> e in g.edges
      requires forall e, f :: e in s && f in s ==> g.edges[e].bundle == g.edges[f].bundle && (e.0 == f.0 || e.1 == f.1)
      ensures |s| == 1
    {
      forall e, f | e in s && f in s ensures e == f {
        BundleDeterminesEdge(g, e, f);
      }
      OnlyOne(s);
    }

    method Reserve(e: Edge, ch: int)
      requires WellFormed(DG) && e in DG.edges
      modifies this`DG, table
      ensures WellFormed(DG) && (old(Budget(grid, DG, table.used)) ==> Budget(grid, DG, table.used))
      ensures Reserved(old(DG), old(table.used), e, ch, DG, table.used)
    {
      ghost var g, used := DG, table.used;
      var d := DG.edges[e];
      DG := Graph(DG.nodes, DG.edges[e := EdgeData(d.bundle, d.capacity - 1)]);
      table.Add((e.0, d.bundle), ch);
      if Budget(grid, g, used) {
        ReservedKeepsBudget(grid, g, used, e, ch, DG, table.used);
      }
    }

    /** Routes all flows the first time it is called, along the paths the solver reports. There is no solution exactly
        when an assertion fails while the paths are traced, which ends the program. */
    method FindPaths(ghost order: seq<Edge>, ghost status: Status, flowPaths: seq<FlowPath>)
      returns (solution: Option<map<PathEndPoint, Settings>>)
      requires Valid()
      requires routingSolution == None ==> Aligned(flows) && CpReturns(DG, order, flows, false, status, flowPaths)
      modifies this`routingSolution, table
      ensures solution == None <==> old(routingSolution) == None && !AllTraced(flowPaths)
      ensures solution != None ==> Valid()
      ensures routingSolution == solution
      ensures old(routingSolution) != None ==> routingSolution == old(routingSolution) && table.used == old(table.used)
      ensures old(routingSolution) == None && solution != None ==>
        Guaranteed(grid, flows, FixedTable(grid, connections), flowPaths, solution.value)
    {
      hide WellFormed, Budget, FixedTable, CpReturns, Aligned, Routable, PathsOf, IsRun, AllTraced, Guaranteed;
      if routingSolution == None {
        ghost var fixed := table.used;
        ghost var trees, ranks, history;
        ReturnedIsRoutable(DG, order, flows, status, flowPaths);
        solution, trees, ranks, history := GetRoutingSolution(DG, flowPaths, table);
        if solution != None {
          RunIsGuaranteed(grid, DG, flows, flowPaths, fixed, solution.value, table.used, trees, ranks, history);
        }
        routingSolution := solution;
      }
      solution := routingSolution;
    }
  }
}
