/** The grid of stream switchboxes as a capacitated directed graph. */
module SwitchGraph {

  datatype WireBundle =
    Core | DMA | FIFO | South | West | North | East | PLIO | NOC | Trace | Ctrl

  datatype Switchbox = Switchbox(col: int, row: int)

  datatype Port = Port(bundle: WireBundle, channel: int)

  datatype PathEndPoint = PathEndPoint(sb: Switchbox, port: Port)

  type Flow = (PathEndPoint, PathEndPoint)

  type Edge = (Switchbox, Switchbox)

  /** What the graph stores on an edge: the outgoing bundle of its tail and the channels left on it. */
  datatype EdgeData = EdgeData(bundle: WireBundle, capacity: int)

  datatype Graph = Graph(nodes: set<Switchbox>, edges: map<Edge, EdgeData>)

  /** How many channels of each bundle a tile's switchbox has, as destination and as source. */
  datatype TargetModel = TargetModel(
    numDest: (int, int, WireBundle) -> nat,
    numSource: (int, int, WireBundle) -> nat)

  function ConnectingBundle(dir: WireBundle): WireBundle {
    match dir
    case North => South
    case South => North
    case East => West
    case West => East
    case _ => dir
  }

  predicate IsDirection(b: WireBundle) {
    b == North || b == South || b == East || b == West
  }

  /** The switchbox on the other end of the wires of bundle `b`. */
  function Neighbor(sb: Switchbox, b: WireBundle): Switchbox {
    match b
    case North => Switchbox(sb.col, sb.row + 1)
    case South => Switchbox(sb.col, sb.row - 1)
    case East => Switchbox(sb.col + 1, sb.row)
    case West => Switchbox(sb.col - 1, sb.row)
    case _ => sb
  }

  /** Every edge leads from a node, through one of its four grid bundles, to the node on that side. */
  ghost predicate WellFormed(g: Graph) {
    forall e :: e in g.edges ==>
      && e.0 in g.nodes && e.1 in g.nodes
      && IsDirection(g.edges[e].bundle)
      && e.1 == Neighbor(e.0, g.edges[e].bundle)
  }

  /** The wires of one bundle are seen by both switchboxes: going out and coming back is no move. */
  lemma WireHasTwoEnds(sb: Switchbox, b: WireBundle)
    requires IsDirection(b)
    ensures IsDirection(ConnectingBundle(b))
    ensures Neighbor(Neighbor(sb, b), ConnectingBundle(b)) == sb
    ensures Neighbor(sb, b) != sb
  {}

  /** A switchbox and one of its bundles name at most one outgoing and at most one incoming edge. */
  lemma BundleDeterminesEdge(g: Graph, e: Edge, f: Edge)
    requires WellFormed(g) && e in g.edges && f in g.edges
    requires g.edges[e].bundle == g.edges[f].bundle
    requires e.0 == f.0 || e.1 == f.1
    ensures e == f
  {
    WireHasTwoEnds(e.0, g.edges[e].bundle);
    WireHasTwoEnds(f.0, g.edges[f].bundle);
  }

  // ----- build_graph

  predicate InGrid(maxCols: int, maxRows: int, sb: Switchbox) {
    0 <= sb.col <= maxCols && 0 <= sb.row <= maxRows
  }

  /** The number of channels from `u` through `b`, read from the tile north or east of the interface. */
  function Channels(tm: TargetModel, u: Switchbox, b: WireBundle): nat
    requires IsDirection(b)
  {
    var v := Neighbor(u, b);
    match b
    case South => tm.numDest(u.col, u.row, South)
    case North => tm.numSource(v.col, v.row, South)
    case East => tm.numSource(v.col, v.row, West)
    case West => tm.numDest(u.col, u.row, West)
  }

  /** The interface of `u` on side `b` joins two switchboxes of the grid. */
  ghost predicate GridInterface(maxCols: int, maxRows: int, u: Switchbox, b: WireBundle) {
    IsDirection(b) && InGrid(maxCols, maxRows, u) && InGrid(maxCols, maxRows, Neighbor(u, b))
  }

  /** The edges of `g` are exactly the interfaces in `dom` that have a channel, with their bundle and capacity. */
  ghost predicate EdgesAre(g: Graph, tm: TargetModel, dom: iset<(Switchbox, WireBundle)>) {
    && (forall e :: e in g.edges ==>
      var d := g.edges[e];
      && (e.0, d.bundle) in dom && IsDirection(d.bundle) && e.1 == Neighbor(e.0, d.bundle)
      && d.capacity == Channels(tm, e.0, d.bundle) != 0)
    && (forall u, b :: (u, b) in dom && IsDirection(b) && Channels(tm, u, b) != 0 ==>
      (u, Neighbor(u, b)) in g.edges)
  }

  /** There are `n` channels from `u` to its neighbour `v`, through bundle `b`; no edge if there are none. */
  ghost predicate Joined(g: Graph, u: Switchbox, v: Switchbox, b: WireBundle, n: nat) {
    if n == 0 then (u, v) !in g.edges else (u, v) in g.edges && g.edges[(u, v)] == EdgeData(b, n)
  }

  /** What leaves a tile to the south are its southern destinations, what comes in from there its southern sources. */
  ghost predicate SouthEdges(g: Graph, tm: TargetModel, c: int, r: int) {
    && Joined(g, Switchbox(c, r), Switchbox(c, r - 1), South, tm.numDest(c, r, South))
    && Joined(g, Switchbox(c, r - 1), Switchbox(c, r), North, tm.numSource(c, r, South))
  }

  ghost predicate WestEdges(g: Graph, tm: TargetModel, c: int, r: int) {
    && Joined(g, Switchbox(c, r), Switchbox(c - 1, r), West, tm.numDest(c, r, West))
    && Joined(g, Switchbox(c - 1, r), Switchbox(c, r), East, tm.numSource(c, r, West))
  }

  predicate Adjacent(u: Switchbox, v: Switchbox) {
    || (u.col == v.col && (u.row == v.row + 1 || v.row == u.row + 1))
    || (u.row == v.row && (u.col == v.col + 1 || v.col == u.col + 1))
  }

  /** The graph is the grid: all its switchboxes, for every tile the edges on its south and west side, and no other
      edges. */
  ghost predicate IsGrid(g: Graph, maxCols: int, maxRows: int, tm: TargetModel) {
    && (forall sb :: sb in g.nodes <==> 0 <= sb.col <= maxCols && 0 <= sb.row <= maxRows)
    && (forall c, r | 0 <= c <= maxCols && 0 < r <= maxRows :: SouthEdges(g, tm, c, r))
    && (forall c, r | 0 < c <= maxCols && 0 <= r <= maxRows :: WestEdges(g, tm, c, r))
    && (forall e :: e in g.edges ==> e.0 in g.nodes && e.1 in g.nodes && Adjacent(e.0, e.1))
  }

  /** Adds the edge of one interface when the target model gives it a channel. */
  method AddInterface(g: Graph, tm: TargetModel, u: Switchbox, v: Switchbox, bundle: WireBundle,
                      capacity: nat, ghost dom: iset<(Switchbox, WireBundle)>) returns (h: Graph)
    requires IsDirection(bundle) && v == Neighbor(u, bundle) && capacity == Channels(tm, u, bundle)
    requires EdgesAre(g, tm, dom)
    ensures h.nodes == g.nodes
    ensures EdgesAre(h, tm, dom + iset{(u, bundle)})
  {
    h := g;
    if capacity != 0 {
      forall e | e in g.edges && e == (u, v) ensures g.edges[e].bundle == bundle {
        assert Neighbor(u, g.edges[e].bundle) == Neighbor(u, bundle);
      }
      h := g.(edges := g.edges[(u, v) := EdgeData(bundle, capacity)]);
    }
  }

  /** The two directions of the interface on the south side of a tile, and of the one on its west side. */
  ghost function SouthInterface(c: int, r: int): iset<(Switchbox, WireBundle)> {
    if r > 0 then iset{(Switchbox(c, r), South)} + iset{(Switchbox(c, r - 1), North)} else iset{}
  }

  ghost function WestInterface(c: int, r: int): iset<(Switchbox, WireBundle)> {
    if c > 0 then iset{(Switchbox(c - 1, r), East)} + iset{(Switchbox(c, r), West)} else iset{}
  }

  method AddSouth(g: Graph, tm: TargetModel, c: nat, r: nat, ghost dom: iset<(Switchbox, WireBundle)>)
    returns (h: Graph)
    requires EdgesAre(g, tm, dom)
    ensures h.nodes == g.nodes && EdgesAre(h, tm, dom + SouthInterface(c, r))
  {
    h := g;
    if r > 0 {
      var u, v := Switchbox(c, r), Switchbox(c, r - 1);
      h := AddInterface(h, tm, u, v, South, tm.numDest(c, r, South), dom);
      h := AddInterface(h, tm, v, u, North, tm.numSource(c, r, South), dom + iset{(u, South)});
      assert dom + iset{(u, South)} + iset{(v, North)} == dom + SouthInterface(c, r);
    } else {
      assert dom + SouthInterface(c, r) == dom;
    }
  }

  method AddWest(g: Graph, tm: TargetModel, c: nat, r: nat, ghost dom: iset<(Switchbox, WireBundle)>)
    returns (h: Graph)
    requires EdgesAre(g, tm, dom)
    ensures h.nodes == g.nodes && EdgesAre(h, tm, dom + WestInterface(c, r))
  {
    h := g;
    if c > 0 {
      var u, v := Switchbox(c, r), Switchbox(c - 1, r);
      h := AddInterface(h, tm, v, u, East, tm.numSource(c, r, West), dom);
      h := AddInterface(h, tm, u, v, West, tm.numDest(c, r, West), dom + iset{(v, East)});
      assert dom + iset{(v, East)} + iset{(u, West)} == dom + WestInterface(c, r);
    } else {
      assert dom + WestInterface(c, r) == dom;
    }
  }

  method AddTileInterfaces(g: Graph, tm: TargetModel, c: nat, r: nat, ghost dom: iset<(Switchbox, WireBundle)>)
    returns (h: Graph)
    requires EdgesAre(g, tm, dom)
    ensures h.nodes == g.nodes + {Switchbox(c, r)}
    ensures EdgesAre(h, tm, dom + SouthInterface(c, r) + WestInterface(c, r))
  {
    h := Graph(g.nodes + {Switchbox(c, r)}, g.edges);
    h := AddSouth(h, tm, c, r, dom);
    h := AddWest(h, tm, c, r, dom + SouthInterface(c, r));
  }

  /** The tile a grid interface is added with: the one north or east of the wires. */
  function Owner(u: Switchbox, b: WireBundle): Switchbox {
    if b == South || b == West then u else Neighbor(u, b)
  }

  ghost predicate Before(sb: Switchbox, c: int, r: int) {
    sb.col < c || (sb.col == c && sb.row < r)
  }

  /** The interfaces added once the tiles before column `c`, row `r` have been. */
  ghost function InterfacesBefore(maxCols: int, maxRows: int, c: int, r: int): iset<(Switchbox, WireBundle)> {
    iset u, b | GridInterface(maxCols, maxRows, u, b) && Before(Owner(u, b), c, r) :: (u, b)
  }

  lemma TileAddsItsInterfaces(maxCols: nat, maxRows: nat, c: nat, r: nat)
    requires c <= maxCols && r <= maxRows
    ensures InterfacesBefore(maxCols, maxRows, c, r) + SouthInterface(c, r) + WestInterface(c, r)
         == InterfacesBefore(maxCols, maxRows, c, r + 1)
  {
    forall u, b | (u, b) in InterfacesBefore(maxCols, maxRows, c, r + 1)
      ensures (u, b) in InterfacesBefore(maxCols, maxRows, c, r) + SouthInterface(c, r) + WestInterface(c, r)
    {
      if !Before(Owner(u, b), c, r) {
        assert Owner(u, b) == Switchbox(c, r);
      }
    }
  }

  ghost predicate GridBefore(g: Graph, maxCols: int, maxRows: int, tm: TargetModel, c: int, r: int) {
    && (forall sb :: sb in g.nodes <==> InGrid(maxCols, maxRows, sb) && Before(sb, c, r))
    && EdgesAre(g, tm, InterfacesBefore(maxCols, maxRows, c, r))
  }

  lemma TileDone(g: Graph, h: Graph, maxCols: nat, maxRows: nat, tm: TargetModel, c: nat, r: nat)
    requires c <= maxCols && r <= maxRows
    requires GridBefore(g, maxCols, maxRows, tm, c, r)
    requires h.nodes == g.nodes + {Switchbox(c, r)}
    requires EdgesAre(h, tm, InterfacesBefore(maxCols, maxRows, c, r) + SouthInterface(c, r) + WestInterface(c, r))
    ensures GridBefore(h, maxCols, maxRows, tm, c, r + 1)
  {
    TileAddsItsInterfaces(maxCols, maxRows, c, r);
  }

  /** The end of one column is the start of the next. */
  lemma ColumnDone(g: Graph, maxCols: nat, maxRows: nat, tm: TargetModel, c: nat)
    requires GridBefore(g, maxCols, maxRows, tm, c, maxRows + 1)
    ensures GridBefore(g, maxCols, maxRows, tm, c + 1, 0)
  {
    assert InterfacesBefore(maxCols, maxRows, c, maxRows + 1) == InterfacesBefore(maxCols, maxRows, c + 1, 0);
  }

  ghost function AllInterfaces(maxCols: int, maxRows: int): iset<(Switchbox, WireBundle)> {
    iset u, b | GridInterface(maxCols, maxRows, u, b) :: (u, b)
  }

  /** An interface of the grid is an edge exactly if it has channels. */
  lemma InterfaceIsJoined(g: Graph, maxCols: nat, maxRows: nat, tm: TargetModel, u: Switchbox, b: WireBundle)
    requires EdgesAre(g, tm, AllInterfaces(maxCols, maxRows)) && GridInterface(maxCols, maxRows, u, b)
    ensures Joined(g, u, Neighbor(u, b), b, Channels(tm, u, b))
  {
    var e := (u, Neighbor(u, b));
    if e in g.edges {
      assert Neighbor(u, g.edges[e].bundle) == Neighbor(u, b);
    }
  }

  lemma TileIsJoined(g: Graph, maxCols: nat, maxRows: nat, tm: TargetModel, c: int, r: int)
    requires EdgesAre(g, tm, AllInterfaces(maxCols, maxRows)) && 0 <= c <= maxCols && 0 <= r <= maxRows
    ensures r > 0 ==> SouthEdges(g, tm, c, r)
    ensures c > 0 ==> WestEdges(g, tm, c, r)
  {
    hide EdgesAre, AllInterfaces, Joined;
    if r > 0 {
      InterfaceIsJoined(g, maxCols, maxRows, tm, Switchbox(c, r), South);
      InterfaceIsJoined(g, maxCols, maxRows, tm, Switchbox(c, r - 1), North);
    }
    if c > 0 {
      InterfaceIsJoined(g, maxCols, maxRows, tm, Switchbox(c, r), West);
      InterfaceIsJoined(g, maxCols, maxRows, tm, Switchbox(c - 1, r), East);
    }
  }

  lemma EdgesStayInside(g: Graph, maxCols: nat, maxRows: nat, tm: TargetModel)
    requires EdgesAre(g, tm, AllInterfaces(maxCols, maxRows))
    requires forall sb :: sb in g.nodes <==> InGrid(maxCols, maxRows, sb)
    ensures WellFormed(g) && forall e :: e in g.edges ==> e.0 in g.nodes && e.1 in g.nodes && Adjacent(e.0, e.1)
  {
    forall e | e in g.edges ensures e.0 in g.nodes && e.1 in g.nodes && Adjacent(e.0, e.1) {
      assert GridInterface(maxCols, maxRows, e.0, g.edges[e].bundle);
    }
  }

  lemma AllColumnsDone(g: Graph, maxCols: nat, maxRows: nat, tm: TargetModel)
    requires GridBefore(g, maxCols, maxRows, tm, maxCols + 1, 0)
    ensures IsGrid(g, maxCols, maxRows, tm)
    ensures WellFormed(g)
  {
    assert InterfacesBefore(maxCols, maxRows, maxCols + 1, 0) == AllInterfaces(maxCols, maxRows);
    hide EdgesAre, WellFormed, Adjacent, InterfacesBefore, AllInterfaces, SouthEdges, WestEdges;
    EdgesStayInside(g, maxCols, maxRows, tm);
    forall c, r | 0 <= c <= maxCols && 0 <= r <= maxRows
      ensures (r > 0 ==> SouthEdges(g, tm, c, r)) && (c > 0 ==> WestEdges(g, tm, c, r))
    {
      TileIsJoined(g, maxCols, maxRows, tm, c, r);
    }
  }

  method AddTile(g: Graph, maxCols: nat, maxRows: nat, tm: TargetModel, c: nat, r: nat) returns (h: Graph)
    requires c <= maxCols && r <= maxRows
    requires GridBefore(g, maxCols, maxRows, tm, c, r)
    ensures GridBefore(h, maxCols, maxRows, tm, c, r + 1)
  {
    h := AddTileInterfaces(g, tm, c, r, InterfacesBefore(maxCols, maxRows, c, r));
    TileDone(g, h, maxCols, maxRows, tm, c, r);
  }

  method AddColumn(g: Graph, maxCols: nat, maxRows: nat, tm: TargetModel, c: nat) returns (h: Graph)
    requires c <= maxCols
    requires GridBefore(g, maxCols, maxRows, tm, c, 0)
    ensures GridBefore(h, maxCols, maxRows, tm, c + 1, 0)
  {
    hide GridBefore;
    h := g;
    var r := 0;
    while r < maxRows + 1
      invariant 0 <= r <= maxRows + 1
      invariant GridBefore(h, maxCols, maxRows, tm, c, r)
    {
      h := AddTile(h, maxCols, maxRows, tm, c, r);
      r := r + 1;
    }
    ColumnDone(h, maxCols, maxRows, tm, c);
  }

  method BuildGraph(maxCols: nat, maxRows: nat, tm: TargetModel) returns (g: Graph)
    ensures IsGrid(g, maxCols, maxRows, tm)
    ensures WellFormed(g)
  {
    g := Graph({}, map[]);
    assert GridBefore(g, maxCols, maxRows, tm, 0, 0);
    hide GridBefore, IsGrid, WellFormed;
    var c := 0;
    while c < maxCols + 1
      invariant 0 <= c <= maxCols + 1
      invariant GridBefore(g, maxCols, maxRows, tm, c, 0)
    {
      g := AddColumn(g, maxCols, maxRows, tm, c);
      c := c + 1;
    }
    AllColumnsDone(g, maxCols, maxRows, tm);
  }
}
