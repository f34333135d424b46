/** What the trace of a flow prints: the switchboxes visited, and the directions the flow leaves them in. */
module FlowRoutes {
  import opened Options
  import opened SwitchGraph
  import opened FlowTracing

  /** All connections from the port, those that end the flow included. */
  function Directions(port: Port, cs: seq<Connect>): seq<WireBundle> {
    if cs == [] then [] else
      var last := cs[|cs| - 1];
      Directions(port, cs[..|cs| - 1]) + if last.source == port then [last.dest.bundle] else []
  }

  function HopsOf(f: Fabric, nodes: seq<Node>): seq<Hop> {
    if nodes == [] then [] else
      var last := nodes[|nodes| - 1];
      var dirs := Directions(last.port, Connects(f, last));
      HopsOf(f, nodes[..|nodes| - 1]) + if dirs == [] then [] else [Hop(last.sb, dirs)]
  }

  // ----- what is listed

  predicate Increasing(js: seq<nat>) { forall i, k :: 0 <= i < k < |js| ==> js[i] < js[k] }

  /** The positions of exactly the connections from the port, in order, and where they go. */
  ghost predicate Picked(cs: seq<Connect>, port: Port, js: seq<nat>, dirs: seq<WireBundle>) {
    && |js| == |dirs| && Increasing(js)
    && (forall j: nat :: j in js <==> j < |cs| && cs[j].source == port)
    && (forall i :: 0 <= i < |js| ==> js[i] < |cs| && dirs[i] == cs[js[i]].dest.bundle)
  }

  ghost predicate ListsDirections(cs: seq<Connect>, port: Port, dirs: seq<WireBundle>) {
    exists js: seq<nat> :: Picked(cs, port, js, dirs)
  }

  lemma {:induction false} DirectionsArePicked(port: Port, cs: seq<Connect>) returns (js: seq<nat>)
    ensures Picked(cs, port, js, Directions(port, cs))
  {
    js := [];
    if cs != [] {
      var n := |cs| - 1;
      js := DirectionsArePicked(port, cs[..n]);
      if cs[n].source == port {
        js := js + [n];
      }
    }
  }

  predicate HasWay(f: Fabric, n: Node) { exists c :: c in Connects(f, n) && c.source == n.port }

  /** The hops are those of exactly the nodes the flow leaves, in order. */
  ghost predicate Listed(f: Fabric, visited: seq<Node>, ks: seq<nat>, route: seq<Hop>) {
    && |ks| == |route| && Increasing(ks)
    && (forall k: nat :: k in ks <==> k < |visited| && HasWay(f, visited[k]))
    && (forall i :: 0 <= i < |ks| ==> ks[i] < |visited| && IsHopOf(f, visited[ks[i]], route[i]))
  }

  ghost predicate IsHopOf(f: Fabric, n: Node, h: Hop) {
    h.sb == n.sb && ListsDirections(Connects(f, n), n.port, h.dirs)
  }

  ghost predicate ListsTrace(f: Fabric, visited: seq<Node>, route: seq<Hop>) {
    exists ks: seq<nat> :: Listed(f, visited, ks, route)
  }

  lemma NodeIsListed(f: Fabric, n: Node)
    ensures Directions(n.port, Connects(f, n)) == [] <==> !HasWay(f, n)
    ensures IsHopOf(f, n, Hop(n.sb, Directions(n.port, Connects(f, n))))
  {
    var cs := Connects(f, n);
    var js := DirectionsArePicked(n.port, cs);
    hide Connects, Directions;
    if c :| c in cs && c.source == n.port {
      var j: nat :| j < |cs| && cs[j] == c;
      assert j in js;
    }
    if js != [] {
      assert js[0] in js && cs[js[0]] in cs;
    }
  }

  lemma {:induction false} HopsAreListed(f: Fabric, nodes: seq<Node>) returns (ks: seq<nat>)
    ensures Listed(f, nodes, ks, HopsOf(f, nodes))
  {
    ks := [];
    if nodes != [] {
      var n := |nodes| - 1;
      ks := HopsAreListed(f, nodes[..n]);
      NodeIsListed(f, nodes[n]);
      hide HasWay, IsHopOf, Directions, Connects, Listed;
      var h := Hop(nodes[n].sb, Directions(nodes[n].port, Connects(f, nodes[n])));
      ListedNext(f, nodes, ks, HopsOf(f, nodes[..n]), h);
      if HasWay(f, nodes[n]) {
        ks := ks + [n];
      }
    }
  }

  lemma ListedNext(f: Fabric, nodes: seq<Node>, ks: seq<nat>, route: seq<Hop>, h: Hop)
    requires nodes != [] && Listed(f, nodes[..|nodes| - 1], ks, route) && IsHopOf(f, nodes[|nodes| - 1], h)
    ensures var n := |nodes| - 1;
      if HasWay(f, nodes[n]) then Listed(f, nodes, ks + [n], route + [h]) else Listed(f, nodes, ks, route + [])
  {
    hide HasWay, IsHopOf;
    var n := |nodes| - 1;
    assert route + [] == route;
    forall k: nat ensures k in ks + (if HasWay(f, nodes[n]) then [n] else []) <==> k < |nodes| && HasWay(f, nodes[k]) {}
  }

  // ----- breadth first

  function AllChildren(f: Fabric, nodes: seq<Node>): seq<Node> {
    if nodes == [] then [] else AllChildren(f, nodes[..|nodes| - 1]) + Children(f, nodes[|nodes| - 1])
  }

  lemma AllChildrenNext(f: Fabric, v: seq<Node>, cur: Node)
    ensures AllChildren(f, v + [cur]) == AllChildren(f, v) + Children(f, cur)
  {
    hide Children;
    assert (v + [cur])[..|v|] == v;
  }

  lemma StoppedSeen(f: Fabric, root: Node, k: nat)
    requires Pending(f, root, k) == []
    ensures Visited(f, root, k + 1) == Visited(f, root, k) && Seen(f, root, k + 1) == Seen(f, root, k)
  {
    Stopped(f, root, k);
    hide Children, Growing;
  }

  lemma SeenStarts(f: Fabric, root: Node)
    ensures Seen(f, root, 0) == [root] && Visited(f, root, 0) == [] && AllChildren(f, []) == []
  {}

  lemma {:induction false} SeenIsChildren(f: Fabric, root: Node, k: nat)
    ensures Seen(f, root, k) == [root] + AllChildren(f, Visited(f, root, k))
  {
    hide Children, Visited, Pending, Seen, AllChildren;
    if k == 0 {
      SeenStarts(f, root);
    } else {
      SeenIsChildren(f, root, k - 1);
      if Pending(f, root, k - 1) == [] {
        StoppedSeen(f, root, k - 1);
      } else {
        SeenNext(f, root, k - 1);
        var v, cur := Visited(f, root, k - 1), Pending(f, root, k - 1)[0];
        AllChildrenNext(f, v, cur);
        Associates([root], AllChildren(f, v), Children(f, cur));
      }
    }
  }

  /** Everything that was found, was found from what was visited before it. */
  ghost predicate FoundInOrder(f: Fabric, s: seq<Node>, n: nat) {
    forall k: nat :: 0 < k < |s| ==> FoundBefore(f, s, n, k)
  }

  ghost predicate FoundBefore(f: Fabric, s: seq<Node>, n: nat, k: nat)
    requires k < |s|
  {
    exists j :: 0 <= j < k && j < n && j < |s| && s[k] in Children(f, s[j])
  }

  lemma RootIsFound(f: Fabric, root: Node)
    ensures FoundInOrder(f, Seen(f, root, 0), |Visited(f, root, 0)|)
  {}

  lemma {:induction false} SeenInOrder(f: Fabric, root: Node, k: nat)
    ensures FoundInOrder(f, Seen(f, root, k), |Visited(f, root, k)|)
  {
    hide Children, FoundInOrder;
    if k == 0 {
      RootIsFound(f, root);
    } else {
      SeenInOrder(f, root, k - 1);
      if Pending(f, root, k - 1) == [] {
        StoppedSeen(f, root, k - 1);
      } else {
        SeenNext(f, root, k - 1);
        hide Visited, Pending, Seen;
        OneMoreFound(f, Seen(f, root, k - 1), |Visited(f, root, k - 1)|);
      }
    }
  }

  lemma OneMoreFound(f: Fabric, s: seq<Node>, n: nat)
    requires FoundInOrder(f, s, n) && n < |s|
    ensures FoundInOrder(f, s + Children(f, s[n]), n + 1)
  {
    hide Children;
    var s', m := s + Children(f, s[n]), n + 1;
    forall k: nat | 0 < k < |s'| ensures FoundBefore(f, s', m, k) {
      if k < |s| {
        assert FoundBefore(f, s, n, k);
        var j :| 0 <= j < k && j < n && j < |s| && s[k] in Children(f, s[j]);
        assert s'[j] == s[j];
      } else {
        assert s'[n] == s[n] && s'[k] in Children(f, s'[n]);
      }
    }
  }

  // ----- where the directions lead

  /** The flow goes on in this direction: it does not leave the array, and does not end in a core or a DMA. */
  predicate GoesOn(sb: Switchbox, b: WireBundle) { b != DMA && b != Core && (b == South ==> sb.row != 0) }

  /** Directions in which the flow goes on point to switchboxes that are visited. */
  ghost predicate LeadsOnward(route: seq<Hop>, visited: seq<Node>) {
    forall h, b :: h in route && b in h.dirs && GoesOn(h.sb, b) ==>
      exists n :: n in visited && n.sb == Neighbor(h.sb, b)
  }

  /** A hop of the node points to the switchbox. */
  ghost predicate PointsFrom(f: Fabric, n: Node, route: seq<Hop>, sb: Switchbox) {
    exists h, b :: h in route && IsHopOf(f, n, h) && PointsTo(h, b, sb)
  }

  /** What is connected to the incoming port of `n` is the wire that comes in at `x`. */
  predicate FeedsThrough(f: Fabric, n: Node, x: Node) {
    && n.sb == Neighbor(x.sb, x.port.bundle)
    && Connect(n.port, Port(ConnectingBundle(x.port.bundle), x.port.channel)) in Connects(f, n)
  }

  /** Every switchbox but the first is visited because an earlier hop points to it. */
  ghost predicate LeadsBack(f: Fabric, route: seq<Hop>, visited: seq<Node>) {
    forall k: nat :: 0 < k < |visited| ==> PointedTo(f, route, visited, k)
  }

  ghost predicate PointedTo(f: Fabric, route: seq<Hop>, visited: seq<Node>, k: nat)
    requires k < |visited|
  {
    exists j :: 0 <= j < k && PointsFrom(f, visited[j], route, visited[k].sb) && FeedsThrough(f, visited[j], visited[k])
  }

  predicate PointsTo(h: Hop, b: WireBundle, sb: Switchbox) {
    b in h.dirs && GoesOn(h.sb, b) && sb == Neighbor(h.sb, b)
  }

  lemma DirectionIsConnection(f: Fabric, n: Node, h: Hop, b: WireBundle) returns (c: Connect)
    requires IsHopOf(f, n, h) && b in h.dirs
    ensures c in Connects(f, n) && c.source == n.port && c.dest.bundle == b
  {
    var cs := Connects(f, n);
    var js: seq<nat> :| Picked(cs, n.port, js, h.dirs);
    var i: nat :| i < |h.dirs| && h.dirs[i] == b;
    assert js[i] in js;
    c := cs[js[i]];
  }

  lemma ConnectionIsDirection(f: Fabric, n: Node, h: Hop, c: Connect)
    requires IsHopOf(f, n, h) && c in Connects(f, n) && c.source == n.port
    ensures c.dest.bundle in h.dirs
  {
    var cs := Connects(f, n);
    var js: seq<nat> :| Picked(cs, n.port, js, h.dirs);
    var j: nat :| j < |cs| && cs[j] == c;
    assert j in js;
    var i: nat :| i < |js| && js[i] == j;
    assert h.dirs[i] == c.dest.bundle;
  }

  /** A connection that goes on leads to a child, and only such connections do. */
  lemma ConnectionLeads(f: Fabric, n: Node, c: Connect)
    requires c in Connects(f, n) && c.source == n.port && GoesOn(n.sb, c.dest.bundle)
    ensures Child(n.sb, c) in Children(f, n)
  {
    InChildrenOf(n, Connects(f, n), Child(n.sb, c));
  }

  lemma ChildIsLed(f: Fabric, n: Node, x: Node) returns (c: Connect)
    requires x in Children(f, n)
    ensures c in Connects(f, n) && c.source == n.port && GoesOn(n.sb, c.dest.bundle)
    ensures x.sb == Neighbor(n.sb, c.dest.bundle) && FeedsThrough(f, n, x)
  {
    var cs := Connects(f, n);
    InChildrenOf(n, cs, x);
    var i: nat :| i < |cs| && Follows(n, cs[i]) && x == Child(n.sb, cs[i]);
    c := cs[i];
    assert c == Connect(n.port, Port(ConnectingBundle(x.port.bundle), x.port.channel));
  }

  lemma RouteLeadsOnward(f: Fabric, root: Node, visited: seq<Node>, route: seq<Hop>)
    requires IsTrace(f, root, visited) && ListsTrace(f, visited, route)
    ensures LeadsOnward(route, visited)
  {
    var ks: seq<nat> :| Listed(f, visited, ks, route);
    hide Leads, ListsDirections, Connects, Children, NoDuplicates;
    forall h, b | h in route && b in h.dirs && GoesOn(h.sb, b)
      ensures exists n :: n in visited && n.sb == Neighbor(h.sb, b)
    {
      var i: nat :| i < |route| && route[i] == h;
      var n := visited[ks[i]];
      var c := DirectionIsConnection(f, n, h, b);
      ConnectionLeads(f, n, c);
      LeadsOn(f, root, n, Child(n.sb, c));
      assert Child(n.sb, c) in visited;
    }
  }

  lemma RouteLeadsBack(f: Fabric, visited: seq<Node>, route: seq<Hop>)
    requires FoundInOrder(f, visited, |visited|) && ListsTrace(f, visited, route)
    ensures LeadsBack(f, route, visited)
  {
    var ks: seq<nat> :| Listed(f, visited, ks, route);
    hide ListsDirections, Connects, Children, FeedsThrough;
    forall k: nat | 0 < k < |visited| ensures PointedTo(f, route, visited, k) {
      assert FoundBefore(f, visited, |visited|, k);
      var j :| 0 <= j < k && visited[k] in Children(f, visited[j]);
      var n := visited[j];
      var c := ChildIsLed(f, n, visited[k]);
      assert HasWay(f, n) && j in ks;
      var i: nat :| i < |ks| && ks[i] == j;
      assert route[i] in route && IsHopOf(f, n, route[i]);
      ConnectionIsDirection(f, n, route[i], c);
      assert PointsTo(route[i], c.dest.bundle, visited[k].sb);
      assert PointsFrom(f, visited[j], route, visited[k].sb) && FeedsThrough(f, visited[j], visited[k]);
    }
  }

  // ----- the whole trace

  /** The nodes the flow leads to, each once, breadth first, and the hops that list them. */
  ghost predicate IsRoute(f: Fabric, root: Node, visited: seq<Node>, route: seq<Hop>) {
    && IsTrace(f, root, visited)
    && visited == [root] + AllChildren(f, visited)
    && ListsTrace(f, visited, route)
    && LeadsOnward(route, visited)
    && LeadsBack(f, route, visited)
  }

  lemma FullTraceIsRoute(f: Fabric, root: Node)
    requires IsTrace(f, root, FullTrace(f, root)) && Pending(f, root, |Universe(f, root)|) == []
    ensures IsRoute(f, root, FullTrace(f, root), HopsOf(f, FullTrace(f, root)))
  {
    var k := |Universe(f, root)|;
    var visited := FullTrace(f, root);
    assert Seen(f, root, k) == visited;
    SeenIsChildren(f, root, k);
    SeenInOrder(f, root, k);
    var ks := HopsAreListed(f, visited);
    hide Visited, Pending, Seen, Universe, HopsOf, IsTrace, Listed, FullTrace, Children;
    RouteLeadsOnward(f, root, visited, HopsOf(f, visited));
    RouteLeadsBack(f, visited, HopsOf(f, visited));
  }
}
