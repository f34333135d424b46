/** Tracing a circuit-switched flow from its source through the switchboxes: the nodes it leads to, breadth first. */
module FlowTracing {
  import opened SwitchGraph

  datatype Connect = Connect(source: Port, dest: Port)

  /** The switchboxes of a device and their connections. */
  type Fabric = map<Switchbox, seq<Connect>>

  /** A switchbox and the port through which the flow comes in. */
  datatype Node = Node(sb: Switchbox, port: Port)

  /** A line of the output: a switchbox and the directions the flow leaves in. */
  datatype Hop = Hop(sb: Switchbox, dirs: seq<WireBundle>)

  /** Connections out of the array, or into a core or DMA, end the flow. */
  predicate IsEnd(sb: Switchbox, c: Connect) {
    (sb.row == 0 && c.dest.bundle.South?) || c.dest.bundle.DMA? || c.dest.bundle.Core?
  }

  predicate Follows(n: Node, c: Connect) { c.source == n.port && !IsEnd(n.sb, c) }

  function Child(sb: Switchbox, c: Connect): Node {
    Node(Neighbor(sb, c.dest.bundle), Port(ConnectingBundle(c.dest.bundle), c.dest.channel))
  }

  function Connects(f: Fabric, n: Node): seq<Connect> { if n.sb in f then f[n.sb] else [] }

  function ChildrenOf(n: Node, cs: seq<Connect>): seq<Node> {
    if cs == [] then [] else
      var last := cs[|cs| - 1];
      ChildrenOf(n, cs[..|cs| - 1]) + if Follows(n, last) then [Child(n.sb, last)] else []
  }

  /** Where the flow goes next, in the order of the connections. */
  function Children(f: Fabric, n: Node): seq<Node> { ChildrenOf(n, Connects(f, n)) }

  // ----- the node behind a port is unique

  /** The switchbox a wire comes from, and the port it leaves by, can be read off its other end. */
  lemma ChildIsInjective(sb: Switchbox, c: Connect, sb': Switchbox, c': Connect)
    requires Child(sb, c) == Child(sb', c')
    ensures sb == sb' && c.dest == c'.dest
  {}

  lemma {:induction false} InChildrenOf(n: Node, cs: seq<Connect>, x: Node)
    ensures x in ChildrenOf(n, cs) <==> exists i :: 0 <= i < |cs| && Follows(n, cs[i]) && x == Child(n.sb, cs[i])
  {
    if cs != [] {
      var init, last := cs[..|cs| - 1], cs[|cs| - 1];
      InChildrenOf(n, init, x);
      hide Follows, Child;
      assert forall i :: 0 <= i < |init| ==> init[i] == cs[i];
      if i :| 0 <= i < |cs| && Follows(n, cs[i]) && x == Child(n.sb, cs[i]) {
        assert i < |init| ==> init[i] == cs[i];
      }
    }
  }

  /** No switchbox drives a port twice. */
  predicate Driven(f: Fabric) {
    forall sb <- f :: OnceEach(f[sb])
  }

  predicate OnceEach(cs: seq<Connect>) {
    forall i, j :: 0 <= i < j < |cs| ==> cs[i].dest != cs[j].dest
  }

  lemma OneParent(f: Fabric, n: Node, m: Node, x: Node)
    requires Driven(f) && x in Children(f, n) && x in Children(f, m)
    ensures n == m
  {
    InChildrenOf(n, Connects(f, n), x);
    InChildrenOf(m, Connects(f, m), x);
    var i :| 0 <= i < |Connects(f, n)| && Follows(n, Connects(f, n)[i]) && x == Child(n.sb, Connects(f, n)[i]);
    var j :| 0 <= j < |Connects(f, m)| && Follows(m, Connects(f, m)[j]) && x == Child(m.sb, Connects(f, m)[j]);
    ChildIsInjective(n.sb, Connects(f, n)[i], m.sb, Connects(f, m)[j]);
    assert OnceEach(f[n.sb]);
  }

  predicate NoDuplicates(s: seq<Node>) { forall i, j :: 0 <= i < j < |s| ==> s[i] != s[j] }

  lemma {:induction false} ChildrenDiffer(n: Node, cs: seq<Connect>)
    requires OnceEach(cs)
    ensures NoDuplicates(ChildrenOf(n, cs))
  {
    if cs != [] {
      var init, last := cs[..|cs| - 1], cs[|cs| - 1];
      ChildrenDiffer(n, init);
      if Child(n.sb, last) in ChildrenOf(n, init) {
        InChildrenOf(n, init, Child(n.sb, last));
        var i :| 0 <= i < |init| && Follows(n, init[i]) && Child(n.sb, last) == Child(n.sb, init[i]);
        assert init[i].dest == cs[i].dest != cs[|cs| - 1].dest;
        ChildIsInjective(n.sb, last, n.sb, init[i]);
      }
    }
  }

  // ----- what is reachable

  ghost predicate Path(f: Fabric, p: seq<Node>) {
    |p| > 0 && forall i :: 0 < i < |p| ==> p[i] in Children(f, p[i - 1])
  }

  ghost predicate Leads(f: Fabric, n: Node, m: Node) {
    exists p :: Path(f, p) && p[0] == n && p[|p| - 1] == m
  }

  lemma LeadsToItself(f: Fabric, n: Node)
    ensures Leads(f, n, n)
  {
    assert Path(f, [n]) && [n][0] == n && [n][|[n]| - 1] == n;
  }

  lemma LeadsOn(f: Fabric, n: Node, m: Node, x: Node)
    requires Leads(f, n, m) && x in Children(f, m)
    ensures Leads(f, n, x)
  {
    var p :| Path(f, p) && p[0] == n && p[|p| - 1] == m;
    hide Children;
    var q := p + [x];
    assert Path(f, q) && q[0] == n && q[|q| - 1] == x;
  }

  /** Whatever holds at the start and is handed on to every child holds wherever the flow leads. */
  lemma {:induction false} PathStays(f: Fabric, s: set<Node>, p: seq<Node>)
    requires Path(f, p) && p[0] in s
    requires forall n <- s, x: Node :: x in Children(f, n) ==> x in s
    ensures p[|p| - 1] in s
    decreases |p|
  {
    if |p| > 1 {
      hide Children;
      PathStays(f, s, p[..|p| - 1]);
    }
  }

  // ----- the trace as a queue of nodes

  /** The nodes still to be visited after `k` steps, the current one first. */
  function Pending(f: Fabric, root: Node, k: nat): seq<Node> {
    if k == 0 then [root] else
      var p := Pending(f, root, k - 1);
      if p == [] then [] else p[1..] + Children(f, p[0])
  }

  function Visited(f: Fabric, root: Node, k: nat): seq<Node> {
    if k == 0 then [] else
      var p := Pending(f, root, k - 1);
      Visited(f, root, k - 1) + p[..if p == [] then 0 else 1]
  }

  function Seen(f: Fabric, root: Node, k: nat): seq<Node> { Visited(f, root, k) + Pending(f, root, k) }

  /** The flow does not come back to where it starts. */
  ghost predicate NoReturn(f: Fabric, root: Node) {
    forall n: Node :: Leads(f, root, n) ==> root !in Children(f, n)
  }

  predicate FoundFrom(f: Fabric, v: seq<Node>, x: Node) { exists n :: n in v && x in Children(f, n) }

  /** Every node found so far is found once, by its one parent, and the children of visited nodes are found. */
  ghost predicate Grown(f: Fabric, root: Node, v: seq<Node>, s: seq<Node>) {
    && NoDuplicates(s)
    && root in s
    && (forall x <- s :: Leads(f, root, x))
    && (forall x <- s :: x == root || FoundFrom(f, v, x))
    && (forall n <- v, x: Node :: x in Children(f, n) ==> x in s)
  }

  ghost predicate Growing(f: Fabric, root: Node, k: nat) { Grown(f, root, Visited(f, root, k), Seen(f, root, k)) }

  lemma SeenNext(f: Fabric, root: Node, k: nat)
    requires Pending(f, root, k) != []
    ensures var cur := Pending(f, root, k)[0];
      && Visited(f, root, k + 1) == Visited(f, root, k) + [cur]
      && Seen(f, root, k + 1) == Seen(f, root, k) + Children(f, cur)
    ensures var v, s := Visited(f, root, k), Seen(f, root, k);
      v <= s && |v| < |s| && s[|v|] == Pending(f, root, k)[0]
  {
    hide Children;
    var p := Pending(f, root, k);
    assert p[..1] == [p[0]] && p == [p[0]] + p[1..];
    assert Pending(f, root, k + 1) == p[1..] + Children(f, p[0]);
  }

  /** The children of the current node have not been found before. */
  lemma NewChild(f: Fabric, root: Node, v: seq<Node>, s: seq<Node>, cur: Node, x: Node)
    requires Driven(f) && NoReturn(f, root) && Grown(f, root, v, s) && cur in s && cur !in v && x in Children(f, cur)
    ensures x !in s
  {
    hide Children, Driven, Leads, NoDuplicates;
    if x in s && x != root {
      var n :| n in v && x in Children(f, n);
      OneParent(f, n, cur, x);
    }
  }

  lemma GrowsOn(f: Fabric, root: Node, v: seq<Node>, s: seq<Node>, cur: Node)
    requires Driven(f) && NoReturn(f, root) && Grown(f, root, v, s) && cur in s && cur !in v
    ensures Grown(f, root, v + [cur], s + Children(f, cur))
  {
    var cs := Children(f, cur);
    forall x | x in cs ensures x !in s && Leads(f, root, x) {
      NewChild(f, root, v, s, cur, x);
      LeadsOn(f, root, cur, x);
    }
    assert OnceEach(Connects(f, cur));
    ChildrenDiffer(cur, Connects(f, cur));
    hide Children, Leads, Driven, NoReturn, NoDuplicates, FoundFrom;
    Distinct(s, cs);
    forall x <- s + cs ensures x == root || FoundFrom(f, v + [cur], x) {
      FoundLater(f, v, cur, x);
    }
  }

  lemma Distinct(s: seq<Node>, cs: seq<Node>)
    requires NoDuplicates(s) && NoDuplicates(cs) && forall x <- cs :: x !in s
    ensures NoDuplicates(s + cs)
  {
    forall i, j | 0 <= i < j < |s + cs| ensures (s + cs)[i] != (s + cs)[j] {
      if i < |s| <= j {
        assert (s + cs)[i] in s && (s + cs)[j] in cs;
      }
    }
  }

  lemma FoundLater(f: Fabric, v: seq<Node>, cur: Node, x: Node)
    ensures FoundFrom(f, v, x) || x in Children(f, cur) ==> FoundFrom(f, v + [cur], x)
  {
    hide Children;
    if x in Children(f, cur) {
      assert cur in v + [cur];
    } else if FoundFrom(f, v, x) {
      var n :| n in v && x in Children(f, n);
      assert n in v + [cur];
    }
  }

  lemma GrowingStarts(f: Fabric, root: Node)
    ensures Growing(f, root, 0)
  {
    LeadsToItself(f, root);
    hide Children, Leads;
  }

  lemma {:induction false} KeepsGrowing(f: Fabric, root: Node, k: nat)
    requires Driven(f) && NoReturn(f, root)
    ensures Growing(f, root, k)
  {
    hide Children, Driven, NoReturn, Grown, Pending, Visited, Seen;
    if k == 0 {
      GrowingStarts(f, root);
    } else {
      KeepsGrowing(f, root, k - 1);
      if Pending(f, root, k - 1) == [] {
        Stopped(f, root, k - 1);
      } else {
        SeenNext(f, root, k - 1);
        CurrentIsNew(f, root, Visited(f, root, k - 1), Seen(f, root, k - 1));
        GrowsOn(f, root, Visited(f, root, k - 1), Seen(f, root, k - 1), Pending(f, root, k - 1)[0]);
      }
    }
  }

  lemma CurrentIsNew(f: Fabric, root: Node, v: seq<Node>, s: seq<Node>)
    requires Grown(f, root, v, s) && v <= s && |v| < |s|
    ensures s[|v|] in s && s[|v|] !in v
  {
    hide Children, Leads, FoundFrom;
    assert forall i :: 0 <= i < |v| ==> v[i] == s[i];
  }

  lemma Stopped(f: Fabric, root: Node, k: nat)
    requires Pending(f, root, k) == []
    ensures Pending(f, root, k + 1) == [] && Visited(f, root, k + 1) == Visited(f, root, k)
    ensures Growing(f, root, k) <==> Growing(f, root, k + 1)
  {
    hide Children, Grown;
    assert Visited(f, root, k) + [] == Visited(f, root, k);
  }

  // ----- the trace ends

  /** Every port some connection could lead to. */
  function Universe(f: Fabric, root: Node): set<Node> {
    {root} + set sb, i | sb in f && 0 <= i < |f[sb]| :: Child(sb, f[sb][i])
  }

  lemma ChildrenInUniverse(f: Fabric, root: Node, n: Node, x: Node)
    requires x in Children(f, n)
    ensures x in Universe(f, root)
  {
    InChildrenOf(n, Connects(f, n), x);
  }

  lemma {:induction false} DistinctFit(s: seq<Node>, u: set<Node>)
    requires NoDuplicates(s) && forall x <- s :: x in u
    ensures |s| <= |u|
    decreases |s|
  {
    if s != [] {
      var init, last := s[..|s| - 1], s[|s| - 1];
      assert last !in init;
      DistinctFit(init, u - {last});
    }
  }

  lemma SeenFits(f: Fabric, root: Node, k: nat)
    requires Growing(f, root, k)
    ensures |Seen(f, root, k)| <= |Universe(f, root)|
  {
    hide Visited, Pending, Children, Leads;
    forall x | x in Seen(f, root, k) ensures x in Universe(f, root) {
      if x != root {
        var n :| n in Visited(f, root, k) && x in Children(f, n);
        ChildrenInUniverse(f, root, n, x);
      }
    }
    DistinctFit(Seen(f, root, k), Universe(f, root));
  }

  lemma {:induction false} OneVisitAStep(f: Fabric, root: Node, k: nat)
    ensures Pending(f, root, k) != [] ==> |Visited(f, root, k)| == k
  {
    hide Children;
    if k > 0 {
      OneVisitAStep(f, root, k - 1);
    }
  }

  /** After as many steps as there are ports, nothing is left. */
  lemma TraceEnds(f: Fabric, root: Node)
    requires Driven(f) && NoReturn(f, root)
    ensures Pending(f, root, |Universe(f, root)|) == []
  {
    var k := |Universe(f, root)|;
    KeepsGrowing(f, root, k);
    SeenFits(f, root, k);
    OneVisitAStep(f, root, k);
    hide Universe, Growing, Driven, NoReturn, Grown;
  }

  /** When nothing is left, every node the flow leads to has been visited exactly once. */
  lemma VisitsEachOnce(f: Fabric, root: Node, k: nat)
    requires Driven(f) && NoReturn(f, root) && Pending(f, root, k) == []
    ensures NoDuplicates(Visited(f, root, k))
    ensures forall n: Node :: n in Visited(f, root, k) <==> Leads(f, root, n)
  {
    KeepsGrowing(f, root, k);
    var v := Visited(f, root, k);
    assert Seen(f, root, k) == v;
    hide Children, Driven, NoReturn, Visited, Pending;
    var s := set x | x in v;
    forall n | Leads(f, root, n) ensures n in v {
      var p :| Path(f, p) && p[0] == root && p[|p| - 1] == n;
      PathStays(f, s, p);
    }
  }

  // ----- a flow that comes back

  /** From this node the flow comes back to the start. */
  ghost predicate ComesBack(f: Fabric, root: Node, x: Node) {
    exists m: Node :: Leads(f, x, m) && root in Children(f, m)
  }

  lemma ComesBackOn(f: Fabric, root: Node, x: Node) returns (y: Node)
    requires ComesBack(f, root, x)
    ensures y in Children(f, x) && (y == root || ComesBack(f, root, y))
  {
    hide Children;
    var m :| Leads(f, x, m) && root in Children(f, m);
    var p :| Path(f, p) && p[0] == x && p[|p| - 1] == m;
    if |p| == 1 {
      y := root;
    } else {
      y := p[1];
      var q := p[1..];
      assert Path(f, q) && q[0] == y && q[|q| - 1] == m;
      assert Leads(f, y, m);
    }
  }

  /** Then the queue never runs empty. */
  lemma {:induction false} NeverEnds(f: Fabric, root: Node, k: nat) returns (x: Node)
    requires !NoReturn(f, root)
    ensures x in Pending(f, root, k) && ComesBack(f, root, x)
  {
    hide Leads, Children;
    if k == 0 {
      x := root;
    } else {
      var y := NeverEnds(f, root, k - 1);
      var p := Pending(f, root, k - 1);
      if y == p[0] {
        x := ComesBackOn(f, root, y);
      } else {
        x := y;
        assert p == [p[0]] + p[1..];
      }
    }
  }

  /** Nothing is left at some time exactly when the flow does not come back to where it starts. */
  lemma PendingEndsIff(f: Fabric, root: Node)
    requires Driven(f)
    ensures (exists k: nat :: Pending(f, root, k) == []) <==> NoReturn(f, root)
  {
    if NoReturn(f, root) {
      TraceEnds(f, root);
    } else {
      forall k: nat ensures Pending(f, root, k) != [] {
        var x := NeverEnds(f, root, k);
      }
    }
  }

  /** Everything pending is reached by the flow. */
  lemma {:induction false} PendingReached(f: Fabric, root: Node, k: nat)
    ensures forall n <- Pending(f, root, k) :: Leads(f, root, n)
  {
    hide Leads, Children;
    if k == 0 {
      LeadsToItself(f, root);
    } else {
      PendingReached(f, root, k - 1);
      var p := Pending(f, root, k - 1);
      if p != [] {
        forall x | x in Children(f, p[0]) ensures Leads(f, root, x) {
          LeadsOn(f, root, p[0], x);
        }
      }
    }
  }

  /** What is pending comes up in turn. */
  lemma {:induction false} ComesUp(f: Fabric, root: Node, k: nat, j: nat)
    requires j < |Pending(f, root, k)|
    ensures Pending(f, root, k + j) != [] && Pending(f, root, k + j)[0] == Pending(f, root, k)[j]
    decreases j
  {
    hide Children;
    if j > 0 {
      PendingNext(f, root, k);
      ComesUp(f, root, k + 1, j - 1);
    }
  }

  lemma PendingNext(f: Fabric, root: Node, k: nat)
    requires Pending(f, root, k) != []
    ensures Pending(f, root, k + 1) == Pending(f, root, k)[1..] + Children(f, Pending(f, root, k)[0])
  {
    hide Children;
  }

  /** Everything the flow leads to is pending at some time, however long the trace takes. */
  lemma {:induction false} EverPending(f: Fabric, root: Node, p: seq<Node>) returns (k: nat)
    requires Path(f, p) && p[0] == root
    ensures p[|p| - 1] in Pending(f, root, k)
    decreases |p|
  {
    hide Children;
    if |p| == 1 {
      k := 0;
    } else {
      var init := p[..|p| - 1];
      assert Path(f, init);
      k := EverPending(f, root, init);
      var j :| 0 <= j < |Pending(f, root, k)| && Pending(f, root, k)[j] == init[|init| - 1];
      ComesUp(f, root, k, j);
      PendingNext(f, root, k + j);
      assert p[|p| - 1] in Children(f, p[|p| - 2]);
      k := k + j + 1;
    }
  }

  /** Every node the flow leads to, each once, and no other. */
  ghost predicate IsTrace(f: Fabric, root: Node, visited: seq<Node>) {
    && NoDuplicates(visited)
    && (forall n: Node :: n in visited <==> Leads(f, root, n))
  }

  /** The trace once nothing is left: breadth first. */
  ghost function FullTrace(f: Fabric, root: Node): seq<Node> { Visited(f, root, |Universe(f, root)|) }

  lemma {:induction false} VisitedStays(f: Fabric, root: Node, k: nat, n: nat)
    requires Pending(f, root, k) == [] && k <= n
    ensures Pending(f, root, n) == [] && Visited(f, root, n) == Visited(f, root, k)
    decreases n
  {
    hide Visited, Pending, Growing;
    if k < n {
      VisitedStays(f, root, k, n - 1);
      Stopped(f, root, n - 1);
    }
  }

  lemma NotYet(f: Fabric, root: Node, k: nat)
    requires Driven(f) && NoReturn(f, root) && Pending(f, root, k) != []
    ensures k < |Universe(f, root)|
  {
    KeepsGrowing(f, root, k);
    SeenFits(f, root, k);
    OneVisitAStep(f, root, k);
    hide Universe, Growing, Driven, NoReturn;
  }
}
