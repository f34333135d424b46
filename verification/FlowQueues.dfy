/** The loop that traces a flow keeps two queues, one of ports and one of switchboxes; when they stay in step, and when
    the loop ends. */
module FlowQueues {
  import opened SwitchGraph
  import opened FlowTracing
  import opened FlowRoutes

  function PortsOf(nodes: seq<Node>): (ports: seq<Port>)
    ensures |ports| == |nodes|
  {
    seq(|nodes|, i requires 0 <= i < |nodes| => nodes[i].port)
  }

  /** Only switchboxes that exist are queued. */
  function SwitchesOf(f: Fabric, nodes: seq<Node>): seq<Switchbox> {
    if nodes == [] then [] else
      var last := nodes[|nodes| - 1].sb;
      SwitchesOf(f, nodes[..|nodes| - 1]) + if last in f then [last] else []
  }

  lemma {:induction false} SwitchesJoin(f: Fabric, a: seq<Node>, b: seq<Node>)
    ensures SwitchesOf(f, a + b) == SwitchesOf(f, a) + SwitchesOf(f, b)
    decreases |b|
  {
    if b == [] {
      assert a + b == a;
    } else {
      var n := |b| - 1;
      SwitchesJoin(f, a, b[..n]);
      assert (a + b)[..|a + b| - 1] == a + b[..n];
    }
  }

  lemma {:induction false} SwitchesFit(f: Fabric, nodes: seq<Node>)
    ensures |SwitchesOf(f, nodes)| <= |nodes|
    ensures |SwitchesOf(f, nodes)| == |nodes| <==> forall n <- nodes :: n.sb in f
    ensures |SwitchesOf(f, nodes)| == |nodes| ==>
      forall i :: 0 <= i < |nodes| ==> SwitchesOf(f, nodes)[i] == nodes[i].sb
  {
    if nodes != [] {
      var init := nodes[..|nodes| - 1];
      SwitchesFit(f, init);
      assert nodes == init + [nodes[|nodes| - 1]];
    }
  }

  // ----- one iteration

  /** Between iterations: the current switchbox and port, and the two queues. */
  datatype State = At(cur: Node, ports: seq<Port>, switches: seq<Switchbox>) | Done

  /** The queues after the connections of the current switchbox have been looked through. */
  function Pushed(f: Fabric, st: State): (seq<Port>, seq<Switchbox>)
    requires st.At?
  {
    (st.ports + PortsOf(Children(f, st.cur)), st.switches + SwitchesOf(f, Children(f, st.cur)))
  }

  /** The loop ends when either queue is empty; otherwise the fronts are paired. */
  function Next(f: Fabric, st: State): State {
    if st.Done? then Done else
      var (ports, switches) := Pushed(f, st);
      if ports == [] || switches == [] then Done else At(Node(switches[0], ports[0]), ports[1..], switches[1..])
  }

  function Run(f: Fabric, root: Node, k: nat): State {
    if k == 0 then At(root, [], []) else Next(f, Run(f, root, k - 1))
  }

  /** The queues are equally long when the iteration has pushed. */
  predicate Balanced(f: Fabric, st: State) {
    st.At? ==> |Pushed(f, st).0| == |Pushed(f, st).1|
  }

  ghost predicate AllExist(f: Fabric, root: Node) { forall n: Node :: Leads(f, root, n) ==> n.sb in f }

  // ----- when the queues are one queue of nodes

  predicate Exist(f: Fabric, nodes: seq<Node>) { forall n <- nodes :: n.sb in f }

  /** The state holds the pending nodes, whose switchboxes all exist. */
  predicate InStep(f: Fabric, p: seq<Node>, st: State) {
    && Exist(f, p)
    && (st.Done? <==> p == [])
    && (st.At? ==> st == At(p[0], PortsOf(p[1..]), SwitchesOf(f, p[1..])))
  }

  lemma PushesPending(f: Fabric, p: seq<Node>, st: State)
    requires InStep(f, p, st) && p != []
    ensures var q := p[1..] + Children(f, p[0]);
      && Pushed(f, st) == (PortsOf(q), SwitchesOf(f, q))
      && (Balanced(f, st) <==> Exist(f, q))
  {
    var q := p[1..] + Children(f, p[0]);
    hide Children;
    SwitchesJoin(f, p[1..], Children(f, p[0]));
    SwitchesFit(f, q);
    assert PortsOf(q) == PortsOf(p[1..]) + PortsOf(Children(f, p[0]));
  }

  lemma QueuesPop(f: Fabric, p: seq<Node>)
    requires Exist(f, p)
    ensures |PortsOf(p)| == |SwitchesOf(f, p)| == |p|
    ensures p != [] ==> PortsOf(p)[0] == p[0].port && SwitchesOf(f, p)[0] == p[0].sb
    ensures p != [] ==> PortsOf(p)[1..] == PortsOf(p[1..]) && SwitchesOf(f, p)[1..] == SwitchesOf(f, p[1..])
  {
    SwitchesFit(f, p);
    if p != [] {
      SwitchesPop(f, p);
      hide SwitchesOf;
      assert PortsOf(p)[1..] == PortsOf(p[1..]);
    }
  }

  lemma SwitchesPop(f: Fabric, p: seq<Node>)
    requires p != [] && p[0].sb in f
    ensures SwitchesOf(f, p) == [p[0].sb] + SwitchesOf(f, p[1..])
  {
    SwitchesJoin(f, [p[0]], p[1..]);
    assert [p[0]] + p[1..] == p;
    assert [p[0]][..0] == [] && SwitchesOf(f, []) == [];
  }

  /** A balanced iteration keeps in step. */
  lemma StaysInStep(f: Fabric, root: Node, k: nat)
    requires InStep(f, Pending(f, root, k), Run(f, root, k)) && Balanced(f, Run(f, root, k))
    ensures InStep(f, Pending(f, root, k + 1), Run(f, root, k + 1))
  {
    var p := Pending(f, root, k);
    if p != [] {
      PushesPending(f, p, Run(f, root, k));
      PendingNext(f, root, k);
      hide Children, Pending, PortsOf, SwitchesOf, Pushed;
      QueuesPop(f, Pending(f, root, k + 1));
    }
  }

  lemma {:induction false} BalancedIsInStep(f: Fabric, root: Node, k: nat)
    requires root.sb in f && forall j: nat :: j < k ==> Balanced(f, Run(f, root, j))
    ensures InStep(f, Pending(f, root, k), Run(f, root, k))
  {
    hide Balanced, InStep, Run, Pending;
    if k == 0 {
      StartsInStep(f, root);
    } else {
      BalancedIsInStep(f, root, k - 1);
      StaysInStep(f, root, k - 1);
    }
  }

  lemma StartsInStep(f: Fabric, root: Node)
    requires root.sb in f
    ensures InStep(f, Pending(f, root, 0), Run(f, root, 0))
  {
    assert SwitchesOf(f, []) == [];
  }

  lemma {:induction false} ExistingIsInStep(f: Fabric, root: Node, k: nat)
    requires AllExist(f, root)
    ensures InStep(f, Pending(f, root, k), Run(f, root, k)) && Balanced(f, Run(f, root, k))
  {
    hide Leads, Balanced, InStep, Run, Pending;
    if k == 0 {
      LeadsToItself(f, root);
      StartsInStep(f, root);
    } else {
      ExistingIsInStep(f, root, k - 1);
      StaysInStep(f, root, k - 1);
    }
    ExistingIsBalanced(f, root, k);
  }

  lemma ExistingIsBalanced(f: Fabric, root: Node, k: nat)
    requires AllExist(f, root) && InStep(f, Pending(f, root, k), Run(f, root, k))
    ensures Balanced(f, Run(f, root, k))
  {
    if Pending(f, root, k) != [] {
      PushesPending(f, Pending(f, root, k), Run(f, root, k));
      PendingNext(f, root, k);
      PendingReached(f, root, k + 1);
      hide Children, Pending, Balanced, Leads;
    }
  }

  // ----- exactly when

  ghost predicate AlwaysBalanced(f: Fabric, root: Node) { forall k: nat :: Balanced(f, Run(f, root, k)) }

  /** Along the whole run the queues are equally long exactly when every switchbox the flow enters exists. */
  lemma QueuesInStepIff(f: Fabric, root: Node)
    requires root.sb in f
    ensures AlwaysBalanced(f, root) <==> AllExist(f, root)
  {
    hide Balanced, Leads, Run;
    if AllExist(f, root) {
      forall k: nat ensures Balanced(f, Run(f, root, k)) {
        ExistingIsInStep(f, root, k);
      }
    }
    if AlwaysBalanced(f, root) {
      forall n: Node | Leads(f, root, n) ensures n.sb in f {
        BalancedReaches(f, root, n);
      }
    }
  }

  lemma BalancedReaches(f: Fabric, root: Node, n: Node)
    requires root.sb in f && Leads(f, root, n) && AlwaysBalanced(f, root)
    ensures n.sb in f
  {
    var p :| Path(f, p) && p[0] == root && p[|p| - 1] == n;
    hide Balanced, Children;
    var k := EverPending(f, root, p);
    BalancedIsInStep(f, root, k);
  }

  /** Where the switchboxes exist, the loop ends exactly when the flow does not come back to where it starts. */
  lemma EndsIff(f: Fabric, root: Node)
    requires Driven(f) && AllExist(f, root)
    ensures (exists k: nat :: Run(f, root, k).Done?) <==> NoReturn(f, root)
  {
    hide Driven, AllExist, NoReturn, Run, Pending;
    if NoReturn(f, root) {
      TraceEnds(f, root);
      EmptyIff(f, root, |Universe(f, root)|);
    } else {
      forall k: nat ensures Run(f, root, k).At? {
        var x := NeverEnds(f, root, k);
        EmptyIff(f, root, k);
      }
    }
  }

  // ----- a flow that returns, and a switchbox that is missing

  const A := Switchbox(0, 1)
  const B := Switchbox(1, 1)

  /** A sends east what comes in from the east, and B sends it back. */
  const RING: Fabric := map[
    A := [Connect(Port(East, 0), Port(East, 0))],
    B := [Connect(Port(West, 0), Port(West, 0))]]

  const START := Node(A, Port(East, 0))
  const TURN := Node(B, Port(West, 0))

  lemma RingChildren()
    ensures Children(RING, START) == [TURN] && Children(RING, TURN) == [START]
  {
    assert RING[A][..0] == [] && RING[B][..0] == [];
    assert ChildrenOf(START, []) == [] && ChildrenOf(TURN, []) == [];
  }

  /** The loop goes round and round. */
  lemma {:induction false} RingNeverEnds(k: nat)
    ensures Run(RING, START, 2 * k) == At(START, [], []) && Run(RING, START, 2 * k + 1) == At(TURN, [], [])
  {
    hide Next, START, TURN, RING;
    RingTurns();
    if k > 0 {
      RingNeverEnds(k - 1);
      RunNext(RING, START, 2 * k - 1);
    }
    RunNext(RING, START, 2 * k);
    hide Run;
  }

  lemma RingTurns()
    ensures Next(RING, At(START, [], [])) == At(TURN, [], [])
    ensures Next(RING, At(TURN, [], [])) == At(START, [], [])
  {
    RingChildren();
    hide Children, Next;
    RingStep(START, TURN);
    RingStep(TURN, START);
  }

  lemma RunNext(f: Fabric, root: Node, k: nat)
    ensures Run(f, root, k + 1) == Next(f, Run(f, root, k))
  {
    hide Next;
  }

  lemma RingStep(n: Node, m: Node)
    requires Children(RING, n) == [m] && m.sb in RING
    ensures Next(RING, At(n, [], [])) == At(m, [], [])
  {
    hide Children;
    assert [m][..0] == [] && SwitchesOf(RING, []) == [];
    assert SwitchesOf(RING, [m]) == [m.sb];
  }

  /** All ports driven once, all switchboxes there, and yet no end. */
  lemma ReturningFlowRunsForever()
    ensures Driven(RING) && AllExist(RING, START) && !NoReturn(RING, START)
    ensures forall k: nat :: Run(RING, START, k).At?
  {
    hide Driven, AllExist, NoReturn, Run;
    RingReturns();
    RingExists();
    forall k: nat ensures Run(RING, START, k).At? {
      RingNeverEnds(k / 2);
      assert k == 2 * (k / 2) || k == 2 * (k / 2) + 1;
    }
  }

  lemma RingReturns()
    ensures !NoReturn(RING, START)
  {
    RingChildren();
    LeadsToItself(RING, START);
    LeadsOn(RING, START, START, TURN);
    hide Children, Leads;
  }

  lemma RingExists()
    ensures Driven(RING) && AllExist(RING, START)
  {
    forall n: Node | Leads(RING, START, n) ensures n.sb in RING {
      var p :| Path(RING, p) && p[0] == START && p[|p| - 1] == n;
      RingChildren();
      hide Children, Path, Leads;
      PathStays(RING, {START, TURN}, p);
    }
  }

  /** A sends one copy west, where there is no switchbox, and one east to B, which sends it back. */
  const GAP: Fabric := map[
    A := [Connect(Port(East, 0), Port(West, 7)), Connect(Port(East, 0), Port(East, 3))],
    B := [Connect(Port(West, 3), Port(West, 0))]]

  const LOST := Node(Switchbox(-1, 1), Port(East, 7))
  const FOUND := Node(B, Port(West, 3))

  lemma GapChildren()
    ensures Children(GAP, START) == [LOST, FOUND] && Children(GAP, FOUND) == [START]
    ensures Children(GAP, Node(B, Port(East, 7))) == []
  {
    var cs := GAP[A];
    assert cs[..1] == [cs[0]] && cs[..1][..0] == [] && GAP[B][..0] == [];
    assert ChildrenOf(START, cs[..1]) == [LOST];
    assert ChildrenOf(FOUND, []) == [] && ChildrenOf(Node(B, Port(East, 7)), []) == [];
  }

  /** The port meant for the missing switchbox is paired with B, where nothing listens to it, and the loop ends although
      the flow goes on and comes back. */
  lemma MissingSwitchboxMispairs()
    ensures Driven(GAP) && !NoReturn(GAP, START) && !AllExist(GAP, START)
    ensures Run(GAP, START, 1) == At(Node(B, Port(East, 7)), [Port(West, 3)], [])
    ensures Run(GAP, START, 2) == Done
  {
    hide Children, Leads, Run, Driven;
    GapChildren();
    GapIsDriven();
    LeadsToItself(GAP, START);
    LeadsOn(GAP, START, START, LOST);
    LeadsOn(GAP, START, START, FOUND);
    assert LOST.sb !in GAP;
    GapRuns();
  }

  lemma GapIsDriven()
    ensures Driven(GAP)
  {}

  lemma GapRuns()
    ensures Run(GAP, START, 1) == At(Node(B, Port(East, 7)), [Port(West, 3)], [])
    ensures Run(GAP, START, 2) == Done
  {
    GapStep();
    assert Run(GAP, START, 0) == At(START, [], []);
    RunNext(GAP, START, 0);
    RunNext(GAP, START, 1);
    hide Next;
  }

  lemma GapStep()
    ensures Next(GAP, At(START, [], [])) == At(Node(B, Port(East, 7)), [Port(West, 3)], [])
    ensures Next(GAP, At(Node(B, Port(East, 7)), [Port(West, 3)], [])) == Done
  {
    GapChildren();
    GapQueues();
    hide Children, PortsOf, SwitchesOf;
  }

  lemma GapQueues()
    ensures SwitchesOf(GAP, [LOST, FOUND]) == [B] && PortsOf([LOST, FOUND]) == [Port(East, 7), Port(West, 3)]
    ensures SwitchesOf(GAP, []) == [] && PortsOf([]) == []
  {
    assert [LOST, FOUND][..1] == [LOST] && [LOST][..0] == [];
    assert SwitchesOf(GAP, []) == [] && SwitchesOf(GAP, [LOST]) == [];
  }

  // ----- the loop

  method PushNext(f: Fabric, cur: Node, ports: seq<Port>, switches: seq<Switchbox>)
    returns (ports': seq<Port>, switches': seq<Switchbox>)
    requires cur.sb in f
    ensures ports' == ports + PortsOf(Children(f, cur))
    ensures switches' == switches + SwitchesOf(f, Children(f, cur))
  {
    ports', switches' := ports, switches;
    var cs := f[cur.sb];
    var i := 0;
    while i < |cs|
      invariant 0 <= i <= |cs|
      invariant ports' == ports + PortsOf(ChildrenOf(cur, cs[..i]))
      invariant switches' == switches + SwitchesOf(f, ChildrenOf(cur, cs[..i]))
    {
      var c := cs[i];
      assert cs[..i + 1][..i] == cs[..i];
      ghost var before := ChildrenOf(cur, cs[..i]);
      if !IsEnd(cur.sb, c) && c.source == cur.port {
        ports' := ports' + [Port(ConnectingBundle(c.dest.bundle), c.dest.channel)];
        var next := Neighbor(cur.sb, c.dest.bundle);
        if next in f {
          switches' := switches' + [next];
        }
        assert (before + [Child(cur.sb, c)])[..|before|] == before;
        assert ports' == ports + PortsOf(before + [Child(cur.sb, c)]);
      } else {
        assert before + [] == before;
      }
      i := i + 1;
    }
    assert cs[..i] == cs;
  }

  method FindDirections(f: Fabric, sb: Switchbox, port: Port) returns (dirs: seq<WireBundle>)
    requires sb in f
    ensures dirs == Directions(port, f[sb])
  {
    dirs := [];
    var cs := f[sb];
    var i := 0;
    while i < |cs|
      invariant 0 <= i <= |cs| && dirs == Directions(port, cs[..i])
    {
      assert cs[..i + 1][..i] == cs[..i];
      if cs[i].source == port {
        dirs := dirs + [cs[i].dest.bundle];
      }
      i := i + 1;
    }
    assert cs[..i] == cs;
  }

  lemma PendingExist(f: Fabric, root: Node, k: nat)
    requires AllExist(f, root)
    ensures Exist(f, Pending(f, root, k))
  {
    PendingReached(f, root, k);
    hide Children, Leads, Pending;
  }

  /** The trace of one flow: the hops of every node it leads to, each visited exactly once, breadth first. */
  method TraceFlow(f: Fabric, source: Switchbox, port: Port) returns (route: seq<Hop>)
    requires Driven(f) && NoReturn(f, Node(source, port)) && AllExist(f, Node(source, port))
    ensures exists visited :: IsRoute(f, Node(source, port), visited, route)
  {
    ghost var root := Node(source, port);
    var currSwitchbox, currPort := source, port;
    var nextPorts: seq<Port>, nextSwitches: seq<Switchbox> := [], [];
    var done := false;
    route := [];
    ghost var k := 0;
    hide Driven, NoReturn, AllExist, Children, Growing, Visited, Pending, HopsOf;
    hide InStep, Run, Next, PortsOf, SwitchesOf;
    TraceStarts(f, root);
    while !done
      invariant Run(f, root, k) == if done then Done else At(Node(currSwitchbox, currPort), nextPorts, nextSwitches)
      invariant done ==> Pending(f, root, k) == [] && k <= |Universe(f, root)|
      invariant route == HopsOf(f, Visited(f, root, k))
      decreases !done, |Universe(f, root)| - k
    {
      Current(f, root, k);
      var cur := Node(currSwitchbox, currPort);
      RunNext(f, root, k);
      NextOf(f, Run(f, root, k));
      nextPorts, nextSwitches := PushNext(f, cur, nextPorts, nextSwitches);
      var dirs := FindDirections(f, currSwitchbox, currPort);
      HopsNext(f, root, k);
      if |dirs| > 0 {
        route := route + [Hop(currSwitchbox, dirs)];
      }
      NotYet(f, root, k);
      EmptyIff(f, root, k + 1);
      if nextPorts == [] || nextSwitches == [] {
        done := true;
      } else {
        currPort := nextPorts[0];
        currSwitchbox := nextSwitches[0];
        nextPorts := nextPorts[1..];
        nextSwitches := nextSwitches[1..];
      }
      k := k + 1;
    }
    hide FullTrace, IsRoute, IsTrace;
    TraceIsRoute(f, root, k);
  }

  lemma TraceIsRoute(f: Fabric, root: Node, k: nat)
    requires Driven(f) && NoReturn(f, root) && Pending(f, root, k) == [] && k <= |Universe(f, root)|
    ensures HopsOf(f, Visited(f, root, k)) == HopsOf(f, FullTrace(f, root))
    ensures IsRoute(f, root, FullTrace(f, root), HopsOf(f, FullTrace(f, root)))
  {
    hide Driven, NoReturn, Pending, Visited, Universe, HopsOf, IsRoute, NoDuplicates, Leads;
    VisitsEachOnce(f, root, k);
    VisitedStays(f, root, k, |Universe(f, root)|);
    FullTraceIsRoute(f, root);
  }

  lemma NextOf(f: Fabric, st: State)
    requires st.At?
    ensures var (ports, switches) := Pushed(f, st);
      Next(f, st) ==
        if ports == [] || switches == [] then Done else At(Node(switches[0], ports[0]), ports[1..], switches[1..])
  {
    hide Pushed;
  }

  lemma TraceStarts(f: Fabric, root: Node)
    ensures Run(f, root, 0) == At(root, [], []) && HopsOf(f, Visited(f, root, 0)) == []
  {}

  lemma Current(f: Fabric, root: Node, k: nat)
    requires AllExist(f, root) && Run(f, root, k).At?
    ensures Pending(f, root, k) != [] && Pending(f, root, k)[0] == Run(f, root, k).cur && Run(f, root, k).cur.sb in f
  {
    ExistingIsInStep(f, root, k);
    PendingExist(f, root, k);
    hide Children, Run, Pending, AllExist, Balanced;
  }

  lemma EmptyIff(f: Fabric, root: Node, k: nat)
    requires AllExist(f, root)
    ensures Run(f, root, k).Done? <==> Pending(f, root, k) == []
  {
    ExistingIsInStep(f, root, k);
    hide Children, Run, Pending, AllExist, Balanced;
  }

  lemma HopsNext(f: Fabric, root: Node, k: nat)
    requires Pending(f, root, k) != [] && Pending(f, root, k)[0].sb in f
    ensures var cur := Pending(f, root, k)[0];
      var dirs := Directions(cur.port, f[cur.sb]);
      HopsOf(f, Visited(f, root, k + 1))
        == HopsOf(f, Visited(f, root, k)) + if dirs == [] then [] else [Hop(cur.sb, dirs)]
  {
    SeenNext(f, root, k);
    hide Visited, Pending, Children, Directions;
    var v := Visited(f, root, k);
    assert (v + [Pending(f, root, k)[0]])[..|v|] == v;
  }
}
