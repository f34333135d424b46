/** Inputs on which the router does less than one might expect, and exactly when it does not. */
module RouteLimits {
  import opened Options
  import opened SwitchGraph
  import opened FlowBalance
  import opened RouteConstraints
  import opened RouteWalk
  import opened RouteTrace
  import opened RouteSolution
  import opened RouteProperties
  import opened ChannelUse
  import opened RouteGuarantees
  import opened RouterObject
  import opened RouteIsolation

  // ----- a feasible solution that is not optimal may fork

  const S := Switchbox(0, 0)
  const A := Switchbox(0, 1)
  const T := Switchbox(0, 2)
  const B := Switchbox(1, 1)

  /** Four switchboxes of a grid: a column of three, and one beside the middle. */
  const CROSS: Graph := Graph({S, A, T, B}, map[
    (S, A) := EdgeData(North, 1), (A, S) := EdgeData(South, 1),
    (A, T) := EdgeData(North, 1), (T, A) := EdgeData(South, 1),
    (A, B) := EdgeData(East, 1), (B, A) := EdgeData(West, 1)])

  const DETOUR: set<Edge> := {(S, A), (A, T), (A, B), (B, A)}

  lemma DetourDegrees()
    ensures Out(DETOUR, S) == {(S, A)} && In(DETOUR, S) == {}
    ensures Out(DETOUR, T) == {} && In(DETOUR, T) == {(A, T)}
    ensures Out(DETOUR, A) == {(A, T), (A, B)} && In(DETOUR, A) == {(S, A), (B, A)}
    ensures Out(DETOUR, B) == {(B, A)} && In(DETOUR, B) == {(A, B)}
  {}

  const LONG: Flow := (PathEndPoint(S, Port(DMA, 0)), PathEndPoint(T, Port(DMA, 0)))

  /** The walk back from T comes to A, which has two predecessors. */
  lemma DetourFails()
    ensures TracedTree(S, [(LONG.1, DETOUR)]) == None
  {
    DetourDegrees();
    var dsts: seq<Destination> := [(LONG.1, DETOUR)];
    assert dsts[..0] == [] && TracedTree(S, []) == Some(map[]);
    assert Predecessor(DETOUR, T) == Some(A) by {
      assert (Predecessor(DETOUR, T).value, T) in In(DETOUR, T);
    }
    assert TracedBack(S, map[T := A], DETOUR, A) == None;
  }

  lemma OneSource(f: FlowPath)
    ensures Sources([f]) == [f.0.0] && DestinationsOf([f], f.0.0) == [(f.0.1, f.1)]
  {
    assert [f][..0] == [] && DestinationsOf([], f.0.0) == [];
  }

  /** A flow from S to T may come with an idle loop through A: the answer is feasible in either mode, A has two
      predecessors, and an assertion fails. */
  lemma FeasibleMayFork(minEdges: bool)
    ensures WellFormed(CROSS) && PostModel(CROSS, [LONG]) == Posted && Feasible(CROSS, [LONG], [DETOUR], minEdges)
    ensures |In(DETOUR, A)| == 2
    ensures !AllTraced([(LONG, DETOUR)])
  {
    DetourDegrees();
    DetourFails();
    OneSource((LONG, DETOUR));
    hide Feasible, PostModel, WellFormed, TracedTree, Sources, DestinationsOf;
    assert LONG.0 in Sources([(LONG, DETOUR)]);
    CrossIsWellFormed();
    DetourIsFeasible(minEdges);
  }

  lemma CrossIsWellFormed()
    ensures WellFormed(CROSS)
  {}

  lemma DetourIsPosted()
    ensures FlowPosted(CROSS, S, T, DETOUR)
  {
    DetourDegrees();
    assert InFromNeighbors(CROSS, DETOUR, S) == {};
    assert InFromNeighbors(CROSS, DETOUR, T) == {(A, T)};
  }

  lemma DetourIsFeasible(minEdges: bool)
    ensures PostModel(CROSS, [LONG]) == Posted && Feasible(CROSS, [LONG], [DETOUR], minEdges)
  {
    DetourIsPosted();
    DistinctFlowsAreTheirKeys([LONG]);
    hide FlowPosted, DictKeys;
    assert HasNeighbors(CROSS, S) && HasNeighbors(CROSS, T);
    forall e | e in CROSS.edges ensures Demand([DETOUR], e) <= CROSS.edges[e].capacity && Overlap([DETOUR], e) <= 1 {
      OneFlowDemand(DETOUR, e);
      assert CROSS.edges[e].capacity == 1;
    }
  }

  lemma OneFlowDemand(used: set<Edge>, e: Edge)
    ensures Demand([used], e) <= 1 && Overlap([used], e) == 0
  {
    assert [used][1..] == [] && Demand([], e) == 0 && Overlap([], e) == 0;
  }

  // ----- edges shared by several flows

  /** Each pair of the flows on an edge counts. */
  lemma {:induction false} OverlapIsPairs(fs: Assignment, e: Edge)
    ensures 2 * Overlap(fs, e) == Demand(fs, e) * (Demand(fs, e) - 1)
  {
    if fs != [] {
      OverlapIsPairs(fs[1..], e);
    }
  }

  /** What the range of the variable that counts overlaps lets share an edge, whatever its capacity. */
  lemma OverlapRangeIff(fs: Assignment, e: Edge)
    ensures Overlap(fs, e) <= |fs| <==> Demand(fs, e) * (Demand(fs, e) - 1) <= 2 * |fs|
  {
    OverlapIsPairs(fs, e);
  }

  /** So the default mode admits an answer exactly when the other mode does and on every edge with `d` flows twice the
      number of flows is at least `d (d - 1)`. */
  lemma DefaultFeasibleIff(g: Graph, flows: seq<Flow>, fs: Assignment)
    ensures Feasible(g, flows, fs, false) <==>
      && Feasible(g, flows, fs, true)
      && forall e :: e in g.edges ==> Demand(fs, e) * (Demand(fs, e) - 1) <= 2 * |fs|
  {
    hide FlowPosted;
    forall e ensures Overlap(fs, e) <= |fs| <==> Demand(fs, e) * (Demand(fs, e) - 1) <= 2 * |fs| {
      OverlapRangeIff(fs, e);
    }
  }

  /** When all flows share the edge, they can be at most three. */
  lemma SharedEdgeIff(fs: Assignment, e: Edge)
    requires Demand(fs, e) == |fs|
    ensures Overlap(fs, e) <= |fs| <==> |fs| <= 3
  {
    OverlapRangeIff(fs, e);
    hide Overlap, Demand;
    PairsOfAll(|fs|);
  }

  lemma PairsOfAll(n: nat)
    ensures n * (n - 1) <= 2 * n <==> n <= 3
  {
    if n > 3 {
      assert n * (n - 1) == n * (n - 4) + 3 * n && n * (n - 4) >= 0;
    } else {
      assert n == 0 || n == 1 || n == 2 || n == 3;
    }
  }

  // ----- flows given twice

  /** A repeated flow shifts the variables of every later new flow to the constraints of an earlier one. */
  lemma RepeatedFlowMisaligns<T>(f: T, h: T)
    requires f != h
    ensures DictKeys([f, f, h]) == [f, h] && [f, f, h][1] != DictKeys([f, f, h])[1]
  {
    assert [f, f, h][..2] == [f, f] && [f, f][..1] == [f] && [f][..0] == [];
    assert DictKeys([f]) == [f];
    assert DictKeys([f, f]) == [f];
  }

  lemma {:induction false} KeysArePrefix<T>(xs: seq<T>, n: nat)
    requires n <= |xs|
    ensures DictKeys(xs[..n]) <= DictKeys(xs)
    decreases |xs| - n
  {
    if n < |xs| {
      KeysArePrefix(xs, n + 1);
      assert xs[..n + 1][..n] == xs[..n];
    } else {
      assert xs[..n] == xs;
    }
  }

  /** Every flow's variables carry its own constraints exactly when no new flow follows a repetition. */
  lemma AlignedIff<T>(xs: seq<T>)
    ensures |DictKeys(xs)| <= |xs|
    ensures (forall k :: 0 <= k < |DictKeys(xs)| ==> xs[k] == DictKeys(xs)[k])
       <==> (forall j :: 0 <= j < |DictKeys(xs)| ==> xs[j] !in xs[..j])
  {
    DictKeysAreDistinct(xs);
    var keys := DictKeys(xs);
    if forall k :: 0 <= k < |keys| ==> xs[k] == keys[k] {
      forall j | 0 <= j < |keys| ensures xs[j] !in xs[..j] {}
    }
    if forall j :: 0 <= j < |keys| ==> xs[j] !in xs[..j] {
      var init := xs[..|keys|];
      forall i, j | 0 <= i < j < |init| ensures init[i] != init[j] {
        assert init[i] == xs[..j][i];
      }
      DistinctFlowsAreTheirKeys(init);
      KeysArePrefix(xs, |keys|);
    }
  }

  // ----- ports on grid bundles

  const PAIR: Graph := Graph({S, A}, map[(S, A) := EdgeData(North, 1), (A, S) := EdgeData(South, 1)])

  /** A flow from S up to A, one down from A's southern port, and one down to S's northern port. */
  const UP: Flow := (PathEndPoint(S, Port(DMA, 0)), PathEndPoint(A, Port(DMA, 0)))
  const FROM_SOUTH: Flow := (PathEndPoint(A, Port(South, 0)), PathEndPoint(S, Port(DMA, 0)))
  const TO_NORTH: Flow := (PathEndPoint(A, Port(DMA, 1)), PathEndPoint(S, Port(North, 0)))

  predicate AreDown(fs: seq<Flow>) { fs == [] || fs == [FROM_SOUTH] || fs == [TO_NORTH] }

  function Paths(downs: seq<Flow>): seq<FlowPath> {
    (if downs == [] then [] else [(downs[0], {(A, S)})]) + [(UP, {(S, A)})]
  }

  function Flows(downs: seq<Flow>): seq<Flow> { downs + [UP] }

  lemma OneHopIsPosted(a: Switchbox, b: Switchbox)
    requires (a == S && b == A) || (a == A && b == S)
    ensures FlowPosted(PAIR, a, b, {(a, b)})
  {
    assert Out({(a, b)}, a) == {(a, b)} == In({(a, b)}, b) == InFromNeighbors(PAIR, {(a, b)}, b);
    assert Out({(a, b)}, b) == {} == InFromNeighbors(PAIR, {(a, b)}, a);
  }

  /** The paths are a feasible answer for the flows. */
  lemma PathsAreFeasible(downs: seq<Flow>)
    requires AreDown(downs)
    ensures Feasible(PAIR, Flows(downs), EdgeSets(Paths(downs)), false)
  {
    hide FlowPosted, DictKeys, Demand, Overlap;
    OneHopIsPosted(S, A);
    OneHopIsPosted(A, S);
    DistinctFlowsAreTheirKeys(Flows(downs));
    PairDemand(downs);
  }

  lemma PairDemand(downs: seq<Flow>)
    requires AreDown(downs)
    ensures forall e :: e in PAIR.edges ==>
      Demand(EdgeSets(Paths(downs)), e) <= 1 && Overlap(EdgeSets(Paths(downs)), e) == 0
  {
    var fs := EdgeSets(Paths(downs));
    forall e | e in PAIR.edges ensures Demand(fs, e) <= 1 && Overlap(fs, e) == 0 {
      OneFlowDemand({(S, A)}, e);
      if downs == [] {
        assert fs == [{(S, A)}];
      } else {
        assert fs == [{(A, S)}, {(S, A)}] && fs[1..] == [{(S, A)}];
        assert Demand([{(S, A)}], e) == (if e == (S, A) then 1 else 0) by {
          assert [{(S, A)}][1..] == [] && Demand([], e) == 0;
        }
      }
    }
  }

  lemma OneHopTree(a: Switchbox, b: Switchbox, end: PathEndPoint)
    requires a != b == end.sb
    ensures TracedTree(a, [(end, {(a, b)})]) == Some(map[b := a])
  {
    var dsts: seq<Destination> := [(end, {(a, b)})];
    assert dsts[..0] == [] && TracedTree(a, []) == Some(map[]);
    assert In({(a, b)}, b) == {(a, b)};
    assert Predecessor({(a, b)}, b) == Some(a) by {
      assert (Predecessor({(a, b)}, b).value, b) in In({(a, b)}, b);
    }
    assert TracedBack(a, map[b := a], {(a, b)}, a) == Some(map[b := a]);
  }

  /** Next to a flow down from A, only the flow up uses the edge into A, and no assertion fails. */
  lemma OnlyUpUses(downs: seq<Flow>)
    requires AreDown(downs)
    ensures UsersOf(Paths(downs), (S, A)) == {UP.0} && AllTraced(Paths(downs))
  {
    hide TracedTree;
    var paths := Paths(downs);
    OneHopTree(S, A, UP.1);
    OneSource((UP, {(S, A)}));
    if downs != [] {
      var d := downs[0];
      OneHopTree(A, S, d.1);
      OneSource((d, {(A, S)}));
      assert paths[..1] == [(d, {(A, S)})] && paths == [(d, {(A, S)}), (UP, {(S, A)})];
      assert DestinationsOf([(d, {(A, S)})], UP.0) == [] by {
        assert [(d, {(A, S)})][..0] == [] && DestinationsOf([], UP.0) == [];
      }
      assert DestinationsOf(paths, d.0) == [(d.1, {(A, S)})];
      assert DestinationsOf(paths, UP.0) == [(UP.1, {(S, A)})];
      assert Sources(paths) == [d.0, UP.0];
    }
  }

  lemma TakenNorthOfS(downs: seq<Flow>, fixed: ChannelSets)
    requires AreDown(downs)
    ensures TakenAtStart(PAIR, Flows(downs), fixed, (S, A))
      == UsedOn(fixed, (S, North)) + if downs == [TO_NORTH] then {0} else {}
  {
    assert Flows(downs)[0] in Flows(downs);
    assert DestinationChannels(Flows(downs), (S, North)) == if downs == [TO_NORTH] then {0} else {};
  }

  /** The flow up is sent out on the smallest channel that is free at the start, and arrives on the other side. */
  lemma UpGetsFirstFree(downs: seq<Flow>, fixed: ChannelSets, solution: map<PathEndPoint, Settings>, c: int)
    requires AreDown(downs) && Guaranteed(PAIR, Flows(downs), fixed, Paths(downs), solution)
    requires IsNextFree(TakenAtStart(PAIR, Flows(downs), fixed, (S, A)), c)
    ensures Driven(Flows(downs), solution, S, Port(North, c))
    ensures Arrives(PAIR, solution, PathEndPoint(A, Port(South, c)))
  {
    OnlyUpUses(downs);
    assert FreeBelow(TakenAtStart(PAIR, Flows(downs), fixed, (S, A)), c) == {};
    assert EndsAt(PAIR, (S, A), PathEndPoint(A, Port(South, c)));
    ArrivesIff(PAIR, Flows(downs), fixed, Paths(downs), solution, PathEndPoint(A, Port(South, c)), (S, A));
    hide UsersOf, TakenAtStart, FreeBelow, Driven, Paths, Flows, AllDelivered, Isolated, WithinHardware, WellFormed;
    hide Arrives, DestinationChannels;
    assert Due(PAIR, Flows(downs), fixed, Paths(downs), (S, A), c);
  }

  lemma NextAfterZero()
    ensures IsNextFree(UsedOn(map[], (S, North)) + {0}, 1) && PAIR.edges[(S, A)].capacity == 1
  {}

  /** A destination takes S's only northern channel, so the flow up is sent out on channel 1 of 1. */
  lemma EndpointOnGridOverflows(solution: map<PathEndPoint, Settings>)
    requires Guaranteed(PAIR, Flows([TO_NORTH]), map[], Paths([TO_NORTH]), solution)
    ensures Feasible(PAIR, Flows([TO_NORTH]), EdgeSets(Paths([TO_NORTH])), false) && AllTraced(Paths([TO_NORTH]))
    ensures PAIR.edges[(S, A)].capacity == 1 && Driven(Flows([TO_NORTH]), solution, S, Port(North, 1))
  {
    hide Feasible, Guaranteed, AllTraced, Paths, Flows, Driven, TakenAtStart, UsersOf,
      Arrives, UsedOn, IsNextFree, EdgeSets, PAIR;
    TakenNorthOfS([TO_NORTH], map[]);
    NextAfterZero();
    PathsAreFeasible([TO_NORTH]);
    OnlyUpUses([TO_NORTH]);
    UpGetsFirstFree([TO_NORTH], map[], solution, 1);
  }

  /** The flow up is sent out on the wire at whose other end the flow down starts. */
  lemma SourcePortIsHit(solution: map<PathEndPoint, Settings>)
    requires Guaranteed(PAIR, Flows([FROM_SOUTH]), map[], Paths([FROM_SOUTH]), solution)
    ensures Feasible(PAIR, Flows([FROM_SOUTH]), EdgeSets(Paths([FROM_SOUTH])), false) && AllTraced(Paths([FROM_SOUTH]))
    ensures Arrives(PAIR, solution, FROM_SOUTH.0)
  {
    TakenNorthOfS([FROM_SOUTH], map[]);
    hide Feasible, Guaranteed, AllTraced, Paths, Flows, Driven, TakenAtStart, UsersOf,
      Arrives;
    PathsAreFeasible([FROM_SOUTH]);
    OnlyUpUses([FROM_SOUTH]);
    UpGetsFirstFree([FROM_SOUTH], map[], solution, 0);
  }

  /** A connection in A from its southern port out to the south again. */
  const BOUNCE := FixedConnection(A, Port(South, 0), Port(South, 0))

  /** The pair of switchboxes once the fixed connection has taken the one channel down. */
  const PAIR_LEFT: Graph := Graph({S, A}, map[(S, A) := EdgeData(North, 1), (A, S) := EdgeData(South, 0)])

  lemma UpIsFeasible()
    ensures Reserved(PAIR, map[], (A, S), BOUNCE.rhs.channel, PAIR_LEFT, map[(A, South) := {0}])
    ensures Feasible(PAIR_LEFT, [UP], [{(S, A)}], false)
  {
    DistinctFlowsAreTheirKeys([UP]);
    assert Out({(S, A)}, S) == {(S, A)} == In({(S, A)}, A) == InFromNeighbors(PAIR_LEFT, {(S, A)}, A);
    assert Out({(S, A)}, A) == {} == InFromNeighbors(PAIR_LEFT, {(S, A)}, S);
    assert FlowPosted(PAIR_LEFT, S, A, {(S, A)});
    hide FlowPosted, DictKeys;
    OneFlowDemand({(S, A)}, (S, A));
    OneFlowDemand({(S, A)}, (A, S));
    assert Demand([{(S, A)}], (A, S)) == 0 by { assert [{(S, A)}][1..] == []; }
  }

  /** The flow up is sent out on the wire the fixed connection listens to: only its outgoing wire is set aside. */
  lemma FixedIncomingIsHit(solution: map<PathEndPoint, Settings>)
    requires Guaranteed(PAIR, Flows([]), FixedTable(PAIR, [BOUNCE]), Paths([]), solution)
    ensures Feasible(PAIR_LEFT, Flows([]), EdgeSets(Paths([])), false) && AllTraced(Paths([]))
    ensures BOUNCE.rhs.channel in UsedOn(FixedTable(PAIR, [BOUNCE]), (BOUNCE.tile, BOUNCE.rhs.bundle))
    ensures Arrives(PAIR, solution, PathEndPoint(BOUNCE.tile, BOUNCE.lhs))
  {
    assert EdgeSets(Paths([])) == [{(S, A)}] && Flows([]) == [UP];
    hide Feasible, Guaranteed, AllTraced, Paths, Flows, FixedTable, UsedOn, Driven, TakenAtStart, UsersOf, Arrives;
    BounceSetsAside(0);
    assert UsedOn(FixedTable(PAIR, [BOUNCE]), (S, North)) == {} by {
      forall ch ensures ch !in UsedOn(FixedTable(PAIR, [BOUNCE]), (S, North)) {
        BounceSetsAside(ch);
      }
    }
    UpIsFeasible();
    OnlyUpUses([]);
    TakenNorthOfS([], FixedTable(PAIR, [BOUNCE]));
    UpGetsFirstFree([], FixedTable(PAIR, [BOUNCE]), solution, 0);
  }

  lemma BounceSetsAside(ch: int)
    ensures ch !in UsedOn(FixedTable(PAIR, [BOUNCE]), (S, North))
    ensures ch == 0 ==> ch in UsedOn(FixedTable(PAIR, [BOUNCE]), (A, South))
  {
    InFixedTable(PAIR, [BOUNCE], (S, North), ch);
    InFixedTable(PAIR, [BOUNCE], (A, South), ch);
    assert (A, S) in OutgoingEdges(PAIR, A, South);
    assert BOUNCE in [BOUNCE];
    assert ch == 0 ==> SetsAside(PAIR, BOUNCE, (A, South), ch);
  }
}
