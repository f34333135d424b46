/** What the objective of the router counts, and what it prefers. */
module RouteObjective {
  import opened SwitchGraph
  import opened FlowBalance
  import opened RouteConstraints

  /** The edges of all flows, counted with every flow that uses them. */
  function TotalEdges(fs: Assignment): nat { if fs == [] then 0 else |fs[0]| + TotalEdges(fs[1..]) }

  /** The edges one flow shares with others, counted with each of them. */
  function SharedWith(es: set<Edge>, fs: Assignment): nat {
    if fs == [] then 0 else |es * fs[0]| + SharedWith(es, fs[1..])
  }

  /** The edges every two flows share. */
  function SharedPairs(fs: Assignment): nat {
    if fs == [] then 0 else SharedWith(fs[0], fs[1..]) + SharedPairs(fs[1..])
  }

  function UsedByAny(fs: Assignment): set<Edge> { if fs == [] then {} else fs[0] + UsedByAny(fs[1..]) }

  /** Every edge is listed once, and no flow uses others. */
  predicate Lists(order: seq<Edge>, fs: Assignment) {
    && (forall i, j :: 0 <= i < j < |order| ==> order[i] != order[j])
    && forall k, e :: 0 <= k < |fs| && e in fs[k] ==> e in order
  }

  // ----- sums over the listed edges

  function Sum(order: seq<Edge>, h: Edge -> int): int {
    if order == [] then 0 else h(order[0]) + Sum(order[1..], h)
  }

  lemma {:induction false} SumAdds(order: seq<Edge>, h: Edge -> int, h1: Edge -> int, h2: Edge -> int)
    requires forall e :: h(e) == h1(e) + h2(e)
    ensures Sum(order, h) == Sum(order, h1) + Sum(order, h2)
  {
    if order != [] {
      SumAdds(order[1..], h, h1, h2);
    }
  }

  /** The listed edges of a set, counted one by one. */
  lemma {:induction false} SumCounts(order: seq<Edge>, h: Edge -> int, es: set<Edge>)
    requires forall i, j :: 0 <= i < j < |order| ==> order[i] != order[j]
    requires (forall e :: h(e) == if e in es then 1 else 0) && forall e :: e in es ==> e in order
    ensures Sum(order, h) == |es|
    decreases |order|
  {
    if order == [] {
      assert es == {};
    } else {
      var first, rest := order[0], order[1..];
      var h' := (e: Edge) => if e in es - {first} then 1 else 0;
      SumSame(rest, h, h');
      SumCounts(rest, h', es - {first});
    }
  }

  lemma {:induction false} SumSame(order: seq<Edge>, h: Edge -> int, h': Edge -> int)
    requires forall e :: e in order ==> h(e) == h'(e)
    ensures Sum(order, h) == Sum(order, h')
  {
    if order != [] {
      SumSame(order[1..], h, h');
    }
  }

  lemma {:induction false} SumNothing(order: seq<Edge>, h: Edge -> int)
    requires forall e :: h(e) == 0
    ensures Sum(order, h) == 0
  {
    if order != [] {
      SumNothing(order[1..], h);
    }
  }

  lemma {:induction false} ObjectiveIsSum(order: seq<Edge>, fs: Assignment, minEdges: bool)
    ensures Objective(order, fs, minEdges) == Sum(order, (e: Edge) => EdgeCost(fs, e, minEdges))
  {
    if order != [] {
      ObjectiveIsSum(order[1..], fs, minEdges);
      hide EdgeCost;
    }
  }

  lemma {:induction false} SumShared(order: seq<Edge>, es: set<Edge>, fs: Assignment)
    requires Lists(order, fs)
    ensures Sum(order, (e: Edge) => if e in es then Demand(fs, e) else 0) == SharedWith(es, fs)
  {
    var h := (e: Edge) => if e in es then Demand(fs, e) else 0;
    if fs == [] {
      SumNothing(order, h);
    } else {
      var h1 := (e: Edge) => if e in es * fs[0] then 1 else 0;
      var h2 := (e: Edge) => if e in es then Demand(fs[1..], e) else 0;
      SumShared(order, es, fs[1..]);
      SumAdds(order, h, h1, h2);
      SumCounts(order, h1, es * fs[0]);
    }
  }

  lemma {:induction false} SumDemand(order: seq<Edge>, fs: Assignment)
    requires Lists(order, fs)
    ensures Sum(order, (e: Edge) => Demand(fs, e)) == TotalEdges(fs)
  {
    var h := (e: Edge) => Demand(fs, e);
    if fs == [] {
      SumNothing(order, h);
    } else {
      var h1 := (e: Edge) => if e in fs[0] then 1 else 0;
      var h2 := (e: Edge) => Demand(fs[1..], e);
      SumDemand(order, fs[1..]);
      SumAdds(order, h, h1, h2);
      SumCounts(order, h1, fs[0]);
    }
  }

  lemma {:induction false} SumOverlap(order: seq<Edge>, fs: Assignment)
    requires Lists(order, fs)
    ensures Sum(order, (e: Edge) => Overlap(fs, e)) == SharedPairs(fs)
  {
    var h := (e: Edge) => Overlap(fs, e);
    if fs == [] {
      SumNothing(order, h);
    } else {
      var h1 := (e: Edge) => if e in fs[0] then Demand(fs[1..], e) else 0;
      var h2 := (e: Edge) => Overlap(fs[1..], e);
      SumOverlap(order, fs[1..]);
      SumAdds(order, h, h1, h2);
      SumShared(order, fs[0], fs[1..]);
    }
  }

  lemma {:induction false} UsedIff(fs: Assignment, e: Edge)
    ensures Demand(fs, e) > 0 <==> e in UsedByAny(fs)
    ensures e in UsedByAny(fs) <==> exists k :: 0 <= k < |fs| && e in fs[k]
  {
    if fs != [] {
      UsedIff(fs[1..], e);
      assert forall k :: 0 < k < |fs| ==> fs[k] == fs[1..][k - 1];
    }
  }

  lemma SumUsed(order: seq<Edge>, fs: Assignment)
    requires Lists(order, fs)
    ensures Sum(order, (e: Edge) => if Demand(fs, e) > 0 then 1 else 0) == |UsedByAny(fs)|
  {
    forall e ensures Demand(fs, e) > 0 <==> e in UsedByAny(fs)
      ensures e in UsedByAny(fs) ==> e in order
    {
      UsedIff(fs, e);
    }
    SumCounts(order, (e: Edge) => if Demand(fs, e) > 0 then 1 else 0, UsedByAny(fs));
  }

  /** The default objective: the edges of all flows, and the edges every two flows share. */
  lemma DefaultObjective(order: seq<Edge>, fs: Assignment)
    requires Lists(order, fs)
    ensures Objective(order, fs, false) == TotalEdges(fs) + SharedPairs(fs)
  {
    ObjectiveIsSum(order, fs, false);
    SumAdds(order, (e: Edge) => EdgeCost(fs, e, false), (e: Edge) => Demand(fs, e), (e: Edge) => Overlap(fs, e));
    SumDemand(order, fs);
    SumOverlap(order, fs);
  }

  /** The other one: the edges of all flows, and every edge that is used at all. */
  lemma MinEdgesObjective(order: seq<Edge>, fs: Assignment)
    requires Lists(order, fs)
    ensures Objective(order, fs, true) == TotalEdges(fs) + |UsedByAny(fs)|
  {
    ObjectiveIsSum(order, fs, true);
    SumAdds(order, (e: Edge) => EdgeCost(fs, e, true), (e: Edge) => Demand(fs, e),
      (e: Edge) => if Demand(fs, e) > 0 then 1 else 0);
    SumDemand(order, fs);
    SumUsed(order, fs);
  }

  // ----- two flows across a square

  const A := Switchbox(0, 0)
  const B := Switchbox(1, 0)
  const C := Switchbox(0, 1)
  const D := Switchbox(1, 1)

  /** Four switchboxes with two channels in every direction. */
  const SQUARE: Graph := Graph({A, B, C, D}, map[
    (A, B) := EdgeData(East, 2), (B, A) := EdgeData(West, 2), (C, D) := EdgeData(East, 2), (D, C) := EdgeData(West, 2),
    (A, C) := EdgeData(North, 2), (C, A) := EdgeData(South, 2),
    (B, D) := EdgeData(North, 2), (D, B) := EdgeData(South, 2)])

  const ACROSS: seq<Flow> := [
    (PathEndPoint(A, Port(DMA, 0)), PathEndPoint(D, Port(DMA, 0))),
    (PathEndPoint(A, Port(DMA, 1)), PathEndPoint(D, Port(DMA, 1)))]

  const LOWER: set<Edge> := {(A, B), (B, D)}
  const UPPER: set<Edge> := {(A, C), (C, D)}

  lemma AcrossIsPosted()
    ensures FlowPosted(SQUARE, A, D, LOWER) && FlowPosted(SQUARE, A, D, UPPER)
  {
    assert Out(LOWER, A) == {(A, B)} && Out(LOWER, B) == {(B, D)} == In(LOWER, D) && In(LOWER, B) == {(A, B)};
    assert Out(LOWER, C) == {} == In(LOWER, C) && Out(LOWER, D) == {} == In(LOWER, A);
    assert InFromNeighbors(SQUARE, LOWER, A) == {} && InFromNeighbors(SQUARE, LOWER, D) == {(B, D)};
    assert Out(UPPER, A) == {(A, C)} && Out(UPPER, C) == {(C, D)} == In(UPPER, D) && In(UPPER, C) == {(A, C)};
    assert Out(UPPER, B) == {} == In(UPPER, B) && Out(UPPER, D) == {} == In(UPPER, A);
    assert InFromNeighbors(SQUARE, UPPER, A) == {} && InFromNeighbors(SQUARE, UPPER, D) == {(C, D)};
  }

  lemma TwoFlows(a: set<Edge>, b: set<Edge>, e: Edge)
    ensures Demand([a, b], e) <= 2 && Overlap([a, b], e) <= 1
  {
    assert [a, b][1..] == [b] && [b][1..] == [];
    assert Demand([b], e) == (if e in b then 1 else 0) && Overlap([b], e) == 0;
  }

  lemma AcrossIsFeasible(a: set<Edge>, b: set<Edge>, minEdges: bool)
    requires (a == LOWER || a == UPPER) && (b == LOWER || b == UPPER)
    ensures Feasible(SQUARE, ACROSS, [a, b], minEdges)
  {
    AcrossIsPosted();
    DistinctFlowsAreTheirKeys(ACROSS);
    hide FlowPosted, DictKeys;
    forall e | e in SQUARE.edges ensures Demand([a, b], e) <= SQUARE.edges[e].capacity && Overlap([a, b], e) <= 2 {
      TwoFlows(a, b, e);
    }
  }

  lemma TwoFlowsCost(order: seq<Edge>, a: set<Edge>, b: set<Edge>)
    requires Lists(order, [a, b])
    ensures Objective(order, [a, b], false) == |a| + |b| + |a * b|
    ensures Objective(order, [a, b], true) == |a| + |b| + |a + b|
  {
    var fs := [a, b];
    DefaultObjective(order, fs);
    MinEdgesObjective(order, fs);
    hide Objective;
    assert fs[1..] == [b] && [b][1..] == [];
    assert TotalEdges([b]) == |b| && SharedWith(a, [b]) == |a * b| && SharedWith(b, []) == 0 == SharedPairs([]);
    assert UsedByAny([]) == {} && UsedByAny([b]) == b;
  }

  lemma AcrossSets()
    ensures LOWER <= SQUARE.edges.Keys && UPPER <= SQUARE.edges.Keys && LOWER != UPPER
    ensures |LOWER| == 2 == |UPPER| && |LOWER * UPPER| == 0 && |LOWER + UPPER| == 4
  {
    assert LOWER * UPPER == {} && LOWER + UPPER == {(A, B), (B, D), (A, C), (C, D)};
    assert (A, B) in LOWER && (A, B) !in UPPER;
  }

  lemma AcrossCosts(order: seq<Edge>, b: set<Edge>)
    requires (forall i, j :: 0 <= i < j < |order| ==> order[i] != order[j])
    requires forall e :: e in SQUARE.edges ==> e in order
    requires b == LOWER || b == UPPER
    ensures Objective(order, [LOWER, b], false) == if b == LOWER then 6 else 4
    ensures Objective(order, [LOWER, b], true) == if b == LOWER then 6 else 8
  {
    AcrossSets();
    hide Objective, LOWER, UPPER, SQUARE;
    TwoFlowsCost(order, LOWER, b);
    assert LOWER * LOWER == LOWER == LOWER + LOWER;
  }

  /** By default two flows do not share their edges when they can go separate ways; when edges are minimised it is the
      other way round. */
  lemma ModesDiffer(order: seq<Edge>)
    requires (forall i, j :: 0 <= i < j < |order| ==> order[i] != order[j])
    requires forall e :: e in SQUARE.edges ==> e in order
    ensures Feasible(SQUARE, ACROSS, [LOWER, LOWER], false) && !Optimal(SQUARE, order, ACROSS, [LOWER, LOWER], false)
    ensures Feasible(SQUARE, ACROSS, [LOWER, UPPER], true) && !Optimal(SQUARE, order, ACROSS, [LOWER, UPPER], true)
  {
    hide Feasible, Objective;
    AcrossIsFeasible(LOWER, LOWER, false);
    AcrossIsFeasible(LOWER, UPPER, false);
    AcrossIsFeasible(LOWER, LOWER, true);
    AcrossIsFeasible(LOWER, UPPER, true);
    AcrossSets();
    AcrossCosts(order, LOWER);
    AcrossCosts(order, UPPER);
  }
}
