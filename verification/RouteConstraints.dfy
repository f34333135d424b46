/** The constraint model of the router, and what its optimal solutions look like. */
module RouteConstraints {
  import opened SwitchGraph
  import opened FlowBalance

  /** One set of used edges for each vector of 0/1 edge variables, in the order the vectors were made. */
  type Assignment = seq<set<Edge>>

  /** The keys of a dictionary filled from a list: first occurrences, in order. */
  function DictKeys<T(==)>(xs: seq<T>): seq<T> {
    if xs == [] then [] else
      var keys := DictKeys(xs[..|xs| - 1]);
      if xs[|xs| - 1] in keys then keys else keys + [xs[|xs| - 1]]
  }

  lemma {:induction false} DictKeysAreDistinct<T>(xs: seq<T>)
    ensures |DictKeys(xs)| <= |xs|
    ensures forall x :: x in DictKeys(xs) <==> x in xs
    ensures forall i, j :: 0 <= i < j < |DictKeys(xs)| ==> DictKeys(xs)[i] != DictKeys(xs)[j]
  {
    if xs != [] {
      DictKeysAreDistinct(xs[..|xs| - 1]);
      assert xs == xs[..|xs| - 1] + [xs[|xs| - 1]];
    }
  }

  // ----- what is posted for one flow

  function InFromNeighbors(g: Graph, used: set<Edge>, n: Switchbox): set<Edge> {
    set e | e in In(used, n) && (n, e.0) in g.edges
  }

  /** The balance constraints on the variables of one flow. */
  ghost predicate FlowPosted(g: Graph, src: Switchbox, tgt: Switchbox, used: set<Edge>) {
    && used <= g.edges.Keys
    && |Out(used, src)| == 1
    && |InFromNeighbors(g, used, src)| == 0
    && |Out(used, tgt)| == 0
    && |InFromNeighbors(g, used, tgt)| == 1
    && (forall n :: n in g.nodes && n != src && n != tgt ==> |In(used, n)| == |Out(used, n)|)
  }

  /** A flow that starts and ends on one switchbox has no solution. */
  lemma SameSwitchboxInfeasible(g: Graph, sb: Switchbox, used: set<Edge>)
    ensures !FlowPosted(g, sb, sb, used)
  {}

  /** A posted flow contains a simple path, and the path alone would satisfy what was posted. */
  lemma PostedFlowContainsPath(g: Graph, src: Switchbox, tgt: Switchbox, used: set<Edge>)
    returns (p: seq<Switchbox>)
    requires WellFormed(g) && FlowPosted(g, src, tgt, used)
    ensures SimplePath(p, src, tgt) && PathEdges(p) <= used
    ensures FlowPosted(g, src, tgt, PathEdges(p))
  {
    SameSwitchboxInfeasible(g, src, used);
    SubsetSize(InFromNeighbors(g, used, tgt), In(used, tgt));
    var first :| first in Out(used, src);
    var last :| last in InFromNeighbors(g, used, tgt);
    EndpointsExact(g.nodes, used, src, tgt);
    p := BalancedContainsPath(g.nodes, used, src, tgt);
    var es := PathEdges(p);
    forall n | n in g.nodes ensures n != src && n != tgt ==> |In(es, n)| == |Out(es, n)| {
      PathDegrees(p, src, tgt, n);
    }
    PathDegrees(p, src, tgt, src);
    PathDegrees(p, src, tgt, tgt);
    PathEndsAtNeighbor(g, used, es, tgt);
  }

  lemma PathEndsAtNeighbor(g: Graph, used: set<Edge>, es: set<Edge>, tgt: Switchbox)
    requires es <= used
    requires |In(used, tgt)| == |InFromNeighbors(g, used, tgt)| == |In(es, tgt)| == 1
    ensures |InFromNeighbors(g, es, tgt)| == 1
  {
    SubsetSize(InFromNeighbors(g, used, tgt), In(used, tgt));
    assert In(es, tgt) <= In(used, tgt);
    forall e | e in In(es, tgt) ensures e in InFromNeighbors(g, es, tgt) {
      assert e in InFromNeighbors(g, used, tgt);
    }
    assert InFromNeighbors(g, es, tgt) == In(es, tgt);
  }

  /** Conversely, every simple path between two switchboxes meets what is posted, if wires run both ways at `tgt`. */
  lemma RouteIsPosted(g: Graph, src: Switchbox, tgt: Switchbox, used: set<Edge>)
    requires WellFormed(g) && used <= g.edges.Keys && src != tgt
    requires IsRoute(used, src, tgt)
    requires forall e :: e in g.edges && e.1 == tgt ==> (tgt, e.0) in g.edges
    ensures FlowPosted(g, src, tgt, used)
  {
    var p :| SimplePath(p, src, tgt) && PathEdges(p) == used;
    forall n | n in g.nodes ensures n != src && n != tgt ==> |In(used, n)| == |Out(used, n)| {
      PathDegrees(p, src, tgt, n);
    }
    PathDegrees(p, src, tgt, src);
    PathDegrees(p, src, tgt, tgt);
    assert InFromNeighbors(g, used, tgt) == In(used, tgt);
    assert InFromNeighbors(g, used, src) == {};
  }

  // ----- capacities and objective

  /** How many flows use an edge. */
  function Demand(fs: Assignment, e: Edge): nat {
    if fs == [] then 0 else (if e in fs[0] then 1 else 0) + Demand(fs[1..], e)
  }

  /** How many pairs of flows share an edge. */
  function Overlap(fs: Assignment, e: Edge): nat {
    if fs == [] then 0 else (if e in fs[0] then Demand(fs[1..], e) else 0) + Overlap(fs[1..], e)
  }

  function EdgeCost(fs: Assignment, e: Edge, minEdges: bool): nat {
    Demand(fs, e) + if minEdges then (if Demand(fs, e) > 0 then 1 else 0) else Overlap(fs, e)
  }

  function Objective(order: seq<Edge>, fs: Assignment, minEdges: bool): nat {
    if order == [] then 0 else EdgeCost(fs, order[0], minEdges) + Objective(order[1..], fs, minEdges)
  }

  /** All constraints. The flows are zipped with the variables of the *distinct* flows. Unless edges are minimised, the
      variable that counts the overlaps of an edge ranges up to the number of flows. */
  ghost predicate Feasible(g: Graph, flows: seq<Flow>, fs: Assignment, minEdges: bool) {
    && |fs| == |DictKeys(flows)| <= |flows|
    && (forall k :: 0 <= k < |fs| ==> FlowPosted(g, flows[k].0.sb, flows[k].1.sb, fs[k]))
    && (forall e :: e in g.edges ==> Demand(fs, e) <= g.edges[e].capacity)
    && (forall e :: e in g.edges ==> minEdges || Overlap(fs, e) <= |fs|)
  }

  ghost predicate Optimal(g: Graph, order: seq<Edge>, flows: seq<Flow>, fs: Assignment, minEdges: bool) {
    && Feasible(g, flows, fs, minEdges)
    && forall gs | Feasible(g, flows, gs, minEdges) ::
      Objective(order, fs, minEdges) <= Objective(order, gs, minEdges)
  }

  lemma {:induction false} DemandShrinks(fs: Assignment, k: nat, es: set<Edge>, e: Edge)
    requires k < |fs| && es <= fs[k]
    ensures Demand(fs[k := es], e) == Demand(fs, e) - (if e in fs[k] && e !in es then 1 else 0)
  {
    if k == 0 {
      assert fs[k := es][1..] == fs[1..];
    } else {
      DemandShrinks(fs[1..], k - 1, es, e);
      assert fs[k := es][1..] == fs[1..][k - 1 := es];
    }
  }

  lemma {:induction false} OverlapShrinks(fs: Assignment, k: nat, es: set<Edge>, e: Edge)
    requires k < |fs| && es <= fs[k]
    ensures Overlap(fs[k := es], e) <= Overlap(fs, e)
  {
    if k == 0 {
      assert fs[k := es][1..] == fs[1..];
    } else {
      OverlapShrinks(fs[1..], k - 1, es, e);
      DemandShrinks(fs[1..], k - 1, es, e);
      assert fs[k := es][1..] == fs[1..][k - 1 := es];
    }
  }

  lemma {:induction false} ObjectiveShrinks(order: seq<Edge>, fs: Assignment, k: nat, es: set<Edge>, minEdges: bool)
    requires k < |fs| && es <= fs[k]
    ensures Objective(order, fs[k := es], minEdges) <= Objective(order, fs, minEdges)
    ensures (exists e :: e in order && e in fs[k] && e !in es) ==>
      Objective(order, fs[k := es], minEdges) < Objective(order, fs, minEdges)
  {
    if order != [] {
      ObjectiveShrinks(order[1..], fs, k, es, minEdges);
      DemandShrinks(fs, k, es, order[0]);
      OverlapShrinks(fs, k, es, order[0]);
      if e :| e in order && e in fs[k] && e !in es && e != order[0] {
        assert e in order[1..];
      }
    }
  }

  /** Replacing one flow's edges by a path among them keeps every constraint. */
  lemma ShrinkKeepsFeasible(g: Graph, flows: seq<Flow>, fs: Assignment, minEdges: bool, k: nat, es: set<Edge>)
    requires Feasible(g, flows, fs, minEdges) && k < |fs| && es <= fs[k]
    requires FlowPosted(g, flows[k].0.sb, flows[k].1.sb, es)
    ensures Feasible(g, flows, fs[k := es], minEdges)
  {
    forall e | e in g.edges
      ensures Demand(fs[k := es], e) <= g.edges[e].capacity
      ensures minEdges || Overlap(fs[k := es], e) <= |fs|
    {
      DemandShrinks(fs, k, es, e);
      OverlapShrinks(fs, k, es, e);
    }
  }

  /** In either mode, an optimal solution uses exactly the edges of one simple path for each flow. */
  lemma OptimalIsRoute(g: Graph, order: seq<Edge>, flows: seq<Flow>, fs: Assignment, minEdges: bool, k: nat)
    requires WellFormed(g) && forall e :: e in g.edges ==> e in order
    requires Optimal(g, order, flows, fs, minEdges) && k < |fs|
    ensures flows[k].0.sb != flows[k].1.sb
    ensures IsRoute(fs[k], flows[k].0.sb, flows[k].1.sb)
  {
    var src, tgt := flows[k].0.sb, flows[k].1.sb;
    SameSwitchboxInfeasible(g, src, fs[k]);
    var p := PostedFlowContainsPath(g, src, tgt, fs[k]);
    NoSmaller(g, order, flows, fs, minEdges, k, PathEdges(p));
  }

  /** No part of an optimal flow's edges would do. */
  lemma NoSmaller(g: Graph, order: seq<Edge>, flows: seq<Flow>, fs: Assignment, minEdges: bool, k: nat, es: set<Edge>)
    requires forall e :: e in g.edges ==> e in order
    requires Optimal(g, order, flows, fs, minEdges) && k < |fs| && es <= fs[k]
    requires FlowPosted(g, flows[k].0.sb, flows[k].1.sb, es)
    ensures es == fs[k]
  {
    assert fs[k] <= g.edges.Keys;
    ShrinkKeepsFeasible(g, flows, fs, minEdges, k, es);
    hide Feasible, FlowPosted, Objective;
    ObjectiveShrinks(order, fs, k, es, minEdges);
    assert forall e :: e in fs[k] ==> e in order;
  }

  // ----- what is returned

  /** A flow and the edges chosen for it. */
  type FlowPath = (Flow, set<Edge>)

  function EdgeSets(paths: seq<FlowPath>): Assignment { seq(|paths|, k requires 0 <= k < |paths| => paths[k].1) }

  /** The ends of a route can be read off its edges. */
  lemma RouteDeterminesEnds(used: set<Edge>, a: Switchbox, b: Switchbox, c: Switchbox, d: Switchbox)
    requires a != b && IsRoute(used, a, b) && IsRoute(used, c, d)
    ensures a == c && b == d
  {
    var p :| SimplePath(p, a, b) && PathEdges(p) == used;
    var q :| SimplePath(q, c, d) && PathEdges(q) == used;
    PathDegrees(p, a, b, a);
    PathDegrees(p, a, b, b);
    PathDegrees(q, c, d, a);
    PathDegrees(q, c, d, b);
    assert a in p && b in p;
  }

  datatype ModelOutcome = KeyError | Posted

  /** Posting fails on a missing node or reverse edge at an endpoint, in either mode. */
  ghost function PostModel(g: Graph, flows: seq<Flow>): ModelOutcome {
    var n := |DictKeys(flows)|;
    if exists k, sb :: 0 <= k < n && k < |flows| && (sb == flows[k].0.sb || sb == flows[k].1.sb) && !HasNeighbors(g, sb)
    then KeyError
    else Posted
  }

  ghost predicate HasNeighbors(g: Graph, sb: Switchbox) {
    sb in g.nodes && forall j :: (sb, j) in g.edges ==> (j, sb) in g.edges
  }

  /** The solver stops with a proven optimum, or with the best solution it found in time. */
  datatype Status = OPTIMAL | FEASIBLE

  /** What `route_using_cp` returns for a status: the distinct flows with the edges of their variables. */
  ghost predicate CpReturns(g: Graph, order: seq<Edge>, flows: seq<Flow>, minEdges: bool, status: Status,
                            paths: seq<FlowPath>) {
    && PostModel(g, flows) == Posted
    && |paths| == |DictKeys(flows)|
    && (forall k :: 0 <= k < |paths| ==> paths[k].0 == DictKeys(flows)[k])
    && Feasible(g, flows, EdgeSets(paths), minEdges)
    && (status == OPTIMAL ==> Optimal(g, order, flows, EdgeSets(paths), minEdges))
  }

  /** The path returned for a flow is a route for it exactly when it was the flow its variables were posted for. */
  lemma ReturnedPathIsRoute(g: Graph, order: seq<Edge>, flows: seq<Flow>, minEdges: bool,
                            paths: seq<FlowPath>, k: nat)
    requires WellFormed(g) && forall e :: e in g.edges ==> e in order
    requires CpReturns(g, order, flows, minEdges, OPTIMAL, paths) && k < |paths|
    ensures k < |flows|
    ensures IsRoute(paths[k].1, paths[k].0.0.sb, paths[k].0.1.sb)
       <==> paths[k].0.0.sb == flows[k].0.sb && paths[k].0.1.sb == flows[k].1.sb
  {
    var fs := EdgeSets(paths);
    OptimalIsRoute(g, order, flows, fs, minEdges, k);
    if IsRoute(paths[k].1, paths[k].0.0.sb, paths[k].0.1.sb) {
      RouteDeterminesEnds(fs[k], flows[k].0.sb, flows[k].1.sb, paths[k].0.0.sb, paths[k].0.1.sb);
    }
  }

  /** With distinct flows nothing is misaligned. */
  lemma {:induction false} DistinctFlowsAreTheirKeys<T>(xs: seq<T>)
    requires forall i, j :: 0 <= i < j < |xs| ==> xs[i] != xs[j]
    ensures DictKeys(xs) == xs
  {
    if xs != [] {
      DistinctFlowsAreTheirKeys(xs[..|xs| - 1]);
    }
  }
}
