/** Exactly which channels a run hands out on an edge: the smallest that were free, one for each source that uses it. */
module ChannelUse {
  import opened SwitchGraph
  import opened FlowBalance
  import opened RouteConstraints
  import opened RouteWalk
  import opened RouteTrace
  import opened RouteSolution
  import opened RouteProperties

  /** The tail of an edge, and the bundle it leaves by. */
  function KeyOf(g: Graph, e: Edge): Key
    requires e in g.edges
  {
    (e.0, g.edges[e].bundle)
  }

  predicate UsesEdge(t: Tree, e: Edge) { e.1 in t.parent && t.parent[e.1] == e.0 && e.1 in t.channel }

  /** The channels the first `i` trees take on an edge. */
  function Handed(trees: seq<Tree>, e: Edge, i: nat): set<int>
    requires i <= |trees|
  {
    if i == 0 then {} else
      Handed(trees, e, i - 1) + if UsesEdge(trees[i - 1], e) then {trees[i - 1].channel[e.1]} else {}
  }

  /** The sources of those trees. */
  function Users(srcs: seq<PathEndPoint>, trees: seq<Tree>, e: Edge, i: nat): set<PathEndPoint>
    requires i <= |trees| == |srcs|
  {
    if i == 0 then {} else
      Users(srcs, trees, e, i - 1) + if UsesEdge(trees[i - 1], e) then {srcs[i - 1]} else {}
  }

  /** The channels below `c` that are not taken. */
  function FreeBelow(taken: set<int>, c: int): set<int> { set x | 0 <= x < c && x !in taken }

  lemma {:induction false} InUsers(srcs: seq<PathEndPoint>, trees: seq<Tree>, e: Edge, i: nat, src: PathEndPoint)
    requires i <= |trees| == |srcs|
    ensures src in Users(srcs, trees, e, i) <==> exists k :: 0 <= k < i && UsesEdge(trees[k], e) && srcs[k] == src
  {
    if i > 0 {
      InUsers(srcs, trees, e, i - 1, src);
    }
  }

  lemma {:induction false} InHanded(trees: seq<Tree>, e: Edge, i: nat, c: int)
    requires i <= |trees|
    ensures c in Handed(trees, e, i) <==>
      exists k :: 0 <= k < i && UsesEdge(trees[k], e) && trees[k].channel[e.1] == c
  {
    if i > 0 {
      InHanded(trees, e, i - 1, c);
    }
  }

  /** A tree takes its one channel on the edges it uses, and nothing on the others. */
  lemma TakenOnEdge(g: Graph, root: Switchbox, t: Tree, e: Edge)
    requires WellFormed(g) && t.Valid(g, root) && e in g.edges
    ensures TakenOn(g, root, t, KeyOf(g, e)) == if UsesEdge(t, e) then {t.channel[e.1]} else {}
  {
    forall n | n in t.parent && (t.parent[n], t.Bundle(g, n)) == KeyOf(g, e) ensures n == e.1 {
      BundleDeterminesEdge(g, (t.parent[n], n), e);
    }
    if UsesEdge(t, e) {
      assert (t.parent[e.1], t.Bundle(g, e.1)) == KeyOf(g, e);
    }
  }

  lemma SourceUse(g: Graph, paths: seq<FlowPath>, src: PathEndPoint, s: Settings, t: Tree, rank: Ranks,
                  before: ChannelSets, now: ChannelSets, e: Edge)
    requires WellFormed(g) && SourceRouted(g, paths, src, s, t, rank, before, now) && e in g.edges
    ensures UsedOn(now, KeyOf(g, e)) == UsedOn(before, KeyOf(g, e)) + if UsesEdge(t, e) then {t.channel[e.1]} else {}
    ensures UsesEdge(t, e) ==> IsNextFree(UsedOn(before, KeyOf(g, e)), t.channel[e.1])
  {
    TakenOnEdge(g, src.sb, t, e);
    if UsesEdge(t, e) {
      ChildIsAllotted(g, src.sb, t, before, now, e.1);
    }
  }

  /** After the first `i` sources an edge has lost exactly the channels they were handed, one for each that uses it. */
  lemma {:induction false} HandedSoFar(g: Graph, paths: seq<FlowPath>, solution: map<PathEndPoint, Settings>,
                                       trees: seq<Tree>, ranks: seq<Ranks>, history: seq<ChannelSets>, i: nat, e: Edge)
    requires WellFormed(g) && Routed(g, paths, DictKeys(Sources(paths)), solution, trees, ranks, history)
    requires i <= |trees| && e in g.edges
    ensures |trees| == |DictKeys(Sources(paths))| && |history| == |trees| + 1
    ensures Accounts(UsedOn(history[0], KeyOf(g, e)), UsedOn(history[i], KeyOf(g, e)), Handed(trees, e, i),
      Users(DictKeys(Sources(paths)), trees, e, i))
  {
    hide SourceRouted, Routed, WellFormed, UsedOn, UsesEdge, Sources, Accounts, Handed, Users, DictKeys;
    RunLengths(g, paths, solution, trees, ranks, history);
    if i > 0 {
      HandedSoFar(g, paths, solution, trees, ranks, history, i - 1, e);
      HandedNext(g, paths, solution, trees, ranks, history, i - 1, e);
    } else {
      NothingHanded(UsedOn(history[0], KeyOf(g, e)), DictKeys(Sources(paths)), trees, e);
    }
  }

  lemma NothingHanded(start: set<int>, srcs: seq<PathEndPoint>, trees: seq<Tree>, e: Edge)
    requires |trees| == |srcs|
    ensures Accounts(start, start, Handed(trees, e, 0), Users(srcs, trees, e, 0))
  {
    assert start + {} == start;
  }

  lemma HandedNext(g: Graph, paths: seq<FlowPath>, solution: map<PathEndPoint, Settings>,
                   trees: seq<Tree>, ranks: seq<Ranks>, history: seq<ChannelSets>, i: nat, e: Edge)
    requires WellFormed(g) && Routed(g, paths, DictKeys(Sources(paths)), solution, trees, ranks, history)
    requires i < |trees| && e in g.edges
    requires |trees| == |DictKeys(Sources(paths))| && |history| == |trees| + 1
    requires Accounts(UsedOn(history[0], KeyOf(g, e)), UsedOn(history[i], KeyOf(g, e)), Handed(trees, e, i),
      Users(DictKeys(Sources(paths)), trees, e, i))
    ensures Accounts(UsedOn(history[0], KeyOf(g, e)), UsedOn(history[i + 1], KeyOf(g, e)), Handed(trees, e, i + 1),
      Users(DictKeys(Sources(paths)), trees, e, i + 1))
  {
    hide SourceRouted, Routed, WellFormed, UsedOn, IsNextFree, Sources, Accounts, DictKeys;
    var srcs := DictKeys(Sources(paths));
    SourceOfRun(g, paths, solution, trees, ranks, history, i);
    SourceUse(g, paths, srcs[i], solution[srcs[i]], trees[i], ranks[i], history[i], history[i + 1], e);
    DictKeysAreDistinct(Sources(paths));
    InUsers(srcs, trees, e, i, srcs[i]);
    var before := UsedOn(history[i], KeyOf(g, e));
    if UsesEdge(trees[i], e) {
      var c := trees[i].channel[e.1];
      NextFreeIsFree(before, c);
      OneMore(UsedOn(history[0], KeyOf(g, e)), before, Handed(trees, e, i), Users(srcs, trees, e, i), c, srcs[i]);
    } else {
      assert before + {} == before && Handed(trees, e, i) + {} == Handed(trees, e, i);
      assert Users(srcs, trees, e, i) + {} == Users(srcs, trees, e, i);
    }
  }

  /** What was taken at the start and what was handed out since are what is taken now, one channel for each user. */
  ghost predicate Accounts(start: set<int>, now: set<int>, handed: set<int>, users: set<PathEndPoint>) {
    now == start + handed && handed !! start && |handed| == |users|
  }

  lemma OneMore(start: set<int>, now: set<int>, handed: set<int>, users: set<PathEndPoint>, c: int, src: PathEndPoint)
    requires Accounts(start, now, handed, users) && c !in now && src !in users
    ensures Accounts(start, now + {c}, handed + {c}, users + {src})
  {}

  lemma NextFreeIsFree(taken: set<int>, ch: int)
    ensures IsNextFree(taken, ch) ==> ch !in taken && ch >= 0 && FreeBelow(taken, ch) == {}
  {}

  lemma RunLengths(g: Graph, paths: seq<FlowPath>, solution: map<PathEndPoint, Settings>,
                   trees: seq<Tree>, ranks: seq<Ranks>, history: seq<ChannelSets>)
    requires Routed(g, paths, DictKeys(Sources(paths)), solution, trees, ranks, history)
    ensures |trees| == |ranks| == |DictKeys(Sources(paths))| && |history| == |trees| + 1
  {}

  lemma SourceOfRun(g: Graph, paths: seq<FlowPath>, solution: map<PathEndPoint, Settings>,
                    trees: seq<Tree>, ranks: seq<Ranks>, history: seq<ChannelSets>, i: nat)
    requires Routed(g, paths, DictKeys(Sources(paths)), solution, trees, ranks, history) && i < |trees|
    ensures |trees| == |ranks| == |DictKeys(Sources(paths))| && |history| == |trees| + 1
    ensures var src := DictKeys(Sources(paths))[i];
      src in solution && SourceRouted(g, paths, src, solution[src], trees[i], ranks[i], history[i], history[i + 1])
  {
    hide SourceRouted;
  }

  /** When a channel was handed out, every free one below it had been. */
  lemma {:induction false} HandedInOrder(g: Graph, paths: seq<FlowPath>, solution: map<PathEndPoint, Settings>,
                                         trees: seq<Tree>, ranks: seq<Ranks>, history: seq<ChannelSets>, i: nat,
                                         e: Edge, c: int)
    requires WellFormed(g) && Routed(g, paths, DictKeys(Sources(paths)), solution, trees, ranks, history)
    requires i <= |trees| && e in g.edges && c in Handed(trees, e, i)
    ensures |history| == |trees| + 1 && c >= 0
    ensures FreeBelow(UsedOn(history[0], KeyOf(g, e)), c) + {c} <= Handed(trees, e, i)
  {
    hide SourceRouted, Routed, WellFormed, UsedOn, IsNextFree, UsesEdge, Sources;
    var srcs := DictKeys(Sources(paths));
    RunLengths(g, paths, solution, trees, ranks, history);
    if c in Handed(trees, e, i - 1) {
      HandedInOrder(g, paths, solution, trees, ranks, history, i - 1, e, c);
    } else {
      HandedSoFar(g, paths, solution, trees, ranks, history, i - 1, e);
      SourceOfRun(g, paths, solution, trees, ranks, history, i - 1);
      SourceUse(g, paths, srcs[i - 1], solution[srcs[i - 1]], trees[i - 1], ranks[i - 1],
        history[i - 1], history[i], e);
      NextFreeIsFree(UsedOn(history[i - 1], KeyOf(g, e)), c);
      FreeAfter(UsedOn(history[0], KeyOf(g, e)), Handed(trees, e, i - 1), c);
    }
  }

  lemma FreeAfter(taken: set<int>, more: set<int>, c: int)
    requires FreeBelow(taken + more, c) == {}
    ensures FreeBelow(taken, c) <= more
  {
    forall x | x in FreeBelow(taken, c) ensures x in more {
      assert x !in FreeBelow(taken + more, c);
    }
  }

  /** A set of numbers outside `taken` that leaves no gap contains `c` exactly when it has more members than there are
      free numbers below `c`. */
  lemma GaplessIff(taken: set<int>, all: set<int>, c: int)
    requires all !! taken
    requires forall d :: d in all ==> d >= 0 && FreeBelow(taken, d) + {d} <= all
    ensures c in all <==> c >= 0 && c !in taken && |FreeBelow(taken, c)| < |all|
  {
    if c in all {
      SubsetSize(FreeBelow(taken, c) + {c}, all);
    } else if c >= 0 && c !in taken {
      forall d | d in all ensures d in FreeBelow(taken, c) {
        assert d > c ==> c in FreeBelow(taken, d);
      }
      SubsetSize(all, FreeBelow(taken, c));
    }
  }

  /** The tree of a source, a function of the paths, has the edge. */
  predicate Enters(paths: seq<FlowPath>, src: PathEndPoint, e: Edge) {
    var tree := TreeOf(paths, src);
    tree.Some? && e.1 in tree.value && tree.value[e.1] == e.0
  }

  /** The sources that will use an edge, known from the paths. */
  function UsersOf(paths: seq<FlowPath>, e: Edge): set<PathEndPoint> {
    set src | src in Sources(paths) && Enters(paths, src, e)
  }

  /** The sources whose trees use an edge in a run are those whose trees, as a function of the paths, have it. */
  lemma UsersAreKnown(g: Graph, paths: seq<FlowPath>, solution: map<PathEndPoint, Settings>,
                      trees: seq<Tree>, ranks: seq<Ranks>, history: seq<ChannelSets>, e: Edge)
    requires Routed(g, paths, DictKeys(Sources(paths)), solution, trees, ranks, history)
    ensures |trees| == |DictKeys(Sources(paths))|
    ensures Users(DictKeys(Sources(paths)), trees, e, |trees|) == UsersOf(paths, e)
  {
    DictKeysAreDistinct(Sources(paths));
    RunLengths(g, paths, solution, trees, ranks, history);
    hide Routed, Sources, DictKeys, Users, Finished, Falling, TreeOf;
    var srcs := DictKeys(Sources(paths));
    forall src ensures src in Users(srcs, trees, e, |trees|) <==> src in UsersOf(paths, e) {
      InUsers(srcs, trees, e, |trees|, src);
      forall k | 0 <= k < |trees| ensures UsesEdge(trees[k], e) <==> Enters(paths, srcs[k], e) {
        SourceOfRun(g, paths, solution, trees, ranks, history, k);
      }
      if src in UsersOf(paths, e) {
        var k :| 0 <= k < |srcs| && srcs[k] == src;
        assert UsesEdge(trees[k], e);
      }
    }
  }

  /** A channel is handed out exactly when it was free and fewer free ones lie below it than sources use the edge. */
  lemma HandedIff(g: Graph, paths: seq<FlowPath>, solution: map<PathEndPoint, Settings>,
                  trees: seq<Tree>, ranks: seq<Ranks>, history: seq<ChannelSets>, e: Edge, c: int)
    requires WellFormed(g) && Routed(g, paths, DictKeys(Sources(paths)), solution, trees, ranks, history)
    requires e in g.edges
    ensures |trees| == |DictKeys(Sources(paths))| && |history| == |trees| + 1
    ensures var taken := UsedOn(history[0], KeyOf(g, e));
      c in Handed(trees, e, |trees|) <==>
        c >= 0 && c !in taken && |FreeBelow(taken, c)| < |UsersOf(paths, e)|
  {
    var taken, all := UsedOn(history[0], KeyOf(g, e)), Handed(trees, e, |trees|);
    HandedSoFar(g, paths, solution, trees, ranks, history, |trees|, e);
    UsersAreKnown(g, paths, solution, trees, ranks, history, e);
    forall d | d in all ensures d >= 0 && FreeBelow(taken, d) + {d} <= all {
      HandedInOrder(g, paths, solution, trees, ranks, history, |trees|, e, d);
    }
    hide Routed, WellFormed, Handed, UsedOn, FreeBelow, Users, UsersOf;
    GaplessIff(taken, all, c);
  }

  // ----- hops are the channels handed out

  lemma HopUsesEdge(g: Graph, paths: seq<FlowPath>, src: PathEndPoint, s: Settings, t: Tree, rank: Ranks,
                    before: ChannelSets, now: ChannelSets, e: Edge, c: int)
    requires WellFormed(g) && SourceRouted(g, paths, src, s, t, rank, before, now) && e in g.edges
    requires IsHop(paths, src, s, e.0, Port(g.edges[e].bundle, c))
    ensures UsesEdge(t, e) && t.channel[e.1] == c
  {
    var p := Port(g.edges[e].bundle, c);
    var n := HopHasChild(g, src, t, EndPoints(DestinationsOf(paths, src)), s, e.0, p);
    BundleDeterminesEdge(g, (e.0, n), e);
  }

  lemma EdgeUseIsHop(g: Graph, paths: seq<FlowPath>, src: PathEndPoint, s: Settings, t: Tree, rank: Ranks,
                     before: ChannelSets, now: ChannelSets, e: Edge)
    requires WellFormed(g) && SourceRouted(g, paths, src, s, t, rank, before, now) && e in g.edges
    requires UsesEdge(t, e)
    requires forall end :: end in EndPoints(DestinationsOf(paths, src)) && (end.sb, end.port.bundle) == KeyOf(g, e) ==>
      end.port.channel in UsedOn(before, KeyOf(g, e))
    ensures IsHop(paths, src, s, e.0, Port(g.edges[e].bundle, t.channel[e.1]))
  {
    var ends := EndPoints(DestinationsOf(paths, src));
    SourceUse(g, paths, src, s, t, rank, before, now, e);
    assert Port(t.Bundle(g, e.1), t.channel[e.1]) in OutgoingPorts(g, src.sb, t, ends, e.0);
  }

  /** What every run starts from: the ports of all destinations are taken. */
  lemma EndsAreTaken(g: Graph, paths: seq<FlowPath>, solution: map<PathEndPoint, Settings>,
                     trees: seq<Tree>, ranks: seq<Ranks>, history: seq<ChannelSets>, fixed: ChannelSets, i: nat,
                     src: PathEndPoint, end: PathEndPoint)
    requires Routed(g, paths, DictKeys(Sources(paths)), solution, trees, ranks, history)
    requires history[0] == WithEndpoints(fixed, paths) && i < |history|
    requires end in EndPoints(DestinationsOf(paths, src))
    ensures end.port.channel in UsedOn(history[i], (end.sb, end.port.bundle))
  {
    var key := (end.sb, end.port.bundle);
    EndIsFlow(paths, src, end);
    EndpointsTaken(fixed, paths, key);
    assert end.port.channel in EndpointChannels(paths, key);
    HistoryGrows(g, paths, solution, trees, ranks, history, 0, i, key);
  }

  /** The hops of source `i` on an edge are the one channel its tree takes there. */
  lemma HopIff(g: Graph, paths: seq<FlowPath>, solution: map<PathEndPoint, Settings>,
               trees: seq<Tree>, ranks: seq<Ranks>, history: seq<ChannelSets>, fixed: ChannelSets,
               i: nat, e: Edge, c: int)
    requires WellFormed(g) && Routed(g, paths, DictKeys(Sources(paths)), solution, trees, ranks, history)
    requires history[0] == WithEndpoints(fixed, paths) && i < |trees| && e in g.edges
    ensures |trees| == |DictKeys(Sources(paths))|
    ensures var src := DictKeys(Sources(paths))[i];
      && src in solution
      && (IsHop(paths, src, solution[src], e.0, Port(g.edges[e].bundle, c)) <==>
        UsesEdge(trees[i], e) && trees[i].channel[e.1] == c)
  {
    var src := DictKeys(Sources(paths))[i];
    assert SourceRouted(g, paths, src, solution[src], trees[i], ranks[i], history[i], history[i + 1]);
    if IsHop(paths, src, solution[src], e.0, Port(g.edges[e].bundle, c)) {
      HopUsesEdge(g, paths, src, solution[src], trees[i], ranks[i], history[i], history[i + 1], e, c);
    } else if UsesEdge(trees[i], e) {
      forall end | end in EndPoints(DestinationsOf(paths, src)) && (end.sb, end.port.bundle) == KeyOf(g, e)
        ensures end.port.channel in UsedOn(history[i], KeyOf(g, e))
      {
        EndsAreTaken(g, paths, solution, trees, ranks, history, fixed, i, src, end);
      }
      EdgeUseIsHop(g, paths, src, solution[src], trees[i], ranks[i], history[i], history[i + 1], e);
    }
  }
}
