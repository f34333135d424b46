/** What a whole run guarantees: delivery, isolation of the sources, and channels the hardware has. */
module RouteProperties {
  import opened SwitchGraph
  import opened FlowBalance
  import opened RouteConstraints
  import opened RouteWalk
  import opened RouteTrace
  import opened RouteSolution

  /** The position of a source among the sources of a run. */
  lemma SourceIndex(paths: seq<FlowPath>, f: FlowPath) returns (i: nat)
    requires f in paths
    ensures i < |DictKeys(Sources(paths))| && DictKeys(Sources(paths))[i] == f.0.0
    ensures f.0.1 in EndPoints(DestinationsOf(paths, f.0.0))
  {
    DestinationsAreFlows(paths, f.0.0);
    DictKeysAreDistinct(Sources(paths));
    i :| 0 <= i < |DictKeys(Sources(paths))| && DictKeys(Sources(paths))[i] == f.0.0;
    assert f == ((f.0.0, f.0.1), f.1);
    assert (f.0.1, f.1) in DestinationsOf(paths, f.0.0);
  }

  /** Every flow is delivered by the settings of its source. */
  lemma FlowsDelivered(g: Graph, paths: seq<FlowPath>, solution: map<PathEndPoint, Settings>,
                       trees: seq<Tree>, ranks: seq<Ranks>, history: seq<ChannelSets>, f: FlowPath)
    requires WellFormed(g) && Routed(g, paths, DictKeys(Sources(paths)), solution, trees, ranks, history)
    requires f in paths
    ensures f.0.0 in solution && Delivered(solution[f.0.0], f.0.0, f.0.1)
  {
    var i := SourceIndex(paths, f);
    assert SourceRouted(g, paths, f.0.0, solution[f.0.0], trees[i], ranks[i], history[i], history[i + 1]);
    DestinationsDelivered(g, f.0.0, trees[i], EndPoints(DestinationsOf(paths, f.0.0)), solution[f.0.0],
      ranks[i], f.0.1);
  }

  // ----- isolation

  /** `p` is driven on `n` for `src`, and not because it is one of its destination ports. */
  ghost predicate IsHop(paths: seq<FlowPath>, src: PathEndPoint, s: Settings, n: Switchbox, p: Port) {
    n in s && p in s[n].dsts && PathEndPoint(n, p) !in EndPoints(DestinationsOf(paths, src))
  }

  /** A hop port leads to a child in the tree. */
  lemma HopHasChild(g: Graph, src: PathEndPoint, t: Tree, ends: set<PathEndPoint>, s: Settings, n: Switchbox, p: Port)
    returns (c: Switchbox)
    requires Finished(g, src, t, ends, s)
    requires n in s && p in s[n].dsts && PathEndPoint(n, p) !in ends
    ensures c in t.parent && t.parent[c] == n && p == Port(t.Bundle(g, c), t.channel[c])
  {
    assert p in OutgoingPorts(g, src.sb, t, ends, n);
    assert forall e :: e in ends && e.sb == n ==> e == PathEndPoint(n, e.port);
    c :| c in t.parent && t.parent[c] == n && p == Port(t.Bundle(g, c), t.channel[c]);
  }

  lemma ChildIsAllotted(g: Graph, root: Switchbox, t: Tree, before: ChannelSets, now: ChannelSets, c: Switchbox)
    requires Allotted(g, root, t, before, now) && c in t.parent
    ensures IsNextFree(UsedOn(before, (t.parent[c], t.Bundle(g, c))), t.channel[c])
    ensures t.channel[c] in UsedOn(now, (t.parent[c], t.Bundle(g, c)))
  {
    assert t.channel[c] in TakenOn(g, root, t, (t.parent[c], t.Bundle(g, c)));
  }

  /** A hop port is a grid wire whose channel was free before this source and is taken after it. */
  lemma HopIsAllotted(g: Graph, paths: seq<FlowPath>, src: PathEndPoint, s: Settings, t: Tree, rank: Ranks,
                      before: ChannelSets, now: ChannelSets, n: Switchbox, p: Port) returns (c: Switchbox)
    requires WellFormed(g) && SourceRouted(g, paths, src, s, t, rank, before, now)
    requires IsHop(paths, src, s, n, p)
    ensures (n, c) in g.edges && g.edges[(n, c)].bundle == p.bundle
    ensures IsNextFree(UsedOn(before, (n, p.bundle)), p.channel)
    ensures p.channel in UsedOn(now, (n, p.bundle))
    ensures InPaths(DestinationsOf(paths, src), (n, c))
  {
    c := HopHasChild(g, src, t, EndPoints(DestinationsOf(paths, src)), s, n, p);
    ChildIsAllotted(g, src.sb, t, before, now, c);
    TreeInPaths(src.sb, DestinationsOf(paths, src), c);
  }

  lemma {:induction false} HistoryGrows(g: Graph, paths: seq<FlowPath>, solution: map<PathEndPoint, Settings>,
                                        trees: seq<Tree>, ranks: seq<Ranks>, history: seq<ChannelSets>,
                                        i: nat, j: nat, key: Key)
    requires Routed(g, paths, DictKeys(Sources(paths)), solution, trees, ranks, history)
    requires i <= j < |history|
    ensures UsedOn(history[i], key) <= UsedOn(history[j], key)
    decreases j
  {
    if i < j {
      HistoryGrows(g, paths, solution, trees, ranks, history, i, j - 1, key);
      var src := DictKeys(Sources(paths))[j - 1];
      assert SourceRouted(g, paths, src, solution[src], trees[j - 1], ranks[j - 1], history[j - 1], history[j]);
      assert UsedOn(history[j], key) == UsedOn(history[j - 1], key) + TakenOn(g, src.sb, trees[j - 1], key);
    }
  }

  /** No hop of any source uses a fixed channel, or the port of any destination. */
  lemma HopsAvoidReserved(g: Graph, paths: seq<FlowPath>, solution: map<PathEndPoint, Settings>,
                          trees: seq<Tree>, ranks: seq<Ranks>, history: seq<ChannelSets>,
                          fixed: ChannelSets, i: nat, n: Switchbox, p: Port)
    requires WellFormed(g) && Routed(g, paths, DictKeys(Sources(paths)), solution, trees, ranks, history)
    requires history[0] == WithEndpoints(fixed, paths)
    requires i < |trees| && IsHop(paths, DictKeys(Sources(paths))[i], solution[DictKeys(Sources(paths))[i]], n, p)
    ensures p.channel !in UsedOn(fixed, (n, p.bundle))
    ensures forall f :: f in paths ==> f.0.1 != PathEndPoint(n, p)
  {
    var src := DictKeys(Sources(paths))[i];
    var c := HopIsAllotted(g, paths, src, solution[src], trees[i], ranks[i], history[i], history[i + 1], n, p);
    HistoryGrows(g, paths, solution, trees, ranks, history, 0, i, (n, p.bundle));
    EndpointsTaken(fixed, paths, (n, p.bundle));
    assert p.channel !in EndpointChannels(paths, (n, p.bundle));
  }

  /** Two sources never drive the same port, unless it is a destination both were asked to reach. */
  lemma SourcesNeverShareWires(g: Graph, paths: seq<FlowPath>, solution: map<PathEndPoint, Settings>,
                               trees: seq<Tree>, ranks: seq<Ranks>, history: seq<ChannelSets>,
                               fixed: ChannelSets, i: nat, j: nat, n: Switchbox, p: Port)
    requires WellFormed(g) && Routed(g, paths, DictKeys(Sources(paths)), solution, trees, ranks, history)
    requires history[0] == WithEndpoints(fixed, paths)
    requires i < j < |trees|
    requires
      var srcs := DictKeys(Sources(paths));
      && n in solution[srcs[i]] && p in solution[srcs[i]][n].dsts
      && n in solution[srcs[j]] && p in solution[srcs[j]][n].dsts
    ensures PathEndPoint(n, p) in EndPoints(DestinationsOf(paths, DictKeys(Sources(paths))[i]))
    ensures PathEndPoint(n, p) in EndPoints(DestinationsOf(paths, DictKeys(Sources(paths))[j]))
  {
    var srcs := DictKeys(Sources(paths));
    var si, sj := srcs[i], srcs[j];
    if IsHop(paths, si, solution[si], n, p) && IsHop(paths, sj, solution[sj], n, p) {
      var _ := HopIsAllotted(g, paths, si, solution[si], trees[i], ranks[i], history[i], history[i + 1], n, p);
      var _ := HopIsAllotted(g, paths, sj, solution[sj], trees[j], ranks[j], history[j], history[j + 1], n, p);
      HistoryGrows(g, paths, solution, trees, ranks, history, i + 1, j, (n, p.bundle));
    } else if IsHop(paths, si, solution[si], n, p) {
      EndIsFlow(paths, sj, PathEndPoint(n, p));
      HopsAvoidReserved(g, paths, solution, trees, ranks, history, fixed, i, n, p);
    } else if IsHop(paths, sj, solution[sj], n, p) {
      EndIsFlow(paths, si, PathEndPoint(n, p));
      HopsAvoidReserved(g, paths, solution, trees, ranks, history, fixed, j, n, p);
    }
  }

  lemma EndIsFlow(paths: seq<FlowPath>, src: PathEndPoint, end: PathEndPoint)
    requires end in EndPoints(DestinationsOf(paths, src))
    ensures exists f :: f in paths && f.0 == (src, end)
  {
    var d :| d in DestinationsOf(paths, src) && d.0 == end;
    DestinationsAreFlows(paths, src);
    assert ((src, d.0), d.1) in paths;
  }

  // ----- channels

  /** How many flows of the given sources use an edge. */
  function DemandOf(paths: seq<FlowPath>, srcs: set<PathEndPoint>, e: Edge): nat {
    if paths == [] then 0 else
      (if paths[0].0.0 in srcs && e in paths[0].1 then 1 else 0) + DemandOf(paths[1..], srcs, e)
  }

  lemma {:induction false} DemandOfSome(paths: seq<FlowPath>, srcs: set<PathEndPoint>, e: Edge)
    ensures DemandOf(paths, srcs, e) <= Demand(EdgeSets(paths), e)
  {
    if paths != [] {
      DemandOfSome(paths[1..], srcs, e);
      assert EdgeSets(paths)[1..] == EdgeSets(paths[1..]);
    }
  }

  lemma {:induction false} DemandOfOneMore(paths: seq<FlowPath>, srcs: set<PathEndPoint>, src: PathEndPoint, e: Edge)
    requires src !in srcs
    ensures DemandOf(paths, srcs, e) <= DemandOf(paths, srcs + {src}, e)
    ensures (exists f :: f in paths && f.0.0 == src && e in f.1) ==>
      DemandOf(paths, srcs, e) < DemandOf(paths, srcs + {src}, e)
  {
    if paths != [] {
      DemandOfOneMore(paths[1..], srcs, src, e);
      if f :| f in paths && f.0.0 == src && e in f.1 && f != paths[0] {
        assert f in paths[1..];
      }
    }
  }

  /** The sources before position `i`. */
  function Earlier(srcs: seq<PathEndPoint>, i: nat): set<PathEndPoint>
    requires i <= |srcs|
  {
    set k | 0 <= k < i :: srcs[k]
  }

  lemma PathOfSource(paths: seq<FlowPath>, src: PathEndPoint, e: Edge)
    requires InPaths(DestinationsOf(paths, src), e)
    ensures exists f :: f in paths && f.0.0 == src && e in f.1
  {
    DestinationsAreFlows(paths, src);
    var d :| d in DestinationsOf(paths, src) && e in d.1;
    var f := ((src, d.0), d.1);
    assert f in paths && f.0.0 == src && e in f.1;
  }

  /** A tree takes at most one channel on an edge, and none unless one of its source's flows uses the edge. */
  lemma TreeTakesAtMostOne(g: Graph, paths: seq<FlowPath>, src: PathEndPoint, s: Settings, t: Tree, rank: Ranks,
                           before: ChannelSets, now: ChannelSets, e: Edge)
    requires WellFormed(g) && SourceRouted(g, paths, src, s, t, rank, before, now) && e in g.edges
    ensures |TakenOn(g, src.sb, t, (e.0, g.edges[e].bundle))|
         <= if InPaths(DestinationsOf(paths, src), e) then 1 else 0
  {
    var key := (e.0, g.edges[e].bundle);
    var taken := TakenOn(g, src.sb, t, key);
    if e.1 in t.parent && t.parent[e.1] == e.0 {
      TreeInPaths(src.sb, DestinationsOf(paths, src), e.1);
      forall ch | ch in taken ensures ch == t.channel[e.1] {
        var n :| n in t.parent && (t.parent[n], t.Bundle(g, n)) == key && t.channel[n] == ch;
        BundleDeterminesEdge(g, (e.0, n), e);
      }
      SubsetSize(taken, {t.channel[e.1]});
    } else {
      forall n | n in t.parent && (t.parent[n], t.Bundle(g, n)) == key ensures false {
        BundleDeterminesEdge(g, (e.0, n), e);
      }
      assert taken == {};
    }
  }

  lemma UnionSize<T>(a: set<T>, b: set<T>)
    ensures |a + b| <= |a| + |b|
  {
    assert a + b == a + (b - a);
    SubsetSize(b - a, b);
  }

  /** Before each source, an edge has lost no more channels than there are earlier flows through it. */
  lemma {:induction false} ChannelsTakenSoFar(g: Graph, paths: seq<FlowPath>, solution: map<PathEndPoint, Settings>,
                                              trees: seq<Tree>, ranks: seq<Ranks>, history: seq<ChannelSets>,
                                              i: nat, e: Edge)
    requires WellFormed(g) && Routed(g, paths, DictKeys(Sources(paths)), solution, trees, ranks, history)
    requires i < |history| && e in g.edges
    ensures |UsedOn(history[i], (e.0, g.edges[e].bundle))|
         <= |UsedOn(history[0], (e.0, g.edges[e].bundle))| + DemandOf(paths, Earlier(DictKeys(Sources(paths)), i), e)
  {
    if i > 0 {
      var srcs, key := DictKeys(Sources(paths)), (e.0, g.edges[e].bundle);
      var src := srcs[i - 1];
      ChannelsTakenSoFar(g, paths, solution, trees, ranks, history, i - 1, e);
      assert SourceRouted(g, paths, src, solution[src], trees[i - 1], ranks[i - 1], history[i - 1], history[i]);
      TreeTakesAtMostOne(g, paths, src, solution[src], trees[i - 1], ranks[i - 1], history[i - 1], history[i], e);
      UnionSize(UsedOn(history[i - 1], key), TakenOn(g, src.sb, trees[i - 1], key));
      assert UsedOn(history[i], key) == UsedOn(history[i - 1], key) + TakenOn(g, src.sb, trees[i - 1], key);
      EarlierGrows(paths, i - 1);
      DemandOfOneMore(paths, Earlier(srcs, i - 1), src, e);
      if InPaths(DestinationsOf(paths, src), e) {
        PathOfSource(paths, src, e);
      }
    }
  }

  lemma EarlierGrows(paths: seq<FlowPath>, i: nat)
    requires i < |DictKeys(Sources(paths))|
    ensures
      var srcs := DictKeys(Sources(paths));
      srcs[i] !in Earlier(srcs, i) && Earlier(srcs, i + 1) == Earlier(srcs, i) + {srcs[i]}
  {
    DictKeysAreDistinct(Sources(paths));
  }

  /** A hop's channel is below what was taken at the start plus the demand on its edge. */
  lemma HopChannelBound(g: Graph, paths: seq<FlowPath>, solution: map<PathEndPoint, Settings>,
                        trees: seq<Tree>, ranks: seq<Ranks>, history: seq<ChannelSets>, i: nat, n: Switchbox, p: Port)
    returns (c: Switchbox)
    requires WellFormed(g) && Routed(g, paths, DictKeys(Sources(paths)), solution, trees, ranks, history)
    requires i < |trees| && IsHop(paths, DictKeys(Sources(paths))[i], solution[DictKeys(Sources(paths))[i]], n, p)
    ensures (n, c) in g.edges && g.edges[(n, c)].bundle == p.bundle
    ensures 0 <= p.channel < |UsedOn(history[0], (n, p.bundle))| + Demand(EdgeSets(paths), (n, c))
  {
    var srcs := DictKeys(Sources(paths));
    var src := srcs[i];
    c := HopIsAllotted(g, paths, src, solution[src], trees[i], ranks[i], history[i], history[i + 1], n, p);
    NextFreeIsSmall(UsedOn(history[i], (n, p.bundle)), p.channel);
    ChannelsTakenSoFar(g, paths, solution, trees, ranks, history, i, (n, c));
    PathOfSource(paths, src, (n, c));
    EarlierGrows(paths, i);
    DemandOfOneMore(paths, Earlier(srcs, i), src, (n, c));
    DemandOfSome(paths, Earlier(srcs, i) + {src}, (n, c));
  }
}
