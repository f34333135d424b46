/** The whole run over all sources: what each one's settings deliver, and how the channels are shared out. */
module RouteSolution {
  import opened Options
  import opened SwitchGraph
  import opened FlowBalance
  import opened RouteConstraints
  import opened RouteWalk
  import opened RouteTrace

  // ----- one source

  function EndPoints(dsts: seq<Destination>): set<PathEndPoint> { set d | d in dsts :: d.0 }

  /** The edges of every destination are what was posted for a flow from `root` to it. */
  ghost predicate Traceable(g: Graph, root: Switchbox, dsts: seq<Destination>) {
    forall d :: d in dsts ==> FlowPosted(g, root, d.0.sb, d.1)
  }

  /** The settings are those of a tree rooted at the source that contains every destination. */
  ghost predicate Finished(g: Graph, src: PathEndPoint, t: Tree, ends: set<PathEndPoint>, s: Settings) {
    && t.Valid(g, src.sb)
    && s.Keys == t.parent.Keys + {src.sb}
    && (forall n :: n in t.parent ==> t.parent[n] in s)
    && (forall e :: e in ends ==> e.sb in s)
    && (forall n :: n in s ==> s[n] == SwitchSetting(
      if n == src.sb then Some(src.port) else IncomingPort(g, src.sb, t, n),
      OutgoingPorts(g, src.sb, t, ends, n)))
  }

  lemma SettingsFinished(g: Graph, src: PathEndPoint, t: Tree, ends: set<PathEndPoint>, s: Settings,
                         processed: set<Switchbox>, rank: Ranks)
    requires Describes(g, src.sb, t, ends, s) && Falling(src.sb, t, processed, rank, src.sb)
    requires forall e :: e in ends ==> e.sb in processed
    ensures Finished(g, src, t, ends, WithSrc(s, src.sb, src.port))
  {
    var s' := WithSrc(s, src.sb, src.port);
    forall n | n in Mentioned(t, ends) ensures n in t.parent.Keys + {src.sb} {}
    forall n | n in t.parent.Keys + {src.sb} ensures n in s' {}
    forall n | n in t.parent ensures t.parent[n] in s' {}
    forall n | n in s' && n != src.sb ensures s'[n] == SettingAt(s, n) {}
  }

  /** Traces the destinations of one source in order; none if an assertion fails, which is when the function says. */
  method TraceSource(g: Graph, src: PathEndPoint, dsts: seq<Destination>, table: ChannelTable)
    returns (settings: Option<Settings>, ghost t: Tree, ghost rank: Ranks)
    requires WellFormed(g) && Traceable(g, src.sb, dsts)
    modifies table
    ensures settings.Some? <==> TracedTree(src.sb, dsts).Some?
    ensures settings.Some? ==> TracedTree(src.sb, dsts) == Some(t.parent)
    ensures settings.Some? ==> Finished(g, src, t, EndPoints(dsts), settings.value)
    ensures settings.Some? ==> Falling(src.sb, t, settings.value.Keys, rank, src.sb)
    ensures settings.Some? ==> Allotted(g, src.sb, t, old(table.used), table.used)
  {
    hide Tracing, WellFormed, Traceable, Falling, Finished, Allotted, TracedTo, TracedTree;
    var s: Settings := map[];
    var processed := {src.sb};
    t, rank := Tree(map[], map[]), map[src.sb := 0];
    ghost var before := table.used;
    var i := 0;
    TracingStarts(g, src.sb, EndPoints(dsts[..0]), before);
    TreeStarts(src.sb, dsts);
    while i < |dsts|
      invariant 0 <= i <= |dsts|
      invariant Tracing(g, src.sb, t, EndPoints(dsts[..i]), s, before, table.used)
      invariant TracedTree(src.sb, dsts[..i]) == Some(t.parent)
      invariant Falling(src.sb, t, processed, rank, src.sb)
      invariant forall e :: e in EndPoints(dsts[..i]) ==> e.sb in processed
    {
      DestinationFits(g, src.sb, dsts, i);
      TreeNext(src.sb, dsts, i);
      var ok;
      ok, s, processed, t, rank := TraceDestination(g, dsts[i].0, dsts[i].1, s, processed, table,
        src.sb, t, rank, EndPoints(dsts[..i]), before);
      if !ok {
        TreeStops(src.sb, dsts, i + 1);
        return None, t, rank;
      }
      EndPointsGrow(dsts, i);
      i := i + 1;
    }
    assert dsts[..i] == dsts;
    TracingDone(g, src, t, dsts, s, before, table.used, processed, rank);
    settings := Some(WithSrc(s, src.sb, src.port));
  }

  lemma TreeStarts(root: Switchbox, dsts: seq<Destination>)
    ensures TracedTree(root, dsts[..0]) == Some(map[])
  {}

  lemma TreeNext(root: Switchbox, dsts: seq<Destination>, i: nat)
    requires i < |dsts| && TracedTree(root, dsts[..i]).Some?
    ensures TracedTree(root, dsts[..i + 1]) == TracedTo(root, TracedTree(root, dsts[..i]).value, dsts[i])
  {
    assert dsts[..i + 1][..i] == dsts[..i];
    hide TracedTo;
  }

  /** After a failure there is no tree any more. */
  lemma {:induction false} TreeStops(root: Switchbox, dsts: seq<Destination>, i: nat)
    requires i <= |dsts| && TracedTree(root, dsts[..i]) == None
    ensures TracedTree(root, dsts) == None
    decreases |dsts|
  {
    if i < |dsts| {
      assert dsts[..|dsts| - 1][..i] == dsts[..i];
      TreeStops(root, dsts[..|dsts| - 1], i);
    } else {
      assert dsts[..i] == dsts;
    }
  }

  lemma TracingStarts(g: Graph, root: Switchbox, ends: set<PathEndPoint>, now: ChannelSets)
    requires ends == {}
    ensures Tracing(g, root, Tree(map[], map[]), ends, map[], now, now)
    ensures Falling(root, Tree(map[], map[]), {root}, map[root := 0], root)
  {
    assert forall key :: TakenOn(g, root, Tree(map[], map[]), key) == {};
  }

  lemma DestinationFits(g: Graph, root: Switchbox, dsts: seq<Destination>, i: nat)
    requires Traceable(g, root, dsts) && i < |dsts|
    ensures FlowPosted(g, root, dsts[i].0.sb, dsts[i].1)
  {
    hide FlowPosted;
  }

  lemma TracingDone(g: Graph, src: PathEndPoint, t: Tree, dsts: seq<Destination>, s: Settings,
                    before: ChannelSets, now: ChannelSets, processed: set<Switchbox>, rank: Ranks)
    requires Tracing(g, src.sb, t, EndPoints(dsts), s, before, now)
    requires Falling(src.sb, t, processed, rank, src.sb) && forall e :: e in EndPoints(dsts) ==> e.sb in processed
    ensures Finished(g, src, t, EndPoints(dsts), WithSrc(s, src.sb, src.port))
    ensures Falling(src.sb, t, WithSrc(s, src.sb, src.port).Keys, rank, src.sb)
    ensures Allotted(g, src.sb, t, before, now)
  {
    SettingsFinished(g, src, t, EndPoints(dsts), s, processed, rank);
    hide Describes, Allotted;
  }

  lemma EndPointsGrow(dsts: seq<Destination>, i: nat)
    requires i < |dsts|
    ensures EndPoints(dsts[..i + 1]) == EndPoints(dsts[..i]) + {dsts[i].0}
  {
    assert dsts[..i + 1] == dsts[..i] + [dsts[i]];
  }

  // ----- what the settings of one source deliver, read off the settings alone

  /** The switchbox on the other end of the wire that feeds `n`. */
  function Upstream(s: Settings, n: Switchbox): Switchbox
    requires n in s && s[n].src.Some?
  {
    Neighbor(n, s[n].src.value.bundle)
  }

  /** The switchbox feeding `n` drives the same channel of the same wires. */
  ghost predicate Fed(s: Settings, n: Switchbox) {
    && n in s && s[n].src.Some? && IsDirection(s[n].src.value.bundle)
    && Upstream(s, n) in s
    && Port(ConnectingBundle(s[n].src.value.bundle), s[n].src.value.channel) in s[Upstream(s, n)].dsts
  }

  /** `w` follows incoming ports from `n` to `root`, never meeting a switchbox twice. */
  ghost predicate WireBack(s: Settings, n: Switchbox, root: Switchbox, w: seq<Switchbox>) {
    && |w| > 0 && w[0] == n && w[|w| - 1] == root
    && (forall k :: 0 <= k < |w| - 1 ==> Fed(s, w[k]) && Upstream(s, w[k]) == w[k + 1])
    && (forall i, j :: 0 <= i < j < |w| ==> w[i] != w[j])
  }

  /** The destination port is driven, and the data on it comes from the source port. */
  ghost predicate Delivered(s: Settings, src: PathEndPoint, end: PathEndPoint) {
    && src.sb in s && s[src.sb].src == Some(src.port)
    && end.sb in s && end.port in s[end.sb].dsts
    && exists w :: WireBack(s, end.sb, src.sb, w)
  }

  lemma TracedIsFed(g: Graph, src: PathEndPoint, t: Tree, ends: set<PathEndPoint>, s: Settings, n: Switchbox)
    requires WellFormed(g) && Finished(g, src, t, ends, s) && n in t.parent
    ensures Fed(s, n) && Upstream(s, n) == t.parent[n]
  {
    var u, b := t.parent[n], t.Bundle(g, n);
    WireHasTwoEnds(u, b);
    assert ConnectingBundle(ConnectingBundle(b)) == b;
    assert Port(b, t.channel[n]) in OutgoingPorts(g, src.sb, t, ends, u);
  }

  lemma WireGrows(s: Settings, n: Switchbox, root: Switchbox, rest: seq<Switchbox>)
    requires rest != [] && WireBack(s, rest[0], root, rest)
    requires n !in rest && Fed(s, n) && Upstream(s, n) == rest[0]
    ensures WireBack(s, n, root, [n] + rest)
  {
    var w := [n] + rest;
    forall k | 0 <= k < |w| - 1 ensures Fed(s, w[k]) && Upstream(s, w[k]) == w[k + 1] {
      if k > 0 {
        assert Fed(s, rest[k - 1]) && Upstream(s, rest[k - 1]) == rest[k - 1 + 1];
      }
    }
  }

  /** Every switchbox but the root is fed by one of lower rank. */
  ghost predicate Climbable(s: Settings, root: Switchbox, rank: Ranks) {
    && rank.Keys == s.Keys
    && forall n :: n in s ==> 0 <= rank[n] && (n == root || (Fed(s, n) && rank[Upstream(s, n)] < rank[n]))
  }

  lemma {:induction false} ClimbToRoot(s: Settings, root: Switchbox, rank: Ranks, n: Switchbox)
    returns (w: seq<Switchbox>)
    requires Climbable(s, root, rank) && n in s
    ensures WireBack(s, n, root, w)
    ensures forall m :: m in w ==> m in rank && rank[m] <= rank[n]
    decreases rank[n]
  {
    if n == root {
      w := [n];
    } else {
      var rest := ClimbToRoot(s, root, rank, Upstream(s, n));
      WireGrows(s, n, root, rest);
      w := [n] + rest;
    }
  }

  lemma TracedFalls(root: Switchbox, t: Tree, processed: set<Switchbox>, rank: Ranks, n: Switchbox)
    requires Falling(root, t, processed, rank, root) && n in processed
    ensures n in rank && 0 <= rank[n]
    ensures n != root ==> n in t.parent && t.parent[n] in rank && rank[t.parent[n]] < rank[n]
  {}

  lemma FinishedIsClimbable(g: Graph, src: PathEndPoint, t: Tree, ends: set<PathEndPoint>, s: Settings, rank: Ranks)
    requires WellFormed(g) && Finished(g, src, t, ends, s) && Falling(src.sb, t, s.Keys, rank, src.sb)
    ensures Climbable(s, src.sb, rank)
  {
    var root := src.sb;
    assert rank.Keys == s.Keys;
    forall n | n in s ensures 0 <= rank[n] && (n == root || (Fed(s, n) && rank[Upstream(s, n)] < rank[n])) {
      TracedFalls(root, t, s.Keys, rank, n);
      if n != root {
        TracedIsFed(g, src, t, ends, s, n);
      }
    }
  }

  /** Every destination of a traced source is delivered. */
  lemma DestinationsDelivered(g: Graph, src: PathEndPoint, t: Tree, ends: set<PathEndPoint>, s: Settings,
                              rank: Ranks, end: PathEndPoint)
    requires WellFormed(g) && Finished(g, src, t, ends, s) && Falling(src.sb, t, s.Keys, rank, src.sb) && end in ends
    ensures Delivered(s, src, end)
  {
    FinishedIsClimbable(g, src, t, ends, s, rank);
    var w := ClimbToRoot(s, src.sb, rank, end.sb);
    assert end.port in OutgoingPorts(g, src.sb, t, ends, end.sb);
  }

  /** Nothing else is driven: every outgoing port is a destination or feeds a switchbox that listens to it. */
  lemma NoStrayPorts(g: Graph, src: PathEndPoint, t: Tree, ends: set<PathEndPoint>, s: Settings, n: Switchbox, p: Port)
    requires WellFormed(g) && Finished(g, src, t, ends, s) && n in s && p in s[n].dsts
    ensures PathEndPoint(n, p) in ends
         || (IsDirection(p.bundle) && Neighbor(n, p.bundle) in s && Neighbor(n, p.bundle) != src.sb
             && s[Neighbor(n, p.bundle)].src == Some(Port(ConnectingBundle(p.bundle), p.channel)))
  {
    assert p in OutgoingPorts(g, src.sb, t, ends, n);
    if c :| c in t.parent && t.parent[c] == n && p == Port(t.Bundle(g, c), t.channel[c]) {
      assert c == Neighbor(n, p.bundle);
    } else {
      var e :| e in ends && e.sb == n && e.port == p;
      assert e == PathEndPoint(n, p);
    }
  }

  // ----- all sources

  function Sources(paths: seq<FlowPath>): seq<PathEndPoint> {
    if paths == [] then [] else Sources(paths[..|paths| - 1]) + [paths[|paths| - 1].0.0]
  }

  /** The destinations of one source, in the order of its flows. */
  function DestinationsOf(paths: seq<FlowPath>, src: PathEndPoint): seq<Destination> {
    if paths == [] then [] else
      var last := paths[|paths| - 1];
      DestinationsOf(paths[..|paths| - 1], src) + if last.0.0 == src then [(last.0.1, last.1)] else []
  }

  lemma {:induction false} DestinationsAreFlows(paths: seq<FlowPath>, src: PathEndPoint)
    ensures forall d :: d in DestinationsOf(paths, src) <==> ((src, d.0), d.1) in paths
    ensures src in Sources(paths) <==> exists f :: f in paths && f.0.0 == src
  {
    if paths != [] {
      var init, last := paths[..|paths| - 1], paths[|paths| - 1];
      DestinationsAreFlows(init, src);
      assert paths == init + [last];
    }
  }

  /** Channels taken before any path is traced: the fixed ones, and those of the destination ports. */
  function WithEndpoints(used: ChannelSets, paths: seq<FlowPath>): ChannelSets {
    if paths == [] then used else
      var m := WithEndpoints(used, paths[..|paths| - 1]);
      var tgt := paths[|paths| - 1].0.1;
      m[(tgt.sb, tgt.port.bundle) := UsedOn(m, (tgt.sb, tgt.port.bundle)) + {tgt.port.channel}]
  }

  function EndpointChannels(paths: seq<FlowPath>, key: Key): set<int> {
    set f | f in paths && (f.0.1.sb, f.0.1.port.bundle) == key :: f.0.1.port.channel
  }

  lemma {:induction false} EndpointsTaken(used: ChannelSets, paths: seq<FlowPath>, key: Key)
    ensures UsedOn(WithEndpoints(used, paths), key) == UsedOn(used, key) + EndpointChannels(paths, key)
  {
    if paths != [] {
      var init, last := paths[..|paths| - 1], paths[|paths| - 1];
      EndpointsTaken(used, init, key);
      assert paths == init + [last];
      assert EndpointChannels(paths, key) == EndpointChannels(init, key)
        + (if (last.0.1.sb, last.0.1.port.bundle) == key then {last.0.1.port.channel} else {});
    }
  }

  /** The edges of every flow are what was posted for it. */
  ghost predicate Routable(g: Graph, paths: seq<FlowPath>) {
    forall f :: f in paths ==> FlowPosted(g, f.0.0.sb, f.0.1.sb, f.1)
  }

  lemma RoutableIsTraceable(g: Graph, paths: seq<FlowPath>, src: PathEndPoint)
    requires Routable(g, paths)
    ensures Traceable(g, src.sb, DestinationsOf(paths, src))
  {
    hide FlowPosted;
    DestinationsAreFlows(paths, src);
    forall d | d in DestinationsOf(paths, src) ensures FlowPosted(g, src.sb, d.0.sb, d.1) {
      assert ((src, d.0), d.1) in paths;
    }
  }

  /** The tree of one source, as a function of the paths. */
  function TreeOf(paths: seq<FlowPath>, src: PathEndPoint): Option<Parents> {
    TracedTree(src.sb, DestinationsOf(paths, src))
  }

  /** No assertion fails for any source. */
  predicate AllTraced(paths: seq<FlowPath>) {
    forall src :: src in Sources(paths) ==> TreeOf(paths, src).Some?
  }

  /** Groups the flows by source, reserving the channel of every destination port on the way. */
  method GroupFlows(paths: seq<FlowPath>, table: ChannelTable)
    returns (srcs: seq<PathEndPoint>, dsts: map<PathEndPoint, seq<Destination>>)
    modifies table
    ensures table.used == WithEndpoints(old(table.used), paths)
    ensures srcs == DictKeys(Sources(paths))
    ensures forall s :: s in srcs <==> s in dsts
    ensures forall s :: s in dsts ==> dsts[s] == DestinationsOf(paths, s)
  {
    srcs, dsts := [], map[];
    var i := 0;
    while i < |paths|
      invariant 0 <= i <= |paths|
      invariant table.used == WithEndpoints(old(table.used), paths[..i])
      invariant srcs == DictKeys(Sources(paths[..i]))
      invariant forall s :: s in srcs <==> s in dsts
      invariant forall s :: DestinationsOf(paths[..i], s) == if s in dsts then dsts[s] else []
    {
      var ((src, tgt), path) := paths[i];
      assert paths[..i + 1][..i] == paths[..i];
      assert Sources(paths[..i + 1])[..|Sources(paths[..i])|] == Sources(paths[..i]);
      if src !in dsts {
        srcs, dsts := srcs + [src], dsts[src := []];
      }
      dsts := dsts[src := dsts[src] + [(tgt, path)]];
      table.Add((tgt.sb, tgt.port.bundle), tgt.port.channel);
      i := i + 1;
    }
    assert paths[..i] == paths;
  }

  /** What tracing one source established. */
  ghost predicate SourceRouted(g: Graph, paths: seq<FlowPath>, src: PathEndPoint, s: Settings, t: Tree, rank: Ranks,
                               before: ChannelSets, now: ChannelSets) {
    && Finished(g, src, t, EndPoints(DestinationsOf(paths, src)), s)
    && Falling(src.sb, t, s.Keys, rank, src.sb)
    && Allotted(g, src.sb, t, before, now)
    && TreeOf(paths, src) == Some(t.parent)
  }

  /** A run: each source is routed from where the one before it left the channels. */
  ghost predicate Routed(g: Graph, paths: seq<FlowPath>, srcs: seq<PathEndPoint>, solution: map<PathEndPoint, Settings>,
                         trees: seq<Tree>, ranks: seq<Ranks>, history: seq<ChannelSets>) {
    && |srcs| == |trees| == |ranks| == |history| - 1
    && forall i :: 0 <= i < |srcs| ==>
      && srcs[i] in solution
      && SourceRouted(g, paths, srcs[i], solution[srcs[i]], trees[i], ranks[i], history[i], history[i + 1])
  }

  /** The first `i` sources have been routed. */
  ghost predicate SoFar(g: Graph, paths: seq<FlowPath>, i: nat, solution: map<PathEndPoint, Settings>,
                        trees: seq<Tree>, ranks: seq<Ranks>, history: seq<ChannelSets>) {
    && i <= |DictKeys(Sources(paths))| && |history| == i + 1
    && (forall src :: src in solution <==> src in DictKeys(Sources(paths))[..i])
    && Routed(g, paths, DictKeys(Sources(paths))[..i], solution, trees, ranks, history)
  }

  /** A complete run: it has the sources as keys, was traced from `start` to `end`, and met no failing assertion. */
  ghost predicate IsRun(g: Graph, paths: seq<FlowPath>, start: ChannelSets, end: ChannelSets,
                        solution: map<PathEndPoint, Settings>,
                        trees: seq<Tree>, ranks: seq<Ranks>, history: seq<ChannelSets>) {
    && (forall src :: src in solution <==> src in Sources(paths))
    && Routed(g, paths, DictKeys(Sources(paths)), solution, trees, ranks, history)
    && history[0] == start && history[|history| - 1] == end
  }

  /** Routes the sources in order; none if an assertion fails for one of them. */
  method GetRoutingSolution(g: Graph, paths: seq<FlowPath>, table: ChannelTable)
    returns (result: Option<map<PathEndPoint, Settings>>,
             ghost trees: seq<Tree>, ghost ranks: seq<Ranks>, ghost history: seq<ChannelSets>)
    requires WellFormed(g) && Routable(g, paths)
    modifies table
    ensures result.Some? <==> AllTraced(paths)
    ensures result.Some? ==>
      IsRun(g, paths, WithEndpoints(old(table.used), paths), table.used, result.value, trees, ranks, history)
  {
    hide SourceRouted, Routed, Routable, WellFormed, DestinationsOf, WithEndpoints, TreeOf, SoFar, IsRun, AllTraced;
    var srcs, dsts := GroupFlows(paths, table);
    DictKeysAreDistinct(Sources(paths));
    var solution: map<PathEndPoint, Settings> := map[];
    trees, ranks, history := [], [], [table.used];
    var i := 0;
    RunStarts(g, paths, table.used);
    while i < |srcs|
      invariant SoFar(g, paths, i, solution, trees, ranks, history) && 0 <= i <= |srcs| && |history| == i + 1
      invariant history[0] == WithEndpoints(old(table.used), paths) && history[i] == table.used
    {
      var settings;
      ghost var t, rank;
      settings, t, rank := RouteSource(g, paths, srcs[i], dsts[srcs[i]], table);
      if settings == None {
        NotAllTraced(paths, srcs[i]);
        return None, trees, ranks, history;
      }
      RunGrows(g, paths, i, solution, trees, ranks, history, settings.value, t, rank, table.used);
      solution := solution[srcs[i] := settings.value];
      trees, ranks, history := trees + [t], ranks + [rank], history + [table.used];
      i := i + 1;
    }
    RunEnds(g, paths, solution, trees, ranks, history);
    result := Some(solution);
  }

  lemma NotAllTraced(paths: seq<FlowPath>, src: PathEndPoint)
    requires src in Sources(paths) && TreeOf(paths, src) == None
    ensures !AllTraced(paths)
  {}

  /** One source of the loop. */
  method RouteSource(g: Graph, ghost paths: seq<FlowPath>, src: PathEndPoint, dsts: seq<Destination>,
                     table: ChannelTable)
    returns (settings: Option<Settings>, ghost t: Tree, ghost rank: Ranks)
    requires WellFormed(g) && Routable(g, paths) && src in Sources(paths) && dsts == DestinationsOf(paths, src)
    modifies table
    ensures settings.Some? <==> TreeOf(paths, src).Some?
    ensures settings.Some? ==> SourceRouted(g, paths, src, settings.value, t, rank, old(table.used), table.used)
  {
    RoutableIsTraceable(g, paths, src);
    hide Routable, Traceable, Finished, Falling, Allotted, TracedTree;
    settings, t, rank := TraceSource(g, src, dsts, table);
  }

  /** A complete run has met no failing assertion. */
  lemma RunEnds(g: Graph, paths: seq<FlowPath>, solution: map<PathEndPoint, Settings>,
                trees: seq<Tree>, ranks: seq<Ranks>, history: seq<ChannelSets>)
    requires SoFar(g, paths, |DictKeys(Sources(paths))|, solution, trees, ranks, history)
    ensures AllTraced(paths)
    ensures IsRun(g, paths, history[0], history[|history| - 1], solution, trees, ranks, history)
  {
    DictKeysAreDistinct(Sources(paths));
    hide Finished, Falling, Allotted, TreeOf, Sources, DictKeys;
    var srcs := DictKeys(Sources(paths));
    assert srcs[..|srcs|] == srcs;
    forall src | src in Sources(paths) ensures TreeOf(paths, src).Some? {
      var i :| 0 <= i < |srcs| && srcs[i] == src;
      assert SourceRouted(g, paths, src, solution[src], trees[i], ranks[i], history[i], history[i + 1]);
    }
  }

  lemma RunStarts(g: Graph, paths: seq<FlowPath>, now: ChannelSets)
    ensures SoFar(g, paths, 0, map[], [], [], [now])
  {}

  lemma RunGrows(g: Graph, paths: seq<FlowPath>, i: nat, solution: map<PathEndPoint, Settings>,
                 trees: seq<Tree>, ranks: seq<Ranks>, history: seq<ChannelSets>,
                 s: Settings, t: Tree, rank: Ranks, now: ChannelSets)
    requires SoFar(g, paths, i, solution, trees, ranks, history) && i < |DictKeys(Sources(paths))|
    requires SourceRouted(g, paths, DictKeys(Sources(paths))[i], s, t, rank, history[i], now)
    ensures SoFar(g, paths, i + 1, solution[DictKeys(Sources(paths))[i] := s], trees + [t], ranks + [rank],
      history + [now])
  {
    hide SourceRouted, Sources, DictKeys;
    DictKeysAreDistinct(Sources(paths));
    var srcs := DictKeys(Sources(paths));
    var srcs', solution' := srcs[..i + 1], solution[srcs[i] := s];
    var trees', ranks', history' := trees + [t], ranks + [rank], history + [now];
    assert srcs' == srcs[..i] + [srcs[i]];
    forall k | 0 <= k < |srcs'|
      ensures srcs'[k] in solution'
      ensures SourceRouted(g, paths, srcs'[k], solution'[srcs'[k]], trees'[k], ranks'[k], history'[k], history'[k + 1])
    {
      if k < i {
        assert srcs[..i][k] == srcs'[k];
      }
    }
  }
}
