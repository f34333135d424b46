/** Tracing the chosen paths back from their destinations, handing out a channel on every hop. */
module RouteTrace {
  import opened Options
  import opened SwitchGraph
  import opened FlowBalance
  import opened RouteConstraints
  import opened RouteWalk

  datatype SwitchSetting = SwitchSetting(src: Option<Port>, dsts: set<Port>)

  type Settings = map<Switchbox, SwitchSetting>

  /** A switchbox and one of its outgoing bundles. */
  type Key = (Switchbox, WireBundle)

  type ChannelSets = map<Key, set<int>>

  function UsedOn(m: ChannelSets, key: Key): set<int> { if key in m then m[key] else {} }

  lemma {:induction false} Pigeonhole(s: set<int>, i: nat)
    requires forall j :: 0 <= j < i ==> j in s
    ensures i <= |s|
  {
    if i > 0 {
      Pigeonhole(s - {i - 1}, i - 1);
    }
  }

  /** The channels taken on each outgoing bundle, shared by every source. */
  class ChannelTable {
    var used: ChannelSets

    constructor ()
      ensures used == map[]
    {
      used := map[];
    }

    method Add(key: Key, channel: int)
      modifies this
      ensures used == old(used)[key := UsedOn(old(used), key) + {channel}]
    {
      used := used[key := UsedOn(used, key) + {channel}];
    }

    /** Takes the smallest channel that is free; there is one, and no more channels below it than are taken. */
    method NextAvailable(key: Key) returns (i: nat)
      modifies this
      ensures i !in UsedOn(old(used), key)
      ensures forall j :: 0 <= j < i ==> j in UsedOn(old(used), key)
      ensures i <= |UsedOn(old(used), key)|
      ensures used == old(used)[key := UsedOn(old(used), key) + {i}]
    {
      i := 0;
      while i in UsedOn(used, key)
        invariant used == old(used)
        invariant forall j :: 0 <= j < i ==> j in UsedOn(used, key)
        invariant i <= |UsedOn(used, key)|
        decreases |UsedOn(used, key)| - i
      {
        Pigeonhole(UsedOn(used, key), i + 1);
        i := i + 1;
      }
      Add(key, i);
    }
  }

  // ----- switch settings, a dictionary whose missing entries are empty

  function SettingAt(s: Settings, n: Switchbox): SwitchSetting {
    if n in s then s[n] else SwitchSetting(None, {})
  }

  function WithSrc(s: Settings, n: Switchbox, p: Port): Settings {
    s[n := SettingAt(s, n).(src := Some(p))]
  }

  function WithDst(s: Settings, n: Switchbox, p: Port): Settings {
    s[n := SettingAt(s, n).(dsts := SettingAt(s, n).dsts + {p})]
  }

  // ----- the tree traced for one source

  /** For every traced switchbox but the root: the switchbox before it, and the channel of the hop. */
  datatype Tree = Tree(parent: map<Switchbox, Switchbox>, channel: map<Switchbox, int>) {
    ghost predicate Valid(g: Graph, root: Switchbox) {
      && root !in parent && parent.Keys == channel.Keys
      && forall n :: n in parent ==> (parent[n], n) in g.edges
    }

    function Bundle(g: Graph, n: Switchbox): WireBundle
      requires n in parent && (parent[n], n) in g.edges
    {
      g.edges[(parent[n], n)].bundle
    }

    function Add(n: Switchbox, pred: Switchbox, ch: int): Tree {
      Tree(parent[n := pred], channel[n := ch])
    }
  }

  /** The port through which a traced switchbox is entered. */
  ghost function IncomingPort(g: Graph, root: Switchbox, t: Tree, n: Switchbox): Option<Port>
    requires t.Valid(g, root)
  {
    if n in t.parent then Some(Port(ConnectingBundle(t.Bundle(g, n)), t.channel[n])) else None
  }

  /** The ports leading from `n` to its children, and the destination ports on `n`. */
  ghost function OutgoingPorts(g: Graph, root: Switchbox, t: Tree, ends: set<PathEndPoint>, n: Switchbox): set<Port>
    requires t.Valid(g, root)
  {
    (set c | c in t.parent && t.parent[c] == n :: Port(t.Bundle(g, c), t.channel[c])) +
    (set e | e in ends && e.sb == n :: e.port)
  }

  /** The switchboxes a tree and its destinations mention. */
  ghost function Mentioned(t: Tree, ends: set<PathEndPoint>): set<Switchbox> {
    t.parent.Keys + t.parent.Values + (set e | e in ends :: e.sb)
  }

  /** The settings say what the tree and the destinations say, and nothing more. */
  ghost predicate Describes(g: Graph, root: Switchbox, t: Tree, ends: set<PathEndPoint>, s: Settings) {
    && t.Valid(g, root)
    && s.Keys == Mentioned(t, ends)
    && (forall n :: SettingAt(s, n) == SwitchSetting(IncomingPort(g, root, t, n), OutgoingPorts(g, root, t, ends, n)))
  }

  lemma EndpointKeepsDescribes(g: Graph, root: Switchbox, t: Tree, ends: set<PathEndPoint>, s: Settings,
                               e: PathEndPoint)
    requires Describes(g, root, t, ends, s)
    ensures Describes(g, root, t, ends + {e}, WithDst(s, e.sb, e.port))
  {
    forall n ensures OutgoingPorts(g, root, t, ends + {e}, n)
      == OutgoingPorts(g, root, t, ends, n) + (if n == e.sb then {e.port} else {})
    {}
  }

  lemma HopGrowsPorts(g: Graph, root: Switchbox, t: Tree, ends: set<PathEndPoint>, n: Switchbox, pred: Switchbox,
                      ch: int,
                      m: Switchbox)
    requires t.Valid(g, root) && n != root && n !in t.parent && (pred, n) in g.edges
    ensures t.Add(n, pred, ch).Valid(g, root)
    ensures OutgoingPorts(g, root, t.Add(n, pred, ch), ends, m)
         == OutgoingPorts(g, root, t, ends, m) + (if m == pred then {Port(g.edges[(pred, n)].bundle, ch)} else {})
  {
    var t' := t.Add(n, pred, ch);
    assert forall c :: c in t.parent ==> t'.parent[c] == t.parent[c] && t'.channel[c] == t.channel[c];
    if m == pred {
      assert t'.parent[n] == m;
    }
  }

  lemma HopGrowsMentioned(t: Tree, ends: set<PathEndPoint>, n: Switchbox, pred: Switchbox, ch: int)
    requires n !in t.parent
    ensures Mentioned(t.Add(n, pred, ch), ends) == Mentioned(t, ends) + {n, pred}
  {
    var t' := t.Add(n, pred, ch);
    assert t'.parent[n] == pred;
    forall v | v in t.parent.Values ensures v in t'.parent.Values {
      var k :| k in t.parent && t.parent[k] == v;
      assert t'.parent[k] == v;
    }
  }

  /** The settings after one hop of the trace. */
  function AddHop(s: Settings, n: Switchbox, pred: Switchbox, b: WireBundle, ch: int): Settings {
    WithDst(WithSrc(s, n, Port(ConnectingBundle(b), ch)), pred, Port(b, ch))
  }

  lemma HopKeepsDescribes(g: Graph, root: Switchbox, t: Tree, ends: set<PathEndPoint>, s: Settings,
                          n: Switchbox, pred: Switchbox, ch: int)
    requires Describes(g, root, t, ends, s)
    requires n != root && n !in t.parent && n != pred && (pred, n) in g.edges
    ensures Describes(g, root, t.Add(n, pred, ch), ends, AddHop(s, n, pred, g.edges[(pred, n)].bundle, ch))
  {
    var t', s' := t.Add(n, pred, ch), AddHop(s, n, pred, g.edges[(pred, n)].bundle, ch);
    HopGrowsMentioned(t, ends, n, pred, ch);
    HopGrowsPorts(g, root, t, ends, n, pred, ch, n);
    forall m
      ensures SettingAt(s', m) == SwitchSetting(IncomingPort(g, root, t', m), OutgoingPorts(g, root, t', ends, m))
    {
      HopGrowsPorts(g, root, t, ends, n, pred, ch, m);
      assert SettingAt(s, m) == SwitchSetting(IncomingPort(g, root, t, m), OutgoingPorts(g, root, t, ends, m));
    }
  }

  // ----- the channels the tree takes

  ghost function TakenOn(g: Graph, root: Switchbox, t: Tree, key: Key): set<int>
    requires t.Valid(g, root)
  {
    set n | n in t.parent && (t.parent[n], t.Bundle(g, n)) == key :: t.channel[n]
  }

  /** Since `before`, exactly the tree's channels were taken; each was the smallest that was free. */
  ghost predicate Allotted(g: Graph, root: Switchbox, t: Tree, before: ChannelSets, now: ChannelSets) {
    && t.Valid(g, root)
    && (forall key :: UsedOn(now, key) == UsedOn(before, key) + TakenOn(g, root, t, key))
    && (forall n :: n in t.parent ==> IsNextFree(UsedOn(before, (t.parent[n], t.Bundle(g, n))), t.channel[n]))
  }

  /** The smallest channel that is not taken. */
  predicate IsNextFree(taken: set<int>, ch: int) {
    ch !in taken && 0 <= ch && forall j :: 0 <= j < ch ==> j in taken
  }

  lemma NextFreeIsSmall(taken: set<int>, ch: int)
    requires IsNextFree(taken, ch)
    ensures ch <= |taken|
  {
    Pigeonhole(taken, ch);
  }

  /** A tree enters a switchbox once, so it takes at most one channel on a bundle. */
  lemma BundleNotTaken(g: Graph, root: Switchbox, t: Tree, n: Switchbox, pred: Switchbox)
    requires WellFormed(g) && t.Valid(g, root) && n !in t.parent && (pred, n) in g.edges
    ensures TakenOn(g, root, t, (pred, g.edges[(pred, n)].bundle)) == {}
  {
    forall m | m in t.parent && (t.parent[m], t.Bundle(g, m)) == (pred, g.edges[(pred, n)].bundle) ensures false {
      BundleDeterminesEdge(g, (pred, m), (pred, n));
    }
  }

  lemma HopTakes(g: Graph, root: Switchbox, t: Tree, n: Switchbox, pred: Switchbox, ch: int, key: Key)
    requires t.Valid(g, root) && n != root && n !in t.parent && (pred, n) in g.edges
    ensures t.Add(n, pred, ch).Valid(g, root)
    ensures TakenOn(g, root, t.Add(n, pred, ch), key)
         == TakenOn(g, root, t, key) + (if key == (pred, g.edges[(pred, n)].bundle) then {ch} else {})
  {
    var t' := t.Add(n, pred, ch);
    assert forall c :: c in t.parent ==> t'.parent[c] == t.parent[c] && t'.channel[c] == t.channel[c];
    if key == (pred, g.edges[(pred, n)].bundle) {
      assert t'.parent[n] == pred && t'.channel[n] == ch;
    }
  }

  lemma HopUses(g: Graph, root: Switchbox, t: Tree, before: ChannelSets, now: ChannelSets,
                n: Switchbox, pred: Switchbox, ch: int, key: Key)
    requires t.Valid(g, root) && n != root && n !in t.parent && (pred, n) in g.edges
    requires UsedOn(now, key) == UsedOn(before, key) + TakenOn(g, root, t, key)
    ensures t.Add(n, pred, ch).Valid(g, root)
    ensures
      var key0 := (pred, g.edges[(pred, n)].bundle);
      UsedOn(now[key0 := UsedOn(now, key0) + {ch}], key)
        == UsedOn(before, key) + TakenOn(g, root, t.Add(n, pred, ch), key)
  {
    HopTakes(g, root, t, n, pred, ch, key);
  }

  lemma HopKeepsAllotted(g: Graph, root: Switchbox, t: Tree, before: ChannelSets, now: ChannelSets,
                         n: Switchbox, pred: Switchbox, ch: int)
    requires WellFormed(g) && Allotted(g, root, t, before, now)
    requires n != root && n !in t.parent && (pred, n) in g.edges
    requires IsNextFree(UsedOn(now, (pred, g.edges[(pred, n)].bundle)), ch)
    ensures
      var key := (pred, g.edges[(pred, n)].bundle);
      Allotted(g, root, t.Add(n, pred, ch), before, now[key := UsedOn(now, key) + {ch}])
  {
    var t', key0 := t.Add(n, pred, ch), (pred, g.edges[(pred, n)].bundle);
    var now' := now[key0 := UsedOn(now, key0) + {ch}];
    HopUses(g, root, t, before, now, n, pred, ch, key0);
    forall key ensures UsedOn(now', key) == UsedOn(before, key) + TakenOn(g, root, t', key) {
      HopUses(g, root, t, before, now, n, pred, ch, key);
    }
    assert UsedOn(now, key0) == UsedOn(before, key0) by {
      BundleNotTaken(g, root, t, n, pred);
    }
    forall m | m in t'.parent
      ensures IsNextFree(UsedOn(before, (t'.parent[m], t'.Bundle(g, m))), t'.channel[m])
    {
      if m != n {
        assert t'.parent[m] == t.parent[m] && t'.channel[m] == t.channel[m] && t'.Bundle(g, m) == t.Bundle(g, m);
      }
    }
  }

  // ----- no cycles: ranks that fall towards the root

  type Ranks = map<Switchbox, int>

  /** Every traced switchbox but `curr` has a rank, and ranks fall along every hop that is complete. */
  ghost predicate Falling(root: Switchbox, t: Tree, processed: set<Switchbox>, rank: Ranks, curr: Switchbox) {
    && rank.Keys == processed == t.parent.Keys + {root}
    && (forall n :: n in t.parent ==> t.parent[n] in processed || t.parent[n] == curr)
    && (forall n :: n in t.parent && t.parent[n] in processed ==> rank[t.parent[n]] < rank[n])
    && (forall n :: n in rank ==> 0 <= rank[root] <= rank[n])
  }

  lemma {:induction false} RanksAreBounded(rank: Ranks, s: set<Switchbox>) returns (b: nat)
    requires s <= rank.Keys
    ensures forall n :: n in s ==> rank[n] < b
    decreases s
  {
    if s == {} {
      b := 0;
    } else {
      var n :| n in s;
      b := RanksAreBounded(rank, s - {n});
      b := if rank[n] < b then b else rank[n] + 1;
    }
  }

  // ----- get_pred and the trace of one destination

  /** The switchbox before `curr` on a path and the bundle it leaves through; none where the assertion fails. */
  method GetPred(g: Graph, path: set<Edge>, curr: Switchbox) returns (found: Option<(Switchbox, WireBundle)>)
    requires path <= g.edges.Keys
    ensures found.Some? <==> |In(path, curr)| == 1
    ensures found.Some? ==> In(path, curr) == {(found.value.0, curr)} && (found.value.0, curr) in g.edges
    ensures found.Some? ==> found.value.1 == g.edges[(found.value.0, curr)].bundle
  {
    if |In(path, curr)| != 1 {
      return None;
    }
    SingletonElement(In(path, curr));
    var incoming :| incoming in path && incoming.1 == curr;
    assert incoming in In(path, curr);
    found := Some((incoming.0, g.edges[incoming].bundle));
  }

  /** What the trace of one source keeps between hops. */
  ghost predicate Tracing(g: Graph, root: Switchbox, t: Tree, ends: set<PathEndPoint>,
                          s: Settings, before: ChannelSets, now: ChannelSets) {
    Describes(g, root, t, ends, s) && Allotted(g, root, t, before, now)
  }

  /** One hop: take a channel on the bundle of the switchbox before `curr`, and set both ends of it. */
  method TraceHop(g: Graph, curr: Switchbox, pred: Switchbox, outgoing: WireBundle, settings: Settings,
                  table: ChannelTable,
                  ghost root: Switchbox, ghost t: Tree, ghost ends: set<PathEndPoint>, ghost before: ChannelSets)
    returns (settings': Settings, ghost ch: int)
    requires WellFormed(g) && (pred, curr) in g.edges && outgoing == g.edges[(pred, curr)].bundle
    requires Tracing(g, root, t, ends, settings, before, table.used)
    requires curr != root && curr !in t.parent
    modifies table
    ensures SettingAt(settings, curr).src == None
    ensures Tracing(g, root, t.Add(curr, pred, ch), ends, settings', before, table.used)
  {
    WireHasTwoEnds(pred, outgoing);
    var incoming := ConnectingBundle(outgoing);
    ghost var now := table.used;
    var matching := table.NextAvailable((pred, outgoing));
    ch := matching;
    settings' := WithSrc(settings, curr, Port(incoming, matching));
    settings' := WithDst(settings', pred, Port(outgoing, matching));
    HopKeepsAllotted(g, root, t, before, now, curr, pred, ch);
    HopKeepsDescribes(g, root, t, ends, settings, curr, pred, ch);
  }

  /** What was traced earlier has ranks below `base`, and what leads to `curr` has ranks above `top`. */
  ghost predicate Climbing(root: Switchbox, t: Tree, processed: set<Switchbox>, rank: Ranks, curr: Switchbox,
                           earlier: set<Switchbox>, base: nat, top: int) {
    && root in earlier && earlier <= processed
    && Falling(root, t, processed, rank, curr)
    && (forall n :: n in earlier ==> rank[n] < base)
    && (curr !in processed ==> forall n :: n in t.parent && t.parent[n] == curr ==> top < rank[n])
  }

  lemma HopKeepsFalling(root: Switchbox, t: Tree, processed: set<Switchbox>, rank: Ranks, curr: Switchbox,
                        pred: Switchbox, ch: int, top: int)
    requires Falling(root, t, processed, rank, curr) && curr !in processed && pred != curr && rank[root] <= top
    requires pred in processed ==> rank[pred] < top
    requires forall n :: n in t.parent && t.parent[n] == curr ==> top < rank[n]
    ensures Falling(root, t.Add(curr, pred, ch), processed + {curr}, rank[curr := top], pred)
  {
    var parent', rank' := t.parent[curr := pred], rank[curr := top];
    forall n | n in parent' && parent'[n] in processed + {curr} ensures rank'[parent'[n]] < rank'[n] {
      if n != curr {
        assert parent'[n] == t.parent[n];
      }
    }
  }

  lemma HopKeepsClimbing(root: Switchbox, t: Tree, processed: set<Switchbox>, rank: Ranks, curr: Switchbox,
                         earlier: set<Switchbox>, base: nat, top: int, pred: Switchbox, ch: int)
    requires Climbing(root, t, processed, rank, curr, earlier, base, top)
    requires curr !in processed && pred != curr && (pred in processed ==> pred in earlier) && base <= top
    ensures Climbing(root, t.Add(curr, pred, ch), processed + {curr}, rank[curr := top], pred, earlier, base, top - 1)
  {
    HopKeepsFalling(root, t, processed, rank, curr, pred, ch, top);
    forall n | n in t.Add(curr, pred, ch).parent && t.Add(curr, pred, ch).parent[n] == pred && pred !in processed
      ensures n == curr
    {}
  }

  lemma StartClimbing(root: Switchbox, t: Tree, processed: set<Switchbox>, rank: Ranks, curr: Switchbox,
                      base: nat, top: int)
    requires Falling(root, t, processed, rank, root) && forall n :: n in processed ==> rank[n] < base
    ensures Climbing(root, t, processed, rank, curr, processed, base, top)
  {}

  /** The rank of the next switchbox; there are enough for all. */
  function Top(g: Graph, w: seq<Switchbox>, base: nat): int { base + |g.nodes| - |w| + 1 }

  /** The walk has left behind what is new since `earlier`, and ranks fall along it. */
  ghost predicate Walking(g: Graph, root: Switchbox, start: Switchbox, path: set<Edge>, w: seq<Switchbox>,
                          t: Tree, processed: set<Switchbox>, rank: Ranks, earlier: set<Switchbox>, base: nat) {
    && Walked(g, path, w, root, start) && processed == earlier + Passed(w)
    && Climbing(root, t, processed, rank, w[|w| - 1], earlier, base, Top(g, w, base))
  }

  lemma HopKeepsWalking(g: Graph, root: Switchbox, start: Switchbox, path: set<Edge>, w: seq<Switchbox>,
                        t: Tree, processed: set<Switchbox>, rank: Ranks, earlier: set<Switchbox>, base: nat,
                        pred: Switchbox, ch: int)
    requires WellFormed(g) && FlowPosted(g, root, start, path)
    requires Walking(g, root, start, path, w, t, processed, rank, earlier, base)
    requires w[|w| - 1] !in processed && In(path, w[|w| - 1]) == {(pred, w[|w| - 1])}
    ensures |w| < |g.nodes|
    ensures Walking(g, root, start, path, w + [pred], t.Add(w[|w| - 1], pred, ch), processed + {w[|w| - 1]},
      rank[w[|w| - 1] := Top(g, w, base)], earlier, base)
  {
    hide WellFormed, FlowPosted, WalksBack, Falling;
    StepBack(g, path, w, root, start, pred);
    assert pred !in Passed(w);
    hide Walked, Passed;
    HopKeepsClimbing(root, t, processed, rank, w[|w| - 1], earlier, base, Top(g, w, base), pred, ch);
    hide Climbing;
  }

  lemma EndpointKeepsTracing(g: Graph, root: Switchbox, t: Tree, ends: set<PathEndPoint>, s: Settings,
                             before: ChannelSets, now: ChannelSets, e: PathEndPoint)
    requires Tracing(g, root, t, ends, s, before, now)
    ensures Tracing(g, root, t, ends + {e}, WithDst(s, e.sb, e.port), before, now)
  {
    EndpointKeepsDescribes(g, root, t, ends, s, e);
  }

  /** The walk has come to `curr`, and what the function makes of the rest is what it makes of the whole. */
  ghost predicate Underway(g: Graph, root: Switchbox, start: Switchbox, path: set<Edge>, traced: Option<Parents>,
                           w: seq<Switchbox>, t: Tree, processed: set<Switchbox>, rank: Ranks,
                           earlier: set<Switchbox>, base: nat, curr: Switchbox) {
    && Walking(g, root, start, path, w, t, processed, rank, earlier, base)
    && curr == w[|w| - 1] && (start in processed || start == curr)
    && TracedBack(root, t.parent, path, curr) == traced
  }

  lemma WalkStarted(g: Graph, root: Switchbox, start: Switchbox, path: set<Edge>, t: Tree,
                    processed: set<Switchbox>, rank: Ranks) returns (base: nat)
    requires WellFormed(g) && FlowPosted(g, root, start, path)
    requires Falling(root, t, processed, rank, root)
    ensures Underway(g, root, start, path, TracedBack(root, t.parent, path, start), [start], t, processed, rank,
      processed, base, start)
  {
    base := RanksAreBounded(rank, processed);
    StartClimbing(root, t, processed, rank, start, base, Top(g, [start], base));
    hide WellFormed, FlowPosted, Walked, Passed, Climbing, Falling;
    WalkStarts(g, path, root, start);
  }

  lemma WalkStep(g: Graph, root: Switchbox, start: Switchbox, path: set<Edge>, traced: Option<Parents>,
                 w: seq<Switchbox>, t: Tree, processed: set<Switchbox>, rank: Ranks,
                 earlier: set<Switchbox>, base: nat, curr: Switchbox, pred: Switchbox, ch: int)
    requires WellFormed(g) && FlowPosted(g, root, start, path)
    requires Underway(g, root, start, path, traced, w, t, processed, rank, earlier, base, curr)
    requires curr !in processed && In(path, curr) == {(pred, curr)}
    ensures |w| < |g.nodes|
    ensures Underway(g, root, start, path, traced, w + [pred], t.Add(curr, pred, ch), processed + {curr},
      rank[curr := Top(g, w, base)], earlier, base, pred)
  {
    HopKeepsWalking(g, root, start, path, w, t, processed, rank, earlier, base, pred, ch);
    assert Predecessor(path, curr) == Some(pred);
    hide WellFormed, FlowPosted, Walked, Passed, In;
  }

  lemma NotYetTraced(g: Graph, root: Switchbox, start: Switchbox, path: set<Edge>, traced: Option<Parents>,
                     w: seq<Switchbox>, t: Tree, processed: set<Switchbox>, rank: Ranks,
                     earlier: set<Switchbox>, base: nat, curr: Switchbox)
    requires Underway(g, root, start, path, traced, w, t, processed, rank, earlier, base, curr)
    requires curr !in processed
    ensures curr != root && curr !in t.parent
    ensures |In(path, curr)| != 1 ==> traced == None
  {
    hide Walked, Passed, In;
  }

  lemma WalkEnds(g: Graph, root: Switchbox, start: Switchbox, path: set<Edge>, traced: Option<Parents>,
                 w: seq<Switchbox>, t: Tree, processed: set<Switchbox>, rank: Ranks,
                 earlier: set<Switchbox>, base: nat, curr: Switchbox)
    requires Underway(g, root, start, path, traced, w, t, processed, rank, earlier, base, curr)
    requires curr in processed
    ensures traced == Some(t.parent) && Falling(root, t, processed, rank, root)
    ensures earlier <= processed && start in processed
  {
    hide Walked, Passed, In;
  }

  /** The loop: walks the path backwards until it meets what has been traced already, or an assertion fails. */
  method TraceBack(g: Graph, start: Switchbox, path: set<Edge>, settings: Settings,
                   processed: set<Switchbox>, table: ChannelTable,
                   ghost root: Switchbox, ghost t: Tree, ghost rank: Ranks, ghost ends: set<PathEndPoint>,
                   ghost before: ChannelSets)
    returns (ok: bool, settings': Settings, processed': set<Switchbox>, ghost t': Tree, ghost rank': Ranks)
    requires WellFormed(g) && FlowPosted(g, root, start, path)
    requires Tracing(g, root, t, ends, settings, before, table.used)
    requires Falling(root, t, processed, rank, root)
    modifies table
    ensures ok <==> TracedBack(root, t.parent, path, start).Some?
    ensures ok ==> Tracing(g, root, t', ends, settings', before, table.used)
    ensures ok ==> TracedBack(root, t.parent, path, start) == Some(t'.parent)
    ensures ok ==> Falling(root, t', processed', rank', root)
    ensures ok ==> processed <= processed' && start in processed'
  {
    assert path <= g.edges.Keys;
    ghost var traced := TracedBack(root, t.parent, path, start);
    ghost var base := WalkStarted(g, root, start, path, t, processed, rank);
    ghost var w := [start];
    hide Tracing, Walking, Underway, WellFormed, FlowPosted, Falling, TracedBack, In, Top;
    var curr := start;
    settings', processed', t', rank' := settings, processed, t, rank;
    while curr !in processed'
      invariant Underway(g, root, start, path, traced, w, t', processed', rank', processed, base, curr)
      invariant Tracing(g, root, t', ends, settings', before, table.used)
      decreases |g.nodes| - |w|
    {
      NotYetTraced(g, root, start, path, traced, w, t', processed', rank', processed, base, curr);
      var found := GetPred(g, path, curr);
      if found == None {
        ok := false;
        return;
      }
      var (pred, outgoing) := found.value;
      ghost var ch;
      settings', ch := TraceHop(g, curr, pred, outgoing, settings', table, root, t', ends, before);
      WalkStep(g, root, start, path, traced, w, t', processed', rank', processed, base, curr, pred, ch);
      t', rank' := t'.Add(curr, pred, ch), rank'[curr := Top(g, w, base)];
      processed', curr, w := processed' + {curr}, pred, w + [pred];
    }
    WalkEnds(g, root, start, path, traced, w, t', processed', rank', processed, base, curr);
    ok := true;
  }

  /** Traces one destination: its port is driven, and every switchbox on the way back is entered. */
  method TraceDestination(g: Graph, endPoint: PathEndPoint, path: set<Edge>, settings: Settings,
                          processed: set<Switchbox>, table: ChannelTable,
                          ghost root: Switchbox, ghost t: Tree, ghost rank: Ranks, ghost ends: set<PathEndPoint>,
                          ghost before: ChannelSets)
    returns (ok: bool, settings': Settings, processed': set<Switchbox>, ghost t': Tree, ghost rank': Ranks)
    requires WellFormed(g) && FlowPosted(g, root, endPoint.sb, path)
    requires Tracing(g, root, t, ends, settings, before, table.used)
    requires Falling(root, t, processed, rank, root)
    modifies table
    ensures ok <==> TracedTo(root, t.parent, (endPoint, path)).Some?
    ensures ok ==> Tracing(g, root, t', ends + {endPoint}, settings', before, table.used)
    ensures ok ==> TracedTo(root, t.parent, (endPoint, path)) == Some(t'.parent)
    ensures ok ==> Falling(root, t', processed', rank', root)
    ensures ok ==> processed <= processed' && endPoint.sb in processed'
  {
    hide Tracing, WellFormed, Falling, TracedBack, In;
    var curr := endPoint.sb;
    settings', processed', t', rank' := settings, processed, t, rank;
    var first := GetPred(g, path, curr);
    if first == None {
      ok := false;
      return;
    }
    settings' := WithDst(settings, curr, endPoint.port);
    EndpointKeepsTracing(g, root, t, ends, settings, before, table.used, endPoint);
    ok, settings', processed', t', rank' := TraceBack(g, curr, path, settings', processed, table,
      root, t, rank, ends + {endPoint}, before);
  }
}
