/** The walk back from a destination along the edges chosen for its flow, as a function of those edges. */
module RouteWalk {
  import opened Options
  import opened SwitchGraph
  import opened FlowBalance
  import opened RouteConstraints

  /** Where a flow ends, and the edges chosen for it. */
  type Destination = (PathEndPoint, set<Edge>)

  /** For every traced switchbox but the root, the switchbox before it. */
  type Parents = map<Switchbox, Switchbox>

  lemma SingletonElement<T>(s: set<T>)
    requires |s| == 1
    ensures exists x :: x in s && s == {x}
  {
    var x :| x in s;
    assert |s - {x}| == 0;
  }

  /** The only switchbox before `n`; none where the assertion of the source fails. */
  function Predecessor(path: set<Edge>, n: Switchbox): (pred: Option<Switchbox>)
    ensures pred.Some? <==> |In(path, n)| == 1
    ensures pred.Some? ==> In(path, n) == {(pred.value, n)}
  {
    if |In(path, n)| != 1 then None else
      SingletonElement(In(path, n));
      var e :| e in In(path, n);
      Some(e.0)
  }

  function Heads(path: set<Edge>): set<Switchbox> { set e | e in path :: e.1 }

  /** The walk goes on until it meets the root or what has been traced before. */
  function TracedBack(root: Switchbox, parents: Parents, path: set<Edge>, curr: Switchbox): Option<Parents>
    decreases Heads(path) - parents.Keys
  {
    if curr == root || curr in parents then Some(parents) else
      match Predecessor(path, curr)
      case None => None
      case Some(pred) =>
        assert (pred, curr) in In(path, curr) && (pred, curr).1 in Heads(path);
        assert curr in parents[curr := pred].Keys;
        TracedBack(root, parents[curr := pred], path, pred)
  }

  function TracedTo(root: Switchbox, parents: Parents, d: Destination): Option<Parents> {
    if Predecessor(d.1, d.0.sb) == None then None else TracedBack(root, parents, d.1, d.0.sb)
  }

  /** The tree a source ends up with, or none if an assertion fails on the way. */
  function TracedTree(root: Switchbox, dsts: seq<Destination>): Option<Parents> {
    if dsts == [] then Some(map[]) else
      match TracedTree(root, dsts[..|dsts| - 1])
      case None => None
      case Some(parents) => TracedTo(root, parents, dsts[|dsts| - 1])
  }

  // ----- the walk back along the edges of one flow, traced first for its source

  /** Each step goes to the only predecessor; the walk stops at the source. */
  ghost predicate WalksBack(used: set<Edge>, w: seq<Switchbox>, src: Switchbox, tgt: Switchbox) {
    && |w| > 0 && w[0] == tgt
    && forall k: nat :: k < |w| - 1 ==> StepsBack(used, w, src, k)
  }

  ghost predicate StepsBack(used: set<Edge>, w: seq<Switchbox>, src: Switchbox, k: nat)
    requires k < |w| - 1
  {
    w[k] != src && In(used, w[k]) == {(w[k + 1], w[k])}
  }

  lemma PathPred(used: set<Edge>, p: seq<Switchbox>, i: nat)
    requires UnforkedAlong(used, p) && 0 < i < |p|
    ensures |In(used, p[i])| == 1
    ensures forall e :: e in In(used, p[i]) ==> e == (p[i - 1], p[i])
  {
    assert Hop(p, i - 1).1 == p[i];
    SingletonElement(In(used, p[i]));
    assert Hop(p, i - 1) in In(used, p[i]);
  }

  function Reversed(w: seq<Switchbox>): (p: seq<Switchbox>)
    ensures |p| == |w|
  {
    seq(|w|, k requires 0 <= k < |w| => w[|w| - 1 - k])
  }

  /** A walk that has come to no switchbox twice. */
  ghost predicate Walked(g: Graph, used: set<Edge>, w: seq<Switchbox>, src: Switchbox, tgt: Switchbox) {
    && WalksBack(used, w, src, tgt)
    && (forall i, j :: 0 <= i < j < |w| ==> w[i] != w[j])
    && forall n :: n in w ==> n in g.nodes
  }

  /** Balance keeps the walk from ever coming back: a switchbox it came to twice would have two edges out and one in. */
  lemma NeverComesBack(g: Graph, used: set<Edge>, w: seq<Switchbox>, src: Switchbox, tgt: Switchbox, pred: Switchbox)
    requires WellFormed(g) && FlowPosted(g, src, tgt, used) && Walked(g, used, w, src, tgt)
    requires w[|w| - 1] != src && In(used, w[|w| - 1]) == {(pred, w[|w| - 1])}
    ensures pred !in w
  {
    var last := w[|w| - 1];
    assert (pred, last) in used;
    if pred in w {
      var i :| 0 <= i < |w| && w[i] == pred;
      assert (pred, last) in Out(used, pred);
      if i > 0 {
        assert StepsBack(used, w, src, i - 1);
        assert (pred, w[i - 1]) in In(used, w[i - 1]);
        assert (pred, w[i - 1]) in Out(used, pred);
        SubsetSize({(pred, last), (pred, w[i - 1])}, Out(used, pred));
        OnePredecessor(used, w, src, tgt, i, pred);
      }
    }
  }

  lemma OnePredecessor(used: set<Edge>, w: seq<Switchbox>, src: Switchbox, tgt: Switchbox, i: nat, pred: Switchbox)
    requires WalksBack(used, w, src, tgt) && 0 < i < |w| && w[|w| - 1] != src
    requires In(used, w[|w| - 1]) == {(pred, w[|w| - 1])}
    ensures |In(used, w[i])| == 1 && w[i] != src
  {
    if i < |w| - 1 {
      assert StepsBack(used, w, src, i);
    }
  }

  /** The switchboxes a walk has left behind. */
  function Passed(w: seq<Switchbox>): set<Switchbox> { set k | 0 <= k < |w| - 1 :: w[k] }

  lemma WalkStarts(g: Graph, used: set<Edge>, src: Switchbox, tgt: Switchbox)
    requires WellFormed(g) && FlowPosted(g, src, tgt, used)
    ensures Walked(g, used, [tgt], src, tgt) && Passed([tgt]) == {}
    ensures src != tgt && |In(used, tgt)| == 1
  {
    SameSwitchboxInfeasible(g, src, used);
    var e :| e in InFromNeighbors(g, used, tgt);
    var f :| f in Out(used, src);
    SubsetSize(InFromNeighbors(g, used, tgt), In(used, tgt));
    EndpointsExact(g.nodes, used, src, tgt);
  }

  /** Every further step leads to a switchbox the walk has not come to. */
  lemma StepBack(g: Graph, used: set<Edge>, w: seq<Switchbox>, src: Switchbox, tgt: Switchbox, pred: Switchbox)
    requires WellFormed(g) && FlowPosted(g, src, tgt, used) && Walked(g, used, w, src, tgt)
    requires w[|w| - 1] != src && In(used, w[|w| - 1]) == {(pred, w[|w| - 1])}
    ensures Walked(g, used, w + [pred], src, tgt) && pred !in w && |w| < |g.nodes|
    ensures (pred, w[|w| - 1]) in g.edges && Passed(w + [pred]) == Passed(w) + {w[|w| - 1]}
  {
    NeverComesBack(g, used, w, src, tgt, pred);
    assert (pred, w[|w| - 1]) in In(used, w[|w| - 1]);
    assert pred in g.nodes;
    hide FlowPosted, WellFormed;
    WalkGrows(used, w, src, tgt, pred);
    DistinctFit(w + [pred], g.nodes);
    PassedGrows(w, pred);
  }

  lemma PassedGrows(w: seq<Switchbox>, pred: Switchbox)
    requires w != []
    ensures Passed(w + [pred]) == Passed(w) + {w[|w| - 1]}
  {
    forall n | n in Passed(w) + {w[|w| - 1]} ensures n in Passed(w + [pred]) {
      var k :| 0 <= k < |w| && n == w[k];
      assert n == (w + [pred])[k];
    }
  }

  lemma WalkGrows(used: set<Edge>, w: seq<Switchbox>, src: Switchbox, tgt: Switchbox, pred: Switchbox)
    requires WalksBack(used, w, src, tgt)
    requires w[|w| - 1] != src && In(used, w[|w| - 1]) == {(pred, w[|w| - 1])}
    ensures WalksBack(used, w + [pred], src, tgt)
  {
    forall k: nat | k < |w| ensures StepsBack(used, w + [pred], src, k) {
      if k < |w| - 1 {
        assert StepsBack(used, w, src, k);
      }
    }
  }

  lemma {:induction false} DistinctFit(w: seq<Switchbox>, s: set<Switchbox>)
    requires (forall i, j :: 0 <= i < j < |w| ==> w[i] != w[j]) && forall n :: n in w ==> n in s
    ensures |w| <= |s|
    decreases |w|
  {
    if w != [] {
      var last := w[|w| - 1];
      assert last in w && last !in w[..|w| - 1];
      DistinctFit(w[..|w| - 1], s - {last});
    }
  }

  // ----- when the trace of one source succeeds

  /** Some switchbox reached before, or the root, has an unforked route to the target. */
  ghost predicate Joins(root: Switchbox, parents: Parents, used: set<Edge>, tgt: Switchbox) {
    exists s :: (s == root || s in parents) && UnforkedRoute(used, s, tgt)
  }

  /** A walk without repetition, read forwards, is an unforked route from where it has come to. */
  lemma WalkIsRoute(g: Graph, used: set<Edge>, w: seq<Switchbox>, src: Switchbox, tgt: Switchbox)
    requires Walked(g, used, w, src, tgt)
    ensures UnforkedRoute(used, w[|w| - 1], tgt)
  {
    var p := Reversed(w);
    forall k | 0 <= k < |p| - 1 ensures In(used, Hop(p, k).1) == {Hop(p, k)} {
      assert StepsBack(used, w, src, |w| - 2 - k);
    }
    forall e | e in PathEdges(p) ensures e in used {
      var k :| 0 <= k < |p| - 1 && e == Hop(p, k);
      assert e in In(used, Hop(p, k).1);
    }
    assert SimplePath(p, w[|w| - 1], tgt) && UnforkedAlong(used, p);
  }

  /** Where the walk succeeds, the first switchbox it meets again joins the target to the tree. */
  lemma {:induction false} TracedJoins(g: Graph, root: Switchbox, parents: Parents, used: set<Edge>, tgt: Switchbox,
                                       w: seq<Switchbox>, now: Parents)
    requires WellFormed(g) && FlowPosted(g, root, tgt, used) && Walked(g, used, w, root, tgt)
    requires now.Keys == parents.Keys + Passed(w) && TracedBack(root, now, used, w[|w| - 1]).Some?
    ensures Joins(root, parents, used, tgt)
    decreases |g.nodes| - |w|
  {
    var curr := w[|w| - 1];
    if curr == root || curr in now {
      WalkIsRoute(g, used, w, root, tgt);
    } else {
      var pred := Predecessor(used, curr).value;
      hide FlowPosted, WellFormed, UnforkedRoute;
      StepBack(g, used, w, root, tgt, pred);
      assert now[curr := pred].Keys == now.Keys + {curr};
      hide Walked, Passed, Joins;
      TracedJoins(g, root, parents, used, tgt, w + [pred], now[curr := pred]);
    }
  }

  /** Along an unforked route from what has been traced, the walk succeeds. */
  lemma {:induction false} UnforkedIsTraced(root: Switchbox, parents: Parents, path: set<Edge>, p: seq<Switchbox>,
                                            s: Switchbox, tgt: Switchbox, i: nat)
    requires SimplePath(p, s, tgt) && UnforkedAlong(path, p) && i < |p| && (s == root || s in parents)
    ensures TracedBack(root, parents, path, p[i]).Some?
    decreases i
  {
    if i > 0 && p[i] != root && p[i] !in parents {
      PathPred(path, p, i);
      UnforkedIsTraced(root, parents[p[i] := p[i - 1]], path, p, s, tgt, i - 1);
      assert Predecessor(path, p[i]).value == p[i - 1];
    }
  }

  lemma JoinsIsTraced(root: Switchbox, parents: Parents, path: set<Edge>, tgt: Switchbox)
    requires Joins(root, parents, path, tgt)
    ensures TracedBack(root, parents, path, tgt).Some?
  {
    var s :| (s == root || s in parents) && UnforkedRoute(path, s, tgt);
    var p :| SimplePath(p, s, tgt) && UnforkedAlong(path, p);
    UnforkedIsTraced(root, parents, path, p, s, tgt, |p| - 1);
  }

  /** Tracing one more destination succeeds exactly when its edges hold an unforked route to it from the root or from a
      switchbox that was reached before. */
  lemma TracedToIff(g: Graph, root: Switchbox, parents: Parents, d: Destination)
    requires WellFormed(g) && FlowPosted(g, root, d.0.sb, d.1)
    ensures TracedTo(root, parents, d).Some? <==> Joins(root, parents, d.1, d.0.sb)
  {
    WalkStarts(g, d.1, root, d.0.sb);
    hide WellFormed, FlowPosted, Walked, Joins, In, TracedBack;
    if TracedTo(root, parents, d).Some? {
      TracedJoins(g, root, parents, d.1, d.0.sb, [d.0.sb], parents);
    }
    if Joins(root, parents, d.1, d.0.sb) {
      JoinsIsTraced(root, parents, d.1, d.0.sb);
    }
  }

  /** The destinations before position `k` were traced, and the one there joins their tree. */
  ghost predicate JoinsTree(root: Switchbox, dsts: seq<Destination>, k: nat)
    requires k < |dsts|
  {
    var before := TracedTree(root, dsts[..k]);
    before.Some? && Joins(root, before.value, dsts[k].1, dsts[k].0.sb)
  }

  /** No assertion fails for a source exactly when each of its destinations joins the tree of those before it. */
  lemma {:induction false} TracedTreeIff(g: Graph, root: Switchbox, dsts: seq<Destination>)
    requires WellFormed(g) && forall d :: d in dsts ==> FlowPosted(g, root, d.0.sb, d.1)
    ensures TracedTree(root, dsts).Some? <==> forall k :: 0 <= k < |dsts| ==> JoinsTree(root, dsts, k)
  {
    hide FlowPosted, Joins, TracedTo;
    if dsts != [] {
      var n := |dsts| - 1;
      TracedTreeIff(g, root, dsts[..n]);
      assert dsts[n] in dsts;
      forall k | 0 <= k < n ensures JoinsTree(root, dsts[..n], k) <==> JoinsTree(root, dsts, k) {
        assert dsts[..n][..k] == dsts[..k];
      }
      if TracedTree(root, dsts[..n]).Some? {
        TracedToIff(g, root, TracedTree(root, dsts[..n]).value, dsts[n]);
        assert forall k :: 0 <= k < n ==> JoinsTree(root, dsts, k);
        assert JoinsTree(root, dsts, n) <==> TracedTree(root, dsts).Some?;
      } else {
        assert !JoinsTree(root, dsts, n);
      }
    }
  }

  lemma {:induction false} UnforkedAreTraced(root: Switchbox, dsts: seq<Destination>)
    requires forall d :: d in dsts ==> root != d.0.sb && UnforkedRoute(d.1, root, d.0.sb)
    ensures TracedTree(root, dsts).Some?
  {
    if dsts != [] {
      var d := dsts[|dsts| - 1];
      UnforkedAreTraced(root, dsts[..|dsts| - 1]);
      assert d in dsts;
      var p :| SimplePath(p, root, d.0.sb) && UnforkedAlong(d.1, p);
      PathPred(d.1, p, |p| - 1);
      UnforkedIsTraced(root, TracedTree(root, dsts[..|dsts| - 1]).value, d.1, p, root, d.0.sb, |p| - 1);
    }
  }

  ghost predicate InPaths(dsts: seq<Destination>, e: Edge) {
    exists d :: d in dsts && e in d.1
  }

  lemma {:induction false} TracedBackInPath(root: Switchbox, parents: Parents, path: set<Edge>, curr: Switchbox,
                                            n: Switchbox)
    requires TracedBack(root, parents, path, curr).Some? && n in TracedBack(root, parents, path, curr).value
    ensures var t := TracedBack(root, parents, path, curr).value;
      (t[n], n) in path || (n in parents && parents[n] == t[n])
    decreases Heads(path) - parents.Keys
  {
    if curr != root && curr !in parents {
      var pred := Predecessor(path, curr).value;
      assert (pred, curr) in In(path, curr) && (pred, curr).1 in Heads(path);
      assert curr in parents[curr := pred].Keys;
      TracedBackInPath(root, parents[curr := pred], path, pred, n);
    }
  }

  /** Every hop of the tree is an edge chosen for some destination. */
  lemma {:induction false} TreeInPaths(root: Switchbox, dsts: seq<Destination>, n: Switchbox)
    requires TracedTree(root, dsts).Some? && n in TracedTree(root, dsts).value
    ensures InPaths(dsts, (TracedTree(root, dsts).value[n], n))
  {
    var init, last := dsts[..|dsts| - 1], dsts[|dsts| - 1];
    var before := TracedTree(root, init).value;
    TracedBackInPath(root, before, last.1, last.0.sb, n);
    if n in before && before[n] == TracedTree(root, dsts).value[n] {
      TreeInPaths(root, init, n);
    }
  }
}
