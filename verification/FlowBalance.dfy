/** Why a 0/1 edge assignment that balances at every switchbox contains a route. */
module FlowBalance {
  import opened SwitchGraph

  function Out(used: set<Edge>, n: Switchbox): set<Edge> { set e | e in used && e.0 == n }

  function In(used: set<Edge>, n: Switchbox): set<Edge> { set e | e in used && e.1 == n }

  function LeavingFrom(used: set<Edge>, s: set<Switchbox>): set<Edge> { set e | e in used && e.0 in s }

  function EnteringInto(used: set<Edge>, s: set<Switchbox>): set<Edge> { set e | e in used && e.1 in s }

  function Excess(used: set<Edge>, n: Switchbox): int { |Out(used, n)| - |In(used, n)| }

  // ----- paths

  function Hop(p: seq<Switchbox>, k: nat): Edge
    requires k + 1 < |p|
  {
    (p[k], p[k + 1])
  }

  function PathEdges(p: seq<Switchbox>): set<Edge> { set k | 0 <= k < |p| - 1 :: Hop(p, k) }

  /** `p` runs from `src` to `tgt` without meeting a switchbox twice. */
  ghost predicate SimplePath(p: seq<Switchbox>, src: Switchbox, tgt: Switchbox) {
    && |p| > 0 && p[0] == src && p[|p| - 1] == tgt
    && forall i, j :: 0 <= i < j < |p| ==> p[i] != p[j]
  }

  ghost predicate IsRoute(used: set<Edge>, src: Switchbox, tgt: Switchbox) {
    exists p :: SimplePath(p, src, tgt) && PathEdges(p) == used
  }

  /** Some simple path among `used` never meets a second edge into one of its switchboxes. */
  ghost predicate UnforkedAlong(used: set<Edge>, p: seq<Switchbox>) {
    PathEdges(p) <= used && forall k :: 0 <= k < |p| - 1 ==> |In(used, Hop(p, k).1)| == 1
  }

  ghost predicate UnforkedRoute(used: set<Edge>, src: Switchbox, tgt: Switchbox) {
    exists p :: SimplePath(p, src, tgt) && UnforkedAlong(used, p)
  }

  ghost predicate Closed(used: set<Edge>, s: set<Switchbox>) {
    forall e :: e in used && e.0 in s ==> e.1 in s
  }

  /** Every switchbox of `s` can be reached from `src` inside `s`. */
  ghost predicate ReachedWithin(used: set<Edge>, src: Switchbox, s: set<Switchbox>) {
    forall n :: n in s ==> exists p :: SimplePath(p, src, n) && PathEdges(p) <= used && (forall m :: m in p ==> m in s)
  }

  lemma ExtendPath(used: set<Edge>, src: Switchbox, s: set<Switchbox>, e: Edge)
    requires ReachedWithin(used, src, s)
    requires e in used && e.0 in s && e.1 !in s
    ensures ReachedWithin(used, src, s + {e.1})
  {
    var s' := s + {e.1};
    forall n | n in s'
      ensures exists p :: SimplePath(p, src, n) && PathEdges(p) <= used && (forall m :: m in p ==> m in s')
    {
      if n == e.1 {
        var q :| SimplePath(q, src, e.0) && PathEdges(q) <= used && (forall m :: m in q ==> m in s);
        var p := q + [e.1];
        assert forall k :: 0 <= k < |q| ==> q[k] in q;
        forall f | f in PathEdges(p) ensures f in used {
          var k :| 0 <= k < |p| - 1 && f == Hop(p, k);
          if k < |q| - 1 {
            assert f == Hop(q, k) && f in PathEdges(q);
          }
        }
        assert SimplePath(p, src, n);
      } else {
        var p :| SimplePath(p, src, n) && PathEdges(p) <= used && (forall m :: m in p ==> m in s);
        assert forall m :: m in p ==> m in s';
      }
    }
  }

  /** Growing the reached set until nothing leaves it. */
  lemma ReachableSet(nodes: set<Switchbox>, used: set<Edge>, src: Switchbox, s: set<Switchbox>)
    returns (r: set<Switchbox>)
    requires forall e :: e in used ==> e.1 in nodes
    requires s <= nodes && src in s && ReachedWithin(used, src, s)
    ensures src in r && r <= nodes && Closed(used, r) && ReachedWithin(used, src, r)
    decreases nodes - s
  {
    if Closed(used, s) {
      r := s;
    } else {
      var e :| e in used && e.0 in s && e.1 !in s;
      ExtendPath(used, src, s, e);
      r := ReachableSet(nodes, used, src, s + {e.1});
    }
  }

  lemma CutGrows(used: set<Edge>, s: set<Switchbox>, n: Switchbox)
    requires n !in s
    ensures |LeavingFrom(used, s + {n})| == |LeavingFrom(used, s)| + |Out(used, n)|
    ensures |EnteringInto(used, s + {n})| == |EnteringInto(used, s)| + |In(used, n)|
  {
    assert LeavingFrom(used, s + {n}) == LeavingFrom(used, s) + Out(used, n);
    assert EnteringInto(used, s + {n}) == EnteringInto(used, s) + In(used, n);
  }

  /** What leaves a set minus what enters it is the excess of its members; only two may have any. */
  lemma {:induction false} CutBalance(used: set<Edge>, s: set<Switchbox>, src: Switchbox, tgt: Switchbox)
    requires src != tgt
    requires forall n :: n in s && n != src && n != tgt ==> Excess(used, n) == 0
    ensures |LeavingFrom(used, s)| - |EnteringInto(used, s)|
         == (if src in s then Excess(used, src) else 0) + (if tgt in s then Excess(used, tgt) else 0)
    decreases s
  {
    if s == {} {
      assert LeavingFrom(used, s) == {} && EnteringInto(used, s) == {};
    } else {
      var n :| n in s;
      var s' := s - {n};
      CutBalance(used, s', src, tgt);
      CutGrows(used, s', n);
      assert s == s' + {n};
    }
  }

  lemma SubsetSize<T>(a: set<T>, b: set<T>)
    requires a <= b
    ensures |a| <= |b|
    ensures |a| == |b| ==> a == b
  {
    assert b == a + (b - a);
  }

  /** Conservation over the whole graph: one unit out of `src` and some into `tgt` leave no way back. */
  lemma EndpointsExact(nodes: set<Switchbox>, used: set<Edge>, src: Switchbox, tgt: Switchbox)
    requires forall e :: e in used ==> e.0 in nodes && e.1 in nodes
    requires src != tgt && src in nodes && tgt in nodes
    requires |Out(used, src)| == 1 && Out(used, tgt) == {} && |In(used, tgt)| >= 1
    requires forall n :: n in nodes && n != src && n != tgt ==> Excess(used, n) == 0
    ensures In(used, src) == {} && |In(used, tgt)| == 1
  {
    CutBalance(used, nodes, src, tgt);
    assert LeavingFrom(used, nodes) == used == EnteringInto(used, nodes);
  }

  /** A balanced assignment contains a simple path: otherwise a closed set would keep the unit leaving `src`. */
  lemma BalancedContainsPath(nodes: set<Switchbox>, used: set<Edge>, src: Switchbox, tgt: Switchbox)
    returns (p: seq<Switchbox>)
    requires forall e :: e in used ==> e.0 in nodes && e.1 in nodes
    requires src != tgt && src in nodes && tgt in nodes
    requires |Out(used, src)| == 1 && Out(used, tgt) == {} && |In(used, tgt)| >= 1
    requires forall n :: n in nodes && n != src && n != tgt ==> Excess(used, n) == 0
    ensures SimplePath(p, src, tgt) && PathEdges(p) <= used
  {
    EndpointsExact(nodes, used, src, tgt);
    assert SimplePath([src], src, src) && PathEdges([src]) == {};
    var r := ReachableSet(nodes, used, src, {src});
    if tgt !in r {
      CutBalance(used, r, src, tgt);
      SubsetSize(LeavingFrom(used, r), EnteringInto(used, r));
      assert false;
    }
    p :| SimplePath(p, src, tgt) && PathEdges(p) <= used && (forall m :: m in p ==> m in r);
  }

  /** Degrees along a simple path: one edge out of every switchbox but the last, one into every one but the first. */
  lemma PathDegrees(p: seq<Switchbox>, src: Switchbox, tgt: Switchbox, n: Switchbox)
    requires SimplePath(p, src, tgt)
    ensures n !in p ==> Out(PathEdges(p), n) == {} && In(PathEdges(p), n) == {}
    ensures n in p && n != tgt ==> |Out(PathEdges(p), n)| == 1
    ensures n in p && n != src ==> |In(PathEdges(p), n)| == 1
    ensures Out(PathEdges(p), tgt) == {} && In(PathEdges(p), src) == {}
  {
    var es := PathEdges(p);
    forall e | e in es ensures e.0 in p && e.1 in p && e.0 != tgt && e.1 != src {
      var k :| 0 <= k < |p| - 1 && e == Hop(p, k);
    }
    if n in p {
      var k :| 0 <= k < |p| && p[k] == n;
      if n != tgt {
        assert Hop(p, k) in es;
        forall e | e in Out(es, n) ensures e == (n, p[k + 1]) {
          var i :| 0 <= i < |p| - 1 && e == Hop(p, i);
        }
        assert Out(es, n) == {(n, p[k + 1])};
      }
      if n != src {
        assert Hop(p, k - 1) in es;
        forall e | e in In(es, n) ensures e == (p[k - 1], n) {
          var i :| 0 <= i < |p| - 1 && e == Hop(p, i);
        }
        assert In(es, n) == {(p[k - 1], n)};
      }
    }
  }

  lemma RouteIsUnforked(used: set<Edge>, src: Switchbox, tgt: Switchbox)
    requires IsRoute(used, src, tgt)
    ensures UnforkedRoute(used, src, tgt)
  {
    var p :| SimplePath(p, src, tgt) && PathEdges(p) == used;
    forall k | 0 <= k < |p| - 1 ensures |In(used, Hop(p, k).1)| == 1 {
      PathDegrees(p, src, tgt, p[k + 1]);
    }
  }
}
