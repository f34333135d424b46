/** The cascade as cores running concurrently, joined by bounded FIFOs: every interleaving of their gets and puts. */
module CascadePipeline {
  import opened Options
  import opened Indexing
  import opened Matrices
  import opened CascadeKernels

  /** One put_only core, any number of put_get cores and one get_only core, with their operands and FIFO capacities. */
  datatype Net = Net(shape: Shape, a: seq<seq<int>>, b: seq<seq<int>>, caps: seq<nat>, c0: seq<int>) {
    function Cores(): nat { |a| }

    ghost predicate Valid() {
      && |a| == |b| >= 2 && |caps| == |a| - 1 && |c0| == shape.Count() && shape.half > 0
      && (forall p :: 0 <= p < |a| ==> shape.Fits(a[p], b[p]))
      && (forall p :: 0 <= p < |caps| ==> caps[p] >= 1)
    }

    function LocalOf(p: nat, k: nat): int
      requires p < |a| == |b| && shape.half > 0
    {
      Local(shape, a[p], b[p], k)
    }
  }

  /** Outputs finished by each core, what a core in the middle has taken but not yet passed on, the FIFOs, and C. */
  datatype State = State(done: seq<nat>, held: seq<Option<int>>, fifos: seq<seq<int>>, c: seq<int>)

  datatype Action = Get(core: nat) | Put(core: nat)

  ghost predicate Shaped(net: Net, st: State) {
    && net.Valid()
    && |st.done| == |st.held| == net.Cores() && |st.fifos| == net.Cores() - 1 && |st.c| == |net.c0|
  }

  function Init(net: Net): State
    requires |net.a| >= 1
  {
    State(seq(|net.a|, _ => 0), seq(|net.a|, _ => None), seq(|net.a| - 1, _ => []), net.c0)
  }

  // ----- the steps: a get blocks on an empty FIFO, a put on a full one

  ghost predicate Enabled(net: Net, st: State, act: Action)
    requires Shaped(net, st)
  {
    match act
    case Get(p) =>
      1 <= p < net.Cores() && st.done[p] < net.shape.Count() && st.held[p] == None && st.fifos[p - 1] != []
    case Put(p) =>
      && p < net.Cores() - 1 && |st.fifos[p]| < net.caps[p]
      && if p == 0 then st.done[0] < net.shape.Count() else st.held[p].Some?
  }

  ghost function Apply(net: Net, st: State, act: Action): State
    requires Shaped(net, st) && Enabled(net, st, act)
    requires act.Get? ==> |st.c| == net.shape.Count()
  {
    match act
    case Get(p) =>
      var sum := Wrap(net.shape.half, net.LocalOf(p, st.done[p]) + st.fifos[p - 1][0]);
      var fifos := st.fifos[p - 1 := st.fifos[p - 1][1..]];
      if p < net.Cores() - 1 then
        st.(fifos := fifos, held := st.held[p := Some(sum)])
      else
        var k := st.done[p];
        st.(fifos := fifos, c := st.c[k := Wrap(net.shape.half, st.c[k] + sum)], done := st.done[p := k + 1])
    case Put(p) =>
      var value := if p == 0 then net.LocalOf(0, st.done[0]) else st.held[p].value;
      State(st.done[p := st.done[p] + 1], st.held[p := None], st.fifos[p := st.fifos[p] + [value]], st.c)
  }

  ghost predicate Next(net: Net, st: State, st': State) {
    && Shaped(net, st)
    && exists act :: Enabled(net, st, act) && st' == Apply(net, st, act)
  }

  /** A run is any interleaving from the initial state. */
  ghost predicate IsRun(net: Net, run: seq<State>) {
    && net.Valid() && |run| > 0 && run[0] == Init(net)
    && forall i :: 0 <= i < |run| - 1 ==> Next(net, run[i], run[i + 1])
  }

  ghost predicate Stuck(net: Net, st: State)
    requires Shaped(net, st)
  {
    forall act :: !Enabled(net, st, act)
  }

  ghost predicate Finished(net: Net, st: State)
    requires Shaped(net, st)
  {
    && (forall p :: 0 <= p < net.Cores() ==> st.done[p] == net.shape.Count() && st.held[p] == None)
    && (forall p :: 0 <= p < |st.fifos| ==> st.fifos[p] == [])
  }

  // ----- the invariant

  /** Output `k` as it leaves core `p`: the wrapped sum over the cores up to `p`. */
  ghost function Partial(net: Net, p: nat, k: nat): int
    requires net.Valid() && p < net.Cores()
    decreases p
  {
    if p == 0 then net.LocalOf(0, k) else Wrap(net.shape.half, net.LocalOf(p, k) + Partial(net, p - 1, k))
  }

  /** How many items core `p` has taken from the FIFO before it. */
  function Taken(st: State, p: nat): nat
    requires p < |st.done| == |st.held|
  {
    st.done[p] + if st.held[p].Some? then 1 else 0
  }

  ghost predicate CoreOk(net: Net, st: State, p: nat)
    requires Shaped(net, st) && p < net.Cores()
  {
    && st.done[p] <= net.shape.Count()
    && (st.held[p].Some? ==>
      0 < p < net.Cores() - 1 && st.done[p] < net.shape.Count() && st.held[p].value == Partial(net, p, st.done[p]))
  }

  /** FIFO `p` holds, in order, the partial sums that core `p` has put and core `p + 1` has not yet taken. */
  ghost predicate FifoOk(net: Net, st: State, p: nat)
    requires Shaped(net, st) && p < net.Cores() - 1
  {
    && |st.fifos[p]| == st.done[p] - Taken(st, p + 1) <= net.caps[p]
    && forall i :: 0 <= i < |st.fifos[p]| ==> st.fifos[p][i] == Partial(net, p, Taken(st, p + 1) + i)
  }

  ghost predicate OutputOk(net: Net, st: State)
    requires Shaped(net, st)
  {
    var last := net.Cores() - 1;
    forall k :: 0 <= k < |st.c| ==>
      st.c[k] == if k < st.done[last] then Wrap(net.shape.half, net.c0[k] + Partial(net, last, k)) else net.c0[k]
  }

  ghost predicate Inv(net: Net, st: State) {
    && Shaped(net, st)
    && (forall p :: 0 <= p < net.Cores() ==> CoreOk(net, st, p))
    && (forall p :: 0 <= p < net.Cores() - 1 ==> FifoOk(net, st, p))
    && OutputOk(net, st)
  }

  lemma InitInv(net: Net)
    requires net.Valid()
    ensures Inv(net, Init(net))
  {}

  lemma PutKeepsInv(net: Net, st: State, p: nat)
    requires Inv(net, st) && Enabled(net, st, Put(p))
    ensures Inv(net, Apply(net, st, Put(p)))
  {
    var st' := Apply(net, st, Put(p));
    assert CoreOk(net, st, p) && FifoOk(net, st, p);
    forall q | 0 <= q < net.Cores() ensures CoreOk(net, st', q) {
      assert CoreOk(net, st, q);
    }
    forall q | 0 <= q < net.Cores() - 1 ensures FifoOk(net, st', q) {
      assert FifoOk(net, st, q);
    }
  }

  lemma GetKeepsInv(net: Net, st: State, p: nat)
    requires Inv(net, st) && Enabled(net, st, Get(p))
    ensures Inv(net, Apply(net, st, Get(p)))
  {
    var st' := Apply(net, st, Get(p));
    assert CoreOk(net, st, p) && FifoOk(net, st, p - 1);
    forall q | 0 <= q < net.Cores() ensures CoreOk(net, st', q) {
      assert CoreOk(net, st, q);
    }
    forall q | 0 <= q < net.Cores() - 1 ensures FifoOk(net, st', q) {
      assert FifoOk(net, st, q);
    }
  }

  // ----- no deadlock

  lemma FinishedIsStuck(net: Net, st: State)
    requires Shaped(net, st) && Finished(net, st)
    ensures Stuck(net, st)
  {}

  /** Behind a FIFO that holds something, some core can move. */
  lemma {:induction false} DownstreamMoves(net: Net, st: State, p: nat)
    requires Inv(net, st) && p < net.Cores() - 1 && st.fifos[p] != []
    ensures exists act :: Enabled(net, st, act)
    decreases net.Cores() - p
  {
    assert FifoOk(net, st, p) && CoreOk(net, st, p) && CoreOk(net, st, p + 1);
    if st.held[p + 1] == None {
      assert Enabled(net, st, Get(p + 1));
    } else if |st.fifos[p + 1]| < net.caps[p + 1] {
      assert Enabled(net, st, Put(p + 1));
    } else {
      DownstreamMoves(net, st, p + 1);
    }
  }

  /** With empty FIFOs and idle hands, all cores have finished the same number of outputs. */
  lemma {:induction false} QuietCoresAgree(net: Net, st: State, p: nat)
    requires Inv(net, st) && p < net.Cores()
    requires forall q :: 0 <= q < |st.fifos| ==> st.fifos[q] == []
    requires forall q :: 0 <= q < |st.held| ==> st.held[q] == None
    ensures st.done[p] == st.done[0]
    decreases p
  {
    if p > 0 {
      QuietCoresAgree(net, st, p - 1);
      assert FifoOk(net, st, p - 1);
    }
  }

  /** A reachable state in which nothing can move is one in which everything is done. */
  lemma StuckIsFinished(net: Net, st: State)
    requires Inv(net, st) && Stuck(net, st)
    ensures Finished(net, st)
  {
    forall p | 0 <= p < |st.fifos| ensures st.fifos[p] == [] {
      if st.fifos[p] != [] {
        DownstreamMoves(net, st, p);
      }
    }
    forall p | 0 <= p < |st.held| ensures st.held[p] == None {
      assert CoreOk(net, st, p);
      assert !Enabled(net, st, Put(p));
    }
    assert !Enabled(net, st, Put(0));
    forall p | 0 <= p < net.Cores() ensures st.done[p] == net.shape.Count() {
      QuietCoresAgree(net, st, p);
      assert CoreOk(net, st, 0);
    }
  }

  // ----- termination: the gets and puts still to come

  function CoreWork(net: Net, st: State, p: nat): int
    requires p < |st.done| == |st.held|
  {
    var left := net.shape.Count() - st.done[p];
    if p == 0 || p == |st.done| - 1 then left else 2 * left - (if st.held[p].Some? then 1 else 0)
  }

  function Work(net: Net, st: State, n: nat): int
    requires n <= |st.done| == |st.held|
  {
    if n == 0 then 0 else Work(net, st, n - 1) + CoreWork(net, st, n - 1)
  }

  lemma {:induction false} OneCoreMoves(net: Net, st: State, st': State, p: nat, n: nat)
    requires n <= |st.done| == |st.held| == |st'.done| == |st'.held|
    requires forall q :: 0 <= q < |st.done| ==>
      CoreWork(net, st', q) == CoreWork(net, st, q) - if q == p then 1 else 0
    ensures Work(net, st', n) == Work(net, st, n) - if p < n then 1 else 0
  {
    if n > 0 {
      OneCoreMoves(net, st, st', p, n - 1);
    }
  }

  /** Every step uses up exactly one get or put. */
  lemma StepWorks(net: Net, st: State, act: Action)
    requires Inv(net, st) && Enabled(net, st, act)
    ensures Work(net, Apply(net, st, act), net.Cores()) == Work(net, st, net.Cores()) - 1
  {
    var st', p := Apply(net, st, act), act.core;
    assert CoreOk(net, st, p);
    OneCoreMoves(net, st, st', p, net.Cores());
  }

  lemma {:induction false} WorkIsBounded(net: Net, st: State, n: nat)
    requires Inv(net, st) && n <= net.Cores()
    ensures 0 <= Work(net, st, n)
  {
    if n > 0 {
      WorkIsBounded(net, st, n - 1);
      assert CoreOk(net, st, n - 1);
    }
  }

  lemma {:induction false} InitialWork(net: Net, n: nat)
    requires net.Valid() && 1 <= n < net.Cores()
    ensures Work(net, Init(net), n) == (2 * n - 1) * net.shape.Count()
  {
    var c, st := net.shape.Count(), Init(net);
    if n == 1 {
      assert Work(net, st, 0) == 0;
    } else {
      InitialWork(net, n - 1);
      assert CoreWork(net, st, n - 1) == 2 * c;
      assert (2 * n - 1) * c == (2 * (n - 1) - 1) * c + 2 * c;
    }
  }

  /** All gets and puts of all cores. */
  lemma TotalWork(net: Net)
    requires net.Valid()
    ensures Work(net, Init(net), net.Cores()) == 2 * (net.Cores() - 1) * net.shape.Count()
  {
    var n, c := net.Cores() - 1, net.shape.Count();
    InitialWork(net, n);
    assert (2 * n - 1) * c + c == 2 * n * c;
  }

  lemma {:induction false} NoWorkLeft(net: Net, st: State, n: nat)
    requires Shaped(net, st) && Finished(net, st) && n <= net.Cores()
    ensures Work(net, st, n) == 0
  {
    if n > 0 {
      NoWorkLeft(net, st, n - 1);
    }
  }

  // ----- the result

  /** The exact sum of the products of the first `n` cores at output `k`. */
  ghost function SumOfProducts(net: Net, n: nat, k: nat): int
    requires net.Valid() && n <= net.Cores()
  {
    if n == 0 then 0 else
      SumOfProducts(net, n - 1, k) + ProductAt(net.a[n - 1], net.b[n - 1], net.shape.colA, net.shape.colB, k)
  }

  lemma {:induction false} PartialIsSum(net: Net, p: nat, k: nat)
    requires net.Valid() && p < net.Cores()
    ensures Partial(net, p, k) == Wrap(net.shape.half, SumOfProducts(net, p + 1, k))
    decreases p
  {
    var half := net.shape.half;
    var x := ProductAt(net.a[p], net.b[p], net.shape.colA, net.shape.colB, k);
    if p == 0 {
      assert SumOfProducts(net, 1, k) == SumOfProducts(net, 0, k) + x;
    } else {
      PartialIsSum(net, p - 1, k);
      var before := SumOfProducts(net, p, k);
      WrapAdds(half, x, Wrap(half, before));
      WrapAdds(half, x, before);
    }
  }

  /** Once everything is done, C has gained the sum of all the products. */
  lemma FinishedResult(net: Net, st: State, k: nat)
    requires Inv(net, st) && Finished(net, st) && k < |st.c|
    ensures st.c[k] == Wrap(net.shape.half, net.c0[k] + SumOfProducts(net, net.Cores(), k))
  {
    var last := net.Cores() - 1;
    PartialIsSum(net, last, k);
    WrapAdds(net.shape.half, net.c0[k], SumOfProducts(net, net.Cores(), k));
    assert CoreOk(net, st, last);
  }

  // ----- whole runs

  lemma {:induction false} RunKeepsInv(net: Net, run: seq<State>, i: nat)
    requires IsRun(net, run) && i < |run|
    ensures Inv(net, run[i])
    ensures Work(net, run[i], net.Cores()) == 2 * (net.Cores() - 1) * net.shape.Count() - i
  {
    if i == 0 {
      InitInv(net);
      TotalWork(net);
    } else {
      RunKeepsInv(net, run, i - 1);
      assert Next(net, run[i - 1], run[i - 1 + 1]);
      var act :| Enabled(net, run[i - 1], act) && run[i] == Apply(net, run[i - 1], act);
      StepWorks(net, run[i - 1], act);
      if act.Get? {
        GetKeepsInv(net, run[i - 1], act.core);
      } else {
        PutKeepsInv(net, run[i - 1], act.core);
      }
    }
  }

  /** Every run is finite, and one that cannot go on has taken every step and left the full product in C. */
  lemma EveryRunCompletes(net: Net, run: seq<State>)
    requires IsRun(net, run)
    ensures |run| - 1 <= 2 * (net.Cores() - 1) * net.shape.Count()
    ensures var last := run[|run| - 1];
      && Inv(net, last)
      && (Stuck(net, last) <==> Finished(net, last))
      && (Stuck(net, last) ==> |run| - 1 == 2 * (net.Cores() - 1) * net.shape.Count())
      && (Stuck(net, last) ==> forall k :: 0 <= k < |last.c| ==>
        last.c[k] == Wrap(net.shape.half, net.c0[k] + SumOfProducts(net, net.Cores(), k)))
  {
    var last := run[|run| - 1];
    RunKeepsInv(net, run, |run| - 1);
    WorkIsBounded(net, last, net.Cores());
    if Stuck(net, last) {
      StuckIsFinished(net, last);
      NoWorkLeft(net, last, net.Cores());
      forall k | 0 <= k < |last.c|
        ensures last.c[k] == Wrap(net.shape.half, net.c0[k] + SumOfProducts(net, net.Cores(), k))
      {
        FinishedResult(net, last, k);
      }
    } else if Finished(net, last) {
      FinishedIsStuck(net, last);
    }
  }

  /** Run one after the other, with each stream handed over whole, the kernels produce the same streams. */
  lemma {:induction false} KernelStreams(net: Net, streams: seq<seq<int>>, p: nat)
    requires net.Valid() && p < |streams| <= net.Cores()
    requires forall q :: 0 <= q < |streams| ==> |streams[q]| == net.shape.Count()
    requires Emits(net.shape, net.a[0], net.b[0], streams[0])
    requires forall q :: 0 < q < |streams| ==> Relays(net.shape, net.a[q], net.b[q], streams[q - 1], streams[q])
    ensures forall k :: 0 <= k < |streams[p]| ==> streams[p][k] == Partial(net, p, k)
    decreases p
  {
    if p > 0 {
      KernelStreams(net, streams, p - 1);
      assert Relays(net.shape, net.a[p], net.b[p], streams[p - 1], streams[p]);
    }
  }

  /** And the last one leaves the same C. */
  lemma KernelsGiveProduct(net: Net, streams: seq<seq<int>>, c: seq<int>)
    requires net.Valid() && |streams| == net.Cores() - 1 && |c| == |net.c0|
    requires forall q :: 0 <= q < |streams| ==> |streams[q]| == net.shape.Count()
    requires Emits(net.shape, net.a[0], net.b[0], streams[0])
    requires forall q :: 0 < q < |streams| ==> Relays(net.shape, net.a[q], net.b[q], streams[q - 1], streams[q])
    requires Accumulated(net.shape, net.a[|streams|], net.b[|streams|], streams[|streams| - 1], net.c0, c, |c|)
    ensures forall k :: 0 <= k < |c| ==>
      c[k] == Wrap(net.shape.half, net.c0[k] + SumOfProducts(net, net.Cores(), k))
  {
    var last := |streams|;
    KernelStreams(net, streams, last - 1);
    hide Wrap, SumOfProducts, Emits, Relays, Local;
    forall k | 0 <= k < |c| ensures c[k] == Wrap(net.shape.half, net.c0[k] + SumOfProducts(net, net.Cores(), k)) {
      assert c[k] == Wrap(net.shape.half, net.c0[k] + Partial(net, last, k));
      PartialIsSum(net, last, k);
      WrapAdds(net.shape.half, net.c0[k], SumOfProducts(net, net.Cores(), k));
    }
  }

  /** Two cores and a FIFO with room for one item are enough. */
  lemma SmallestNet(s: Shape, a0: seq<int>, b0: seq<int>, a1: seq<int>, b1: seq<int>, c0: seq<int>)
    requires s.Fits(a0, b0) && s.Fits(a1, b1) && |c0| == s.Count()
    ensures Net(s, [a0, a1], [b0, b1], [1], c0).Valid()
  {}
}
