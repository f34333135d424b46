/** The three sections of the vector 3x3 convolution, and that together they leave what the scalar kernel leaves. */
module Conv3x3Sections {
  import opened Indexing
  import opened Matrices
  import opened VectorUnit
  import opened Bits
  import opened Convolution
  import opened Conv3x3
  import opened Conv3x3Vector

  // ----- pointers of the three kernel rows

  datatype Pointers = Pointers(line: seq<int>, wts: seq<int>)

  /** Where a row points: a pixel of input group `ic`, and the weights of output group `g` and input group `ic`. */
  datatype Position = Position(x: nat, g: nat, ic: nat)

  function LineAt(l: Layer, pos: Position): int { pos.ic * (l.iw * 8) + pos.x * 8 }

  function WeightsAt(l: Layer, pos: Position, i: nat): int { l.Weights(pos.g, pos.ic, i, 0) }

  ghost predicate RowAt(l: Layer, p: Pointers, i: nat, pos: Position) {
    |p.line| == 3 && |p.wts| == 3 && i < 3 && p.line[i] == LineAt(l, pos) && p.wts[i] == WeightsAt(l, pos, i)
  }

  /** The used rows before row `i` are at one position, the others at another. */
  ghost predicate SplitAt(l: Layer, p: Pointers, i: nat, done: Position, todo: Position) {
    && |p.line| == 3 && |p.wts| == 3
    && (forall r: nat :: l.Start() <= r < i && r < l.End() ==> RowAt(l, p, r, done))
    && (forall r: nat :: l.Start() <= r < l.End() && i <= r ==> RowAt(l, p, r, todo))
  }

  ghost predicate AllAt(l: Layer, p: Pointers, pos: Position) {
    |p.line| == 3 && |p.wts| == 3 && forall r: nat :: l.Start() <= r < l.End() ==> RowAt(l, p, r, pos)
  }

  lemma AllIsSplit(l: Layer, p: Pointers, pos: Position, other: Position)
    ensures AllAt(l, p, pos) <==> SplitAt(l, p, l.Start(), other, pos)
    ensures AllAt(l, p, pos) <==> SplitAt(l, p, l.End(), pos, other)
  {}

  ghost predicate Apart(l: Layer, from: Position, to: Position, dl: int, dw: int) {
    && LineAt(l, to) - LineAt(l, from) == dl
    && (forall i: nat :: i < 3 ==> WeightsAt(l, to, i) - WeightsAt(l, from, i) == dw)
  }

  function Move(p: Pointers, i: nat, dl: int, dw: int): (q: Pointers)
    requires i < |p.line| && i < |p.wts|
  {
    Pointers(p.line[i := p.line[i] + dl], p.wts[i := p.wts[i] + dw])
  }

  lemma RowMoves(l: Layer, p: Pointers, i: nat, done: Position, todo: Position, dl: int, dw: int)
    requires SplitAt(l, p, i, done, todo) && l.Start() <= i < l.End() && Apart(l, todo, done, dl, dw)
    ensures SplitAt(l, Move(p, i, dl, dw), i + 1, done, todo)
  {
    var q := Move(p, i, dl, dw);
    assert RowAt(l, p, i, todo) && WeightsAt(l, done, i) - WeightsAt(l, todo, i) == dw;
    hide LineAt, WeightsAt;
    forall r: nat | l.Start() <= r < i ensures RowAt(l, q, r, done) {
      assert RowAt(l, p, r, done);
    }
    forall r: nat | i < r < l.End() ensures RowAt(l, q, r, todo) {
      assert RowAt(l, p, r, todo);
    }
  }

  /** The loops that adjust the pointers of all used rows. */
  method MoveAll(l: Layer, p: Pointers, dl: int, dw: int, ghost from: Position, ghost to: Position)
    returns (q: Pointers)
    requires AllAt(l, p, from) && Apart(l, from, to, dl, dw)
    ensures AllAt(l, q, to)
  {
    hide AllAt, RowAt, Apart;
    q := p;
    var i := l.Start();
    AllIsSplit(l, p, from, to);
    while i < l.End()
      invariant l.Start() <= i <= l.End() && SplitAt(l, q, i, to, from)
    {
      RowMoves(l, q, i, to, from, dl, dw);
      q := Move(q, i, dl, dw);
      i := i + 1;
    }
    AllIsSplit(l, q, to, from);
  }

  /** On to the next input group; from behind the last one, back to the first for the next output group; and from
      behind the last output group, back to the first, some pixels further right. */
  lemma Distances(l: Layer, x: nat, g: nat, ic: nat, d: nat)
    requires l.iw == 32
    ensures Apart(l, Position(x, g, ic), Position(x, g, ic + 1), 256, 576)
    ensures Apart(l, Position(x, g, l.Groups()), Position(x, g + 1, 0), -(l.ics / 8 * 256), 0)
    ensures Apart(l, Position(x, g, ic), Position(x + d, g, ic), d * 8, 0)
    ensures Apart(l, Position(x + 4, g, ic), Position(x, g, ic + 1), 224, 576)
    ensures Apart(l, Position(x, l.ocs / 8, 0), Position(x + d, 0, 0), d * 8, -(l.ocs / 8 * (l.ics / 8) * 576))
  {
    forall i: nat
      ensures WeightsAt(l, Position(x, g, ic + 1), i) - WeightsAt(l, Position(x, g, ic), i) == 576
      ensures WeightsAt(l, Position(x, g, l.Groups()), i) == WeightsAt(l, Position(x, g + 1, 0), i)
      ensures WeightsAt(l, Position(x, l.ocs / 8, 0), i) - WeightsAt(l, Position(x, 0, 0), i)
        == l.ocs / 8 * (l.ics / 8) * 576
    {
      NextWeights(l, g, ic, i, 0);
      var f, n := l.channelOffset / 8, l.Groups();
      assert (l.ocs / 8 + f) * n == l.ocs / 8 * n + f * n;
    }
    hide l.Weights;
  }

  // ----- the output

  /** Pixels before `lo` of all `n` groups; from there up to `hi` those of the groups before `g`, and of group `g` those
      before `mid`. */
  ghost function Sections(n: nat, lo: nat, hi: nat, g: nat, mid: nat): Spots {
    (p: Spot) => p.g < n && (p.x < lo || (p.x < hi && (p.g < g || (p.g == g && p.x < mid))))
  }

  method StorePixels(l: Layer, output: array<int>, outPtr: int, acc: seq<int>, ghost g: nat, ghost x: nat,
                     ghost lo: nat, ghost hi: nat, ghost out0: seq<int>)
    requires Ready(l, output.Length) && g < l.ocs / 8 && outPtr == g * 256 + x * 8 && lo <= x && x + 4 <= hi <= 32
    requires Summed(l, g, x, l.Groups(), l.Start(), 0, acc)
    requires Filled(Result(l), 256, 32, out0, output[..], Sections(l.ocs / 8, lo, hi, g, x))
    modifies output
    ensures Filled(Result(l), 256, 32, out0, output[..], Sections(l.ocs / 8, lo, hi, g, x + 4))
  {
    SummedIsResult(l, g, x, acc);
    hide Filled, Summed, Result, ToUint8;
    var o1 := VectorToUint8(acc, l.scale);
    RunFilled(Result(l), 256, 32, out0, output[..],
      Sections(l.ocs / 8, lo, hi, g, x), Sections(l.ocs / 8, lo, hi, g, x + 4), g, x, 4, o1);
    StoreV(output, outPtr, o1);
  }

  /** What is kept between output groups: rows back at the start of the section, and the output up to group `g`. */
  ghost predicate AtGroup(l: Layer, p: Pointers, outPtr: int, out0: seq<int>, out: seq<int>, lo: nat, hi: nat, g: nat) {
    && g <= l.ocs / 8
    && AllAt(l, p, Position(lo, g, 0))
    && outPtr == g * 256 + lo * 8
    && Filled(Result(l), 256, 32, out0, out, Sections(l.ocs / 8, lo, hi, g, lo))
  }

  lemma GroupStored(l: Layer, out0: seq<int>, out: seq<int>, lo: nat, hi: nat, g: nat)
    requires Filled(Result(l), 256, 32, out0, out, Sections(l.ocs / 8, lo, hi, g, hi)) && lo <= hi
    ensures Filled(Result(l), 256, 32, out0, out, Sections(l.ocs / 8, lo, hi, g + 1, lo))
  {
    hide Result;
    FilledSame(Result(l), 256, 32, out0, out,
      Sections(l.ocs / 8, lo, hi, g, hi), Sections(l.ocs / 8, lo, hi, g + 1, lo));
  }

  // ----- left

  /** One group of input channels for the leftmost four pixels. */
  method LeftGroup(l: Layer, ghost out: nat, p: Pointers, acc: seq<int>, ghost g: nat, ghost ic: nat)
    returns (q: Pointers, acc': seq<int>)
    requires Ready(l, out) && g < l.ocs / 8 && ic < l.Groups()
    requires AllAt(l, p, Position(0, g, ic)) && Summed(l, g, 0, ic, l.Start(), 0, acc)
    ensures AllAt(l, q, Position(0, g, ic + 1)) && Summed(l, g, 0, ic + 1, l.Start(), 0, acc')
  {
    hide AllAt, Summed, Holds, Apart, l.Fits;
    q, acc' := p, acc;
    var i := l.Start();
    ghost var todo, done := Position(0, g, ic), Position(4, g, ic);
    AllIsSplit(l, p, todo, done);
    Distances(l, 0, g, ic, 4);
    while i < l.End()
      invariant l.Start() <= i <= l.End() && SplitAt(l, q, i, done, todo)
      invariant Summed(l, g, 0, ic, i, 0, acc')
    {
      assert RowAt(l, q, i, todo);
      var inA, line := LeftWindow(l, out, i, ic, q.line[i]);
      HoldsPart(l, i, ic, -1, 8, inA, 0, 6, inA);
      var wp: int;
      acc', wp := MacRow(l, out, i, g, ic, 0, inA, q.wts[i], acc');
      wp := wp - 3 * 64;
      RowMoves(l, q, i, done, todo, 32, 0);
      q := Pointers(q.line[i := line], q.wts[i := wp]);
      i := i + 1;
    }
    AllIsSplit(l, q, done, todo);
    q := MoveAll(l, q, 224, 576, done, Position(0, g, ic + 1));
    SummedNextGroup(l, g, 0, ic, acc');
  }

  method LeftOutput(l: Layer, output: array<int>, p: Pointers, outPtr: int, ghost g: nat, ghost out0: seq<int>)
    returns (q: Pointers, outPtr': int)
    requires Ready(l, output.Length) && g < l.ocs / 8 && AtGroup(l, p, outPtr, out0, output[..], 0, 4, g)
    modifies output
    ensures AtGroup(l, q, outPtr', out0, output[..], 0, 4, g + 1)
  {
    hide AllAt, Summed, Filled, Apart, l.Fits, Sections, Result;
    q, outPtr' := p, outPtr;
    var acc := ZeroVector(32);
    SummedNothing(l, g, 0);
    var ic := 0;
    while ic < l.ics / 8
      invariant 0 <= ic <= l.Groups() && output[..] == old(output[..]) && AllAt(l, q, Position(0, g, ic))
      invariant Summed(l, g, 0, ic, l.Start(), 0, acc)
    {
      q, acc := LeftGroup(l, output.Length, q, acc, g, ic);
      ic := ic + 1;
    }
    StorePixels(l, output, outPtr, acc, g, 0, 0, 4, out0);
    GroupStored(l, out0, output[..], 0, 4, g);
    outPtr' := outPtr + 256;
    Distances(l, 0, g, 0, 0);
    q := MoveAll(l, q, -(l.ics / 8 * 256), 0, Position(0, g, l.Groups()), Position(0, g + 1, 0));
  }

  /** From the end of one section to the start of the next. */
  method NextSection(l: Layer, p: Pointers, outPtr: int, ghost out0: seq<int>, ghost out: seq<int>, ghost lo: nat,
                     hi: nat, width: nat)
    returns (q: Pointers, outPtr': int)
    requires l.iw == 32 && lo + width == hi && AtGroup(l, p, outPtr, out0, out, lo, hi, l.ocs / 8)
    ensures AtGroup(l, q, outPtr', out0, out, hi, if hi == 4 then 28 else 32, 0)
  {
    hide AllAt, Filled, Apart, Result;
    Distances(l, lo, 0, 0, width);
    outPtr' := outPtr - (l.ocs / 8 * 256 - width * 8);
    q := MoveAll(l, p, width * 8, -(l.ocs / 8 * (l.ics / 8) * 576), Position(lo, l.ocs / 8, 0), Position(hi, 0, 0));
    FilledSame(Result(l), 256, 32, out0, out, Sections(l.ocs / 8, lo, hi, l.ocs / 8, lo),
      Sections(l.ocs / 8, hi, if hi == 4 then 28 else 32, 0, hi));
  }

  // ----- middle

  method MiddleRow(l: Layer, ghost out: nat, i: nat, line: int, wp: int, accs: seq<seq<int>>, ghost g: nat,
                   ghost ic: nat)
    returns (accs': seq<seq<int>>, line': int, wp': int)
    requires Ready(l, out) && g < l.ocs / 8 && ic < l.Groups() && l.Start() <= i < l.End()
    requires line == LineAt(l, Position(4, g, ic)) && wp == l.Weights(g, ic, i, 0) && SixSummed(l, g, ic, i, 0, 0, accs)
    ensures SixSummed(l, g, ic, i + 1, 0, 0, accs') && line' == line + 256 && wp' == wp + 576
  {
    hide SixSummed, l.Weights, l.Fits;
    accs', line', wp' := accs, line, wp;
    var j := 0;
    while j < 3
      invariant 0 <= j <= 3 && line' == line && wp' == wp + j * 64
      invariant SixSummed(l, g, ic, i, j, 0, accs')
    {
      WeightsFit(l, g, ic, i, j);
      WeightsEnd(l, out);
      NextWeights(l, g, ic, i, j);
      var wtsVec := LoadV(l.wts, wp', 64);
      wp' := wp' + 64;
      accs', line' := MiddleTap(l, out, i, j, g, ic, wtsVec, line', accs');
      j := j + 1;
    }
    SixNextRow(l, g, ic, i, accs');
    wp' := wp' + (3 - 1) * 3 * 64;
    line' := line' + 256;
  }

  lemma WeightsEnd(l: Layer, out: nat)
    requires Ready(l, out)
    ensures l.Weights(l.ocs / 8, 0, 0, 0) <= |l.wts|
  {}

  lemma SixNextRow(l: Layer, g: nat, ic: nat, i: nat, accs: seq<seq<int>>)
    requires SixSummed(l, g, ic, i, 3, 0, accs) && l.Start() <= i
    ensures SixSummed(l, g, ic, i + 1, 0, 0, accs)
  {
    hide Summed;
    forall y: nat | y < 6 ensures Summed(l, g, 4 + y * 4, ic, i + 1, 0, accs[y]) {
      SummedNextRow(l, g, 4 + y * 4, ic, i, accs[y]);
    }
  }

  lemma SixNextGroup(l: Layer, g: nat, ic: nat, accs: seq<seq<int>>)
    requires SixSummed(l, g, ic, l.End(), 0, 0, accs)
    ensures SixSummed(l, g, ic + 1, l.Start(), 0, 0, accs)
  {
    hide Summed;
    forall y: nat | y < 6 ensures Summed(l, g, 4 + y * 4, ic + 1, l.Start(), 0, accs[y]) {
      SummedNextGroup(l, g, 4 + y * 4, ic, accs[y]);
    }
  }

  lemma SixNothing(l: Layer, g: nat)
    ensures SixSummed(l, g, 0, l.Start(), 0, 0, seq(8, _ => ZeroVector(32)))
  {
    var accs := seq(8, _ => ZeroVector(32));
    hide Summed;
    forall y: nat | y < 6 ensures Summed(l, g, 4 + y * 4, 0, l.Start(), 0, accs[y]) {
      SummedNothing(l, g, 4 + y * 4);
    }
  }

  method MiddleGroup(l: Layer, ghost out: nat, p: Pointers, accs: seq<seq<int>>, ghost g: nat, ghost ic: nat)
    returns (q: Pointers, accs': seq<seq<int>>)
    requires Ready(l, out) && g < l.ocs / 8 && ic < l.Groups()
    requires AllAt(l, p, Position(4, g, ic)) && SixSummed(l, g, ic, l.Start(), 0, 0, accs)
    ensures AllAt(l, q, Position(4, g, ic + 1)) && SixSummed(l, g, ic + 1, l.Start(), 0, 0, accs')
  {
    hide AllAt, SixSummed, Apart, l.Fits;
    q, accs' := p, accs;
    var i := l.Start();
    ghost var todo, done := Position(4, g, ic), Position(4, g, ic + 1);
    AllIsSplit(l, p, todo, done);
    Distances(l, 4, g, ic, 0);
    while i < l.End()
      invariant l.Start() <= i <= l.End() && SplitAt(l, q, i, done, todo)
      invariant SixSummed(l, g, ic, i, 0, 0, accs')
    {
      assert RowAt(l, q, i, todo);
      var line, wp: int;
      accs', line, wp := MiddleRow(l, out, i, q.line[i], q.wts[i], accs', g, ic);
      RowMoves(l, q, i, done, todo, 256, 576);
      q := Pointers(q.line[i := line], q.wts[i := wp]);
      i := i + 1;
    }
    AllIsSplit(l, q, done, todo);
    SixNextGroup(l, g, ic, accs');
  }

  method MiddleOutput(l: Layer, output: array<int>, p: Pointers, outPtr: int, ghost g: nat, ghost out0: seq<int>)
    returns (q: Pointers, outPtr': int)
    requires Ready(l, output.Length) && g < l.ocs / 8 && AtGroup(l, p, outPtr, out0, output[..], 4, 28, g)
    modifies output
    ensures AtGroup(l, q, outPtr', out0, output[..], 4, 28, g + 1)
  {
    hide AllAt, Summed, SixSummed, Filled, Apart, l.Fits, Sections, Result;
    q, outPtr' := p, outPtr;
    var accs := seq(8, _ => ZeroVector(32));
    SixNothing(l, g);
    var ic := 0;
    while ic < l.ics / 8
      invariant 0 <= ic <= l.Groups() && output[..] == old(output[..]) && AllAt(l, q, Position(4, g, ic))
      invariant SixSummed(l, g, ic, l.Start(), 0, 0, accs)
    {
      q, accs := MiddleGroup(l, output.Length, q, accs, g, ic);
      ic := ic + 1;
    }
    outPtr' := StoreSix(l, output, outPtr', accs, g, out0);
    GroupStored(l, out0, output[..], 4, 28, g);
    Distances(l, 4, g, 0, 0);
    q := MoveAll(l, q, -(l.ics / 8 * 256), 0, Position(4, g, l.Groups()), Position(4, g + 1, 0));
    outPtr' := outPtr' + 256 - 6 * 32;
  }

  method StoreSix(l: Layer, output: array<int>, outPtr: int, accs: seq<seq<int>>, ghost g: nat, ghost out0: seq<int>)
    returns (outPtr': int)
    requires Ready(l, output.Length) && g < l.ocs / 8 && outPtr == g * 256 + 32
    requires SixSummed(l, g, l.Groups(), l.Start(), 0, 0, accs)
    requires Filled(Result(l), 256, 32, out0, output[..], Sections(l.ocs / 8, 4, 28, g, 4))
    modifies output
    ensures Filled(Result(l), 256, 32, out0, output[..], Sections(l.ocs / 8, 4, 28, g, 28))
    ensures outPtr' == outPtr + 6 * 32
  {
    hide Summed, Filled, l.Fits, Sections, Result;
    outPtr' := outPtr;
    var x := 0;
    while x < 6
      invariant 0 <= x <= 6 && outPtr' == outPtr + x * 32
      invariant Filled(Result(l), 256, 32, out0, output[..], Sections(l.ocs / 8, 4, 28, g, 4 + x * 4))
    {
      StorePixels(l, output, outPtr', accs[x], g, 4 + x * 4, 4, 28, out0);
      outPtr' := outPtr' + 32;
      x := x + 1;
    }
  }

  // ----- right

  method RightGroup(l: Layer, ghost out: nat, p: Pointers, acc: seq<int>, ghost g: nat, ghost ic: nat)
    returns (q: Pointers, acc': seq<int>)
    requires Ready(l, out) && g < l.ocs / 8 && ic < l.Groups()
    requires AllAt(l, p, Position(28, g, ic)) && Summed(l, g, 28, ic, l.Start(), 0, acc)
    ensures AllAt(l, q, Position(28, g, ic + 1)) && Summed(l, g, 28, ic + 1, l.Start(), 0, acc')
  {
    hide AllAt, Summed, Holds, Apart, l.Fits;
    q, acc' := p, acc;
    var i := l.Start();
    ghost var todo, done := Position(28, g, ic), Position(28, g, ic + 1);
    AllIsSplit(l, p, todo, done);
    Distances(l, 28, g, ic, 0);
    while i < l.End()
      invariant l.Start() <= i <= l.End() && SplitAt(l, q, i, done, todo)
      invariant Summed(l, g, 28, ic, i, 0, acc')
    {
      assert RowAt(l, q, i, todo);
      var inA := RightWindow(l, out, i, ic, q.line[i]);
      HoldsPart(l, i, ic, 27, 8, inA, 0, 6, inA);
      var wp: int;
      acc', wp := MacRow(l, out, i, g, ic, 28, inA, q.wts[i], acc');
      wp := wp + (3 - 1) * 3 * 64;
      RowMoves(l, q, i, done, todo, 256, 576);
      q := Pointers(q.line[i := q.line[i] + 256], q.wts[i := wp]);
      i := i + 1;
    }
    AllIsSplit(l, q, done, todo);
    SummedNextGroup(l, g, 28, ic, acc');
  }

  method RightOutput(l: Layer, output: array<int>, p: Pointers, outPtr: int, ghost g: nat, ghost out0: seq<int>)
    returns (q: Pointers, outPtr': int)
    requires Ready(l, output.Length) && g < l.ocs / 8 && AtGroup(l, p, outPtr, out0, output[..], 28, 32, g)
    modifies output
    ensures AtGroup(l, q, outPtr', out0, output[..], 28, 32, g + 1)
  {
    hide AllAt, Summed, Filled, Apart, l.Fits, Sections, Result;
    q, outPtr' := p, outPtr;
    var acc := ZeroVector(32);
    SummedNothing(l, g, 28);
    var ic := 0;
    while ic < l.ics / 8
      invariant 0 <= ic <= l.Groups() && output[..] == old(output[..]) && AllAt(l, q, Position(28, g, ic))
      invariant Summed(l, g, 28, ic, l.Start(), 0, acc)
    {
      q, acc := RightGroup(l, output.Length, q, acc, g, ic);
      ic := ic + 1;
    }
    StorePixels(l, output, outPtr, acc, g, 28, 28, 32, out0);
    GroupStored(l, out0, output[..], 28, 32, g);
    outPtr' := outPtr + 256;
    Distances(l, 28, g, 0, 0);
    q := MoveAll(l, q, -(l.ics / 8 * 256), 0, Position(28, g, l.Groups()), Position(28, g + 1, 0));
  }

  // ----- the whole kernel

  method Conv2dk3Vector(l: Layer, output: array<int>)
    requires Ready(l, output.Length)
    modifies output
    ensures Written(Result(l), 256, 32, old(output[..]), output[..], l.ocs / 8, 0)
  {
    ghost var out0 := output[..];
    var base := l.channelOffset / 8 * (l.ics / 8) * 3 * 3 * 64;
    var p := Pointers([0, 0, 0], [base, base + 3 * 64, base + 2 * 3 * 64]);
    var outPtr := 0;
    FirstGroup(l, p, out0);
    hide AtGroup, Ready, Result;
    var oc := 0;
    while oc < l.ocs / 8
      invariant 0 <= oc <= l.ocs / 8 && AtGroup(l, p, outPtr, out0, output[..], 0, 4, oc)
    {
      p, outPtr := LeftOutput(l, output, p, outPtr, oc, out0);
      oc := oc + 1;
    }
    IsWide(l, output.Length);
    p, outPtr := NextSection(l, p, outPtr, out0, output[..], 0, 4, 4);
    oc := 0;
    while oc < l.ocs / 8
      invariant 0 <= oc <= l.ocs / 8 && AtGroup(l, p, outPtr, out0, output[..], 4, 28, oc)
    {
      p, outPtr := MiddleOutput(l, output, p, outPtr, oc, out0);
      oc := oc + 1;
    }
    p, outPtr := NextSection(l, p, outPtr, out0, output[..], 4, 28, 24);
    oc := 0;
    while oc < l.ocs / 8
      invariant 0 <= oc <= l.ocs / 8 && AtGroup(l, p, outPtr, out0, output[..], 28, 32, oc)
    {
      p, outPtr := RightOutput(l, output, p, outPtr, oc, out0);
      oc := oc + 1;
    }
    LastGroup(l, p, outPtr, out0, output[..]);
  }

  lemma IsWide(l: Layer, out: nat)
    requires Ready(l, out)
    ensures l.iw == 32
  {}

  lemma FirstGroup(l: Layer, p: Pointers, out0: seq<int>)
    requires var base := l.channelOffset / 8 * (l.ics / 8) * 3 * 3 * 64;
      p == Pointers([0, 0, 0], [base, base + 3 * 64, base + 2 * 3 * 64])
    ensures AtGroup(l, p, 0, out0, out0, 0, 4, 0)
  {
    NothingFilled(Result(l), 256, 32, out0, Sections(l.ocs / 8, 0, 4, 0, 0));
    hide Filled;
  }

  lemma LastGroup(l: Layer, p: Pointers, outPtr: int, out0: seq<int>, out: seq<int>)
    requires AtGroup(l, p, outPtr, out0, out, 28, 32, l.ocs / 8)
    ensures Written(Result(l), 256, 32, out0, out, l.ocs / 8, 0)
  {
    hide Filled, Written, Result, AllAt;
    AllFilled(Result(l), 256, 32, out0, out, Sections(l.ocs / 8, 28, 32, l.ocs / 8, 28), l.ocs / 8);
  }

  /** Both kernels leave the same output, whatever lies behind the lines. */
  lemma KernelsAgree(l: Layer, out0: seq<int>, scalar: seq<int>, vector: seq<int>)
    requires l.iw == 32
    requires Written(Result(l), l.iw * 8, l.iw, out0, scalar, l.ocs / 8, 0)
    requires Written(Result(l), 256, 32, out0, vector, l.ocs / 8, 0)
    ensures scalar == vector
  {
    hide Written, Result;
    WrittenDetermines(Result(l), 256, 32, out0, scalar, vector, l.ocs / 8, 0);
  }
}
