/** The 1x1 convolution on unsigned activations: the scalar kernel, and the vector kernel that must agree with it. */
module Conv1x1 {
  import opened Indexing
  import opened Matrices
  import opened VectorUnit
  import opened Bits
  import opened Convolution

  /** The sum for one pixel and output channel; `groups` is the number of input channels over eight. */
  function PixelSum(act: seq<int>, wts: seq<int>, iw: nat, groups: nat, oc: nat, x: nat, oc8: nat): int {
    Groups(act, x * 8, iw * 8, wts, oc * groups * 64 + oc8, groups)
  }

  ghost function Result(act: seq<int>, wts: seq<int>, iw: nat, groups: nat, scale: nat): Output {
    (p: Spot) => ToUint8(PixelSum(act, wts, iw, groups, p.g, p.x, p.o), scale)
  }

  /** The buffers are large enough. */
  predicate Buffers(act: seq<int>, wts: seq<int>, out: nat, iw: nat, ics: nat, ocs: nat) {
    ics / 8 * (iw * 8) <= |act| && ocs / 8 * (ics / 8) * 64 <= |wts| && ocs / 8 * (iw * 8) <= out
  }

  /** The weights of output group `oc` lie in their buffer. */
  lemma WeightsInside(oc: nat, ocs8: nat, groups: nat)
    requires oc < ocs8
    ensures oc * groups * 64 + groups * 64 <= ocs8 * groups * 64
  {
    assert (oc + 1) * groups == oc * groups + groups;
    MulMono(oc + 1, ocs8, groups);
  }

  lemma PixelInside(oc: nat, ocs8: nat, stride: nat, r: nat, n: nat)
    requires oc < ocs8 && r + n <= stride
    ensures oc * stride + r + n <= ocs8 * stride
  {
    assert (oc + 1) * stride == oc * stride + stride;
    MulMono(oc + 1, ocs8, stride);
  }

  // ----- the scalar kernel

  method Conv2dk1Scalar(act: seq<int>, wts: seq<int>, output: array<int>, iw: nat, ics: nat, ocs: nat, scale: nat)
    requires Buffers(act, wts, output.Length, iw, ics, ocs) && scale >= 1
    modifies output
    ensures Written(Result(act, wts, iw, ics / 8, scale), iw * 8, iw, old(output[..]), output[..], ocs / 8, 0)
  {
    ghost var f, out0 := Result(act, wts, iw, ics / 8, scale), output[..];
    NothingWritten(f, iw * 8, iw, out0);
    hide Written, Buffers;
    var oc := 0;
    while oc < ocs / 8
      invariant 0 <= oc <= ocs / 8
      invariant Written(f, iw * 8, iw, out0, output[..], oc, 0)
    {
      var x := 0;
      while x < iw
        invariant 0 <= x <= iw
        invariant Written(f, iw * 8, iw, out0, output[..], oc, x * 8)
      {
        ScalarPixel(act, wts, output, iw, ics, ocs, scale, oc, x, out0);
        x := x + 1;
      }
      GroupDone(f, iw * 8, iw, out0, output[..], oc);
      oc := oc + 1;
    }
  }

  lemma GroupDone(f: Output, stride: nat, cols: nat, out0: seq<int>, out: seq<int>, oc: nat)
    requires Written(f, stride, cols, out0, out, oc, cols * 8)
    ensures Written(f, stride, cols, out0, out, oc + 1, 0)
  {
    if stride > 0 {
      NextGroup(f, stride, cols, out0, out, oc);
    }
  }

  method ScalarPixel(act: seq<int>, wts: seq<int>, output: array<int>, iw: nat, ics: nat, ocs: nat, scale: nat,
                     oc: nat, x: nat, ghost out0: seq<int>)
    requires Buffers(act, wts, output.Length, iw, ics, ocs) && scale >= 1 && oc < ocs / 8 && x < iw
    requires Written(Result(act, wts, iw, ics / 8, scale), iw * 8, iw, out0, output[..], oc, x * 8)
    modifies output
    ensures Written(Result(act, wts, iw, ics / 8, scale), iw * 8, iw, out0, output[..], oc, (x + 1) * 8)
  {
    hide Written, Buffers;
    PixelFits(act, wts, output.Length, iw, ics, ocs, oc, x);
    var oc8 := 0;
    while oc8 < 8
      invariant 0 <= oc8 <= 8
      invariant Written(Result(act, wts, iw, ics / 8, scale), iw * 8, iw, out0, output[..], oc, x * 8 + oc8)
    {
      var sumSrs := ScalarValue(act, wts, output.Length, iw, ics, ocs, scale, oc, x, oc8);
      PixelWritten(act, wts, iw, ics / 8, scale, out0, output[..], oc, x, oc8, sumSrs);
      StoreV(output, oc * (iw * 8) + x * 8 + oc8, [sumSrs]);
      oc8 := oc8 + 1;
    }
  }

  lemma PixelFits(act: seq<int>, wts: seq<int>, out: nat, iw: nat, ics: nat, ocs: nat, oc: nat, x: nat)
    requires Buffers(act, wts, out, iw, ics, ocs) && oc < ocs / 8 && x < iw
    ensures oc * (iw * 8) + x * 8 + 8 <= out && oc * (iw * 8) >= 0
    ensures oc * (ics / 8) * 64 + ics / 8 * 64 <= |wts| && oc * (ics / 8) * 64 >= 0
    ensures ics / 8 * (iw * 8) <= |act|
  {
    WeightsInside(oc, ocs / 8, ics / 8);
    PixelInside(oc, ocs / 8, iw * 8, x * 8, 8);
  }

  /** The two channel loops of one output value. */
  method ScalarValue(act: seq<int>, wts: seq<int>, ghost out: nat, iw: nat, ics: nat, ghost ocs: nat, scale: nat,
                     oc: nat, x: nat, oc8: nat) returns (v: int)
    requires Buffers(act, wts, out, iw, ics, ocs) && scale >= 1 && oc < ocs / 8 && x < iw && oc8 < 8
    ensures v == ToUint8(PixelSum(act, wts, iw, ics / 8, oc, x, oc8), scale)
  {
    hide Buffers, Groups, AddShift, ShiftRound;
    PixelFits(act, wts, out, iw, ics, ocs, oc, x);
    var sum := ScalarGroups(act, x * 8, iw * 8, wts, oc * (ics / 8) * 64 + oc8, ics / 8, 0);
    v := AddShift(sum, scale);
    ShiftsAgree(sum, scale);
    v := if v > 255 then 255 else if v < 0 then 0 else v;
  }

  lemma PixelWritten(act: seq<int>, wts: seq<int>, iw: nat, groups: nat, scale: nat,
                     out0: seq<int>, out: seq<int>, oc: nat, x: nat, oc8: nat, v: int)
    requires x < iw && oc8 < 8 && oc * (iw * 8) + x * 8 + oc8 < |out|
    requires v == ToUint8(PixelSum(act, wts, iw, groups, oc, x, oc8), scale)
    requires Written(Result(act, wts, iw, groups, scale), iw * 8, iw, out0, out, oc, x * 8 + oc8)
    ensures Written(Result(act, wts, iw, groups, scale), iw * 8, iw, out0,
      Splice(out, oc * (iw * 8) + x * 8 + oc8, [v]), oc, x * 8 + oc8 + 1)
  {
    hide Written, PixelSum, ToUint8, Splice;
    VectorWritten(Result(act, wts, iw, groups, scale), iw * 8, iw, out0, out, oc, x * 8 + oc8, [v]);
  }

  // ----- the vector kernel

  /** Column block `blk` of output group `oc`: 32 pixels. */
  lemma BlockResult(act: seq<int>, wts: seq<int>, iw: nat, groups: nat, scale: nat, oc: nat, blk: nat,
                    acc: seq<seq<int>>, x: nat, e: nat)
    requires Gained(act, blk * 256, iw * 8, wts, oc * groups * 64, groups, Zeros(), acc) && x < 8 && e < 32
    ensures VectorToUint8(acc[x], scale)[e]
      == Result(act, wts, iw, groups, scale)(Spot(oc, (blk * 256 + x * 32 + e) / 8, (blk * 256 + x * 32 + e) % 8))
  {
    hide ToUint8, Groups;
    assert acc[x][e] == Zeros()[x][e] + GroupSum(act, blk * 256, iw * 8, wts, oc * groups * 64, x, e, groups);
    assert (blk * 256 + x * 32 + e) / 8 == blk * 32 + x * 4 + e / 8;
  }

  /** Walks the pointers over column blocks and channels. The output is only contiguous: rows of whole blocks. */
  method Conv2dk1Vector(act: seq<int>, wts: seq<int>, output: array<int>, iw: nat, ics: nat, ocs: nat, scale: nat)
    requires Buffers(act, wts, output.Length, iw, ics, ocs)
    modifies output
    ensures Written(Result(act, wts, iw, ics / 8, scale), iw / 32 * 256, iw / 32 * 32,
      old(output[..]), output[..], ocs / 8, 0)
  {
    ghost var f, out0 := Result(act, wts, iw, ics / 8, scale), output[..];
    var iw32 := iw / 4 / 8;
    var input, kernels, outPtr := 0, 0, 0;
    var acc := Zeros();
    NothingWritten(f, iw32 * 256, iw32 * 32, out0);
    hide Written, Buffers;
    if iw32 > 0 {
      var oc := 0;
      while oc < ocs / 8
        invariant 0 <= oc <= ocs / 8 && acc == Zeros()
        invariant input == 0 && kernels == oc * (ics / 8) * 64 && outPtr == oc * (iw32 * 256)
        invariant Written(f, iw32 * 256, iw32 * 32, out0, output[..], oc, 0)
      {
        acc, input, kernels, outPtr :=
          VectorGroup(act, wts, output, iw, ics, ocs, scale, oc, acc, input, kernels, outPtr, out0);
        assert (oc + 1) * (ics / 8) == oc * (ics / 8) + ics / 8;
        assert (oc + 1) * (iw32 * 256) == oc * (iw32 * 256) + iw32 * 256;
        oc := oc + 1;
      }
    } else {
      WrittenNowhere(f, out0, ocs / 8);
    }
  }

  method VectorGroup(act: seq<int>, wts: seq<int>, output: array<int>, iw: nat, ics: nat, ocs: nat, scale: nat,
                     ghost oc: nat, acc: seq<seq<int>>, input: int, kernels: int, outPtr: int, ghost out0: seq<int>)
    returns (acc': seq<seq<int>>, input': int, kernels': int, outPtr': int)
    requires Buffers(act, wts, output.Length, iw, ics, ocs) && oc < ocs / 8 && iw / 32 > 0 && acc == Zeros()
    requires input == 0 && kernels == oc * (ics / 8) * 64 && outPtr == oc * (iw / 32 * 256)
    requires Written(Result(act, wts, iw, ics / 8, scale), iw / 32 * 256, iw / 32 * 32, out0, output[..], oc, 0)
    modifies output
    ensures Written(Result(act, wts, iw, ics / 8, scale), iw / 32 * 256, iw / 32 * 32, out0, output[..], oc + 1, 0)
    ensures acc' == Zeros() && input' == 0
    ensures kernels' == kernels + ics / 8 * 64 && outPtr' == outPtr + iw / 32 * 256
  {
    hide Written, Buffers, Zeros, Result;
    ghost var f := Result(act, wts, iw, ics / 8, scale);
    acc', input', kernels', outPtr' := acc, input, kernels, outPtr;
    var iw32 := iw / 4 / 8;
    var blk := 0;
    while blk < iw32
      invariant 0 <= blk <= iw32 && acc' == Zeros()
      invariant input' == blk * 256 && kernels' == kernels && outPtr' == outPtr + blk * 256
      invariant Written(f, iw32 * 256, iw32 * 32, out0, output[..], oc, blk * 256)
    {
      acc', input', kernels', outPtr' :=
        VectorBlock(act, wts, output, iw, ics, ocs, scale, oc, blk, acc', input', kernels', outPtr', out0);
      input' := input' - (ics / 8 * (iw * 8) - 256);
      kernels' := kernels' - ics / 8 * 64;
      blk := blk + 1;
    }
    input' := input' - iw32 * 256;
    kernels' := kernels' + ics / 8 * 64;
    NextGroup(f, iw32 * 256, iw32 * 32, out0, output[..], oc);
  }

  lemma WrittenNowhere(f: Output, out0: seq<int>, oc: nat)
    ensures Written(f, 0, 0, out0, out0, oc, 0)
  {}

  method VectorBlock(act: seq<int>, wts: seq<int>, output: array<int>, iw: nat, ics: nat, ocs: nat, scale: nat,
                     ghost oc: nat, ghost blk: nat, acc: seq<seq<int>>, input: int, kernels: int, outPtr: int,
                     ghost out0: seq<int>)
    returns (acc': seq<seq<int>>, input': int, kernels': int, outPtr': int)
    requires Buffers(act, wts, output.Length, iw, ics, ocs)
    requires oc < ocs / 8 && blk < iw / 32 && acc == Zeros()
    requires input == blk * 256 && kernels == oc * (ics / 8) * 64 && outPtr == oc * (iw / 32 * 256) + blk * 256
    requires Written(Result(act, wts, iw, ics / 8, scale), iw / 32 * 256, iw / 32 * 32, out0, output[..], oc, blk * 256)
    modifies output
    ensures Written(Result(act, wts, iw, ics / 8, scale), iw / 32 * 256, iw / 32 * 32,
      out0, output[..], oc, (blk + 1) * 256)
    ensures acc' == Zeros() && outPtr' == outPtr + 256
    ensures input' == input + ics / 8 * (iw * 8) && kernels' == kernels + ics / 8 * 64
  {
    hide Written, Buffers, Result;
    ghost var f := Result(act, wts, iw, ics / 8, scale);
    BlockFits(act, wts, output.Length, iw, ics, ocs, oc, blk);
    acc', input', kernels' := AccumulateGroups(act, input, iw, wts, kernels, ics / 8, acc);
    var vs := ConvertBlock(act, wts, iw, ics / 8, scale, oc, blk, acc');
    outPtr' := StoreEight(output, outPtr, vs, f, iw / 32 * 256, iw / 32 * 32, out0, oc, blk * 256);
    acc' := Zeros();
  }

  method ConvertBlock(ghost act: seq<int>, ghost wts: seq<int>, ghost iw: nat, ghost groups: nat, scale: nat,
                      ghost oc: nat, ghost blk: nat, acc: seq<seq<int>>)
    returns (vs: seq<seq<int>>)
    requires Gained(act, blk * 256, iw * 8, wts, oc * groups * 64, groups, Zeros(), acc)
    ensures HoldsBlock(Result(act, wts, iw, groups, scale), oc, blk * 256, vs)
  {
    vs := seq(8, x requires 0 <= x < 8 => VectorToUint8(acc[x], scale));
    ghost var f := Result(act, wts, iw, groups, scale);
    forall x: nat, e: nat | x < 8 && e < 32
      ensures vs[x][e] == f(Spot(oc, (blk * 256 + x * 32 + e) / 8, (blk * 256 + x * 32 + e) % 8))
    {
      BlockResult(act, wts, iw, groups, scale, oc, blk, acc, x, e);
    }
  }

  /** Everything a block loads and stores lies in the buffers. */
  lemma BlockFits(act: seq<int>, wts: seq<int>, out: nat, iw: nat, ics: nat, ocs: nat, oc: nat, blk: nat)
    requires Buffers(act, wts, out, iw, ics, ocs) && oc < ocs / 8 && blk < iw / 32
    ensures ics / 8 * (iw * 8) <= |act| && blk * 256 + 256 <= iw * 8
    ensures oc * (ics / 8) * 64 + ics / 8 * 64 <= |wts| && oc * (ics / 8) * 64 >= 0
    ensures oc * (iw / 32 * 256) + blk * 256 + 256 <= out
  {
    WeightsInside(oc, ocs / 8, ics / 8);
    PixelInside(oc, ocs / 8, iw / 32 * 256, blk * 256, 256);
    StrideFits(ocs / 8, iw);
  }

  lemma StrideFits(n: nat, iw: nat)
    ensures n * (iw / 32 * 256) <= n * (iw * 8)
  {
    MulMono(iw / 32 * 256, iw * 8, n);
  }

  // ----- agreement

  /** On rows of whole 32-pixel blocks both kernels leave the same output. */
  lemma KernelsAgree(act: seq<int>, wts: seq<int>, iw: nat, ics: nat, ocs: nat, scale: nat,
                     out0: seq<int>, scalar: seq<int>, vector: seq<int>)
    requires iw % 32 == 0
    requires Written(Result(act, wts, iw, ics / 8, scale), iw * 8, iw, out0, scalar, ocs / 8, 0)
    requires Written(Result(act, wts, iw, ics / 8, scale), iw / 32 * 256, iw / 32 * 32, out0, vector, ocs / 8, 0)
    ensures scalar == vector
  {
    hide Written;
    WrittenDetermines(Result(act, wts, iw, ics / 8, scale), iw * 8, iw, out0, scalar, vector, ocs / 8, 0);
  }

  /** The assertion on the width also lets rows through that are up to three pixels longer. */
  lemma WidthAssertionIff(iw: nat)
    ensures iw / 4 % 8 == 0 <==> iw % 32 < 4
  {
    assert iw == iw / 32 * 32 + iw % 32;
    assert iw / 4 == iw / 32 * 8 + iw % 32 / 4;
  }

  /** From every old output large enough, both kernels leave the same. */
  ghost predicate SameOutputs(f: Output, iw: nat, n: nat) {
    forall out0, scalar, vector ::
      && n * (iw * 8) <= |out0|
      && Written(f, iw * 8, iw, out0, scalar, n, 0)
      && Written(f, iw / 32 * 256, iw / 32 * 32, out0, vector, n, 0)
      ==> scalar == vector
  }

  /** On other rows the scalar kernel writes the last value of the output, and the vector kernel leaves it. */
  lemma LastValue(f: Output, iw: nat, n: nat, out0: seq<int>)
    requires iw % 32 != 0 && n > 0 && |out0| == n * (iw * 8) && out0 != []
    ensures OutputAt(f, iw * 8, iw, out0, n, 0, |out0| - 1) == f(Spot(n - 1, iw - 1, 7))
    ensures OutputAt(f, iw / 32 * 256, iw / 32 * 32, out0, n, 0, |out0| - 1) == out0[|out0| - 1]
  {
    var last := |out0| - 1;
    assert last == (n - 1) * (iw * 8) + (iw - 1) * 8 + 7;
    PlaceOf(iw * 8, n - 1, iw - 1, 7);
    var stride := iw / 32 * 256;
    if stride > 0 {
      hide Place;
      BeyondGroups(stride, last, n, iw);
    }
  }

  lemma BeyondGroups(stride: nat, e: nat, n: nat, iw: nat)
    requires 0 < stride <= (iw - 1) * 8 && e == n * (iw * 8) - 1 && n > 0
    ensures Place(stride, e).g >= n
  {
    var g := e / stride;
    MulMono(stride, (iw - 1) * 8, n);
    assert n * (iw * 8) == n * ((iw - 1) * 8) + n * 8;
    assert (g + 1) * stride == g * stride + stride > e;
    if g < n {
      MulMono(g + 1, n, stride);
    }
  }

  /** Both kernels leave the same output, whatever was there, exactly when rows are whole blocks or nothing is
      written. */
  lemma SameOutputsIff(f: Output, iw: nat, n: nat)
    ensures SameOutputs(f, iw, n) <==> iw % 32 == 0 || n == 0
  {
    hide OutputAt;
    if n == 0 || iw % 32 == 0 {
      forall out0, scalar, vector |
        && n * (iw * 8) <= |out0|
        && Written(f, iw * 8, iw, out0, scalar, n, 0)
        && Written(f, iw / 32 * 256, iw / 32 * 32, out0, vector, n, 0)
        ensures scalar == vector
      {
        if n == 0 {
          NoneWritten(f, iw * 8, iw, out0, scalar);
          NoneWritten(f, iw / 32 * 256, iw / 32 * 32, out0, vector);
        }
      }
    } else {
      var last := f(Spot(n - 1, iw - 1, 7));
      MulMono(1, n, iw * 8);
      var out0 := seq(n * (iw * 8), _ => if last == 0 then 1 else 0);
      var scalar := seq(|out0|, e requires 0 <= e < |out0| => OutputAt(f, iw * 8, iw, out0, n, 0, e));
      var vector := seq(|out0|, e requires 0 <= e < |out0| =>
        OutputAt(f, iw / 32 * 256, iw / 32 * 32, out0, n, 0, e));
      LastValue(f, iw, n, out0);
      assert scalar[|out0| - 1] != vector[|out0| - 1];
      assert Written(f, iw * 8, iw, out0, scalar, n, 0);
      assert Written(f, iw / 32 * 256, iw / 32 * 32, out0, vector, n, 0);
    }
  }

  lemma NoneWritten(f: Output, stride: nat, cols: nat, out0: seq<int>, out: seq<int>)
    requires Written(f, stride, cols, out0, out, 0, 0)
    ensures out == out0
  {
    NothingWritten(f, stride, cols, out0);
    hide Written;
    WrittenDetermines(f, stride, cols, out0, out, out0, 0, 0);
  }

  /** Rows of 33 pixels pass the assertion, and the kernels leave different outputs. */
  lemma AssertedWidthDiffers(f: Output, n: nat)
    requires n > 0
    ensures 33 / 4 % 8 == 0 && !SameOutputs(f, 33, n)
  {
    SameOutputsIff(f, 33, n);
  }

  /** With at most 65792 input channels every partial sum fits a 32-bit accumulator. */
  lemma AccumulatorFits(act: seq<int>, wts: seq<int>, iw: nat, groups: nat, oc: nat, x: nat, oc8: nat, n: nat)
    requires IsUint8(act) && IsInt8(wts) && n <= groups && groups * 8 <= 65792
    ensures -0x8000_0000 <= Groups(act, x * 8, iw * 8, wts, oc * groups * 64 + oc8, n) < 0x8000_0000
  {
    GroupsBound(act, x * 8, iw * 8, wts, oc * groups * 64 + oc8, n);
    assert groups <= 8224;
  }
}
