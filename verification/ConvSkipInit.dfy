/** The 1x1 convolution with a convolved skip connection: two input halves and the skip, and three scales. */
module ConvSkipInit {
  import opened Indexing
  import opened Matrices
  import opened VectorUnit
  import opened Bits
  import opened Convolution
  import opened Conv1x1

  /** The halves of the input, the skip input, all the weights (those of the skip come last), sizes and scales. */
  datatype Layer = Layer(input0: seq<int>, input1: seq<int>, skip: seq<int>, wts: seq<int>,
                         iw: nat, ics: nat, ocs: nat, icsSkip: nat, scale: nat, skipScale: nat, skipConvScale: nat) {
    function Half(): nat { ics / 16 }
    function Offset(): nat { ocs * ics }

    /** Both halves together are all groups of input channels. */
    predicate Halves() { ics / 8 == 2 * (ics / 16) }

    /** The groups of weights a vector block goes through, and how far the pointer misses its start then. */
    function Walked(): nat { 2 * (ics / 16) }
    function Drift(): int { Walked() - ics / 8 }

    predicate Fits(out: nat) {
      && Half() * (iw * 8) <= |input0| && Half() * (iw * 8) <= |input1|
      && icsSkip / 8 * (iw * 8) <= |skip|
      && ocs / 8 * (ics / 8) * 64 <= |wts| && Offset() + ocs / 8 * (icsSkip / 8) * 64 <= |wts|
      && ocs / 8 * (iw * 8) <= out
    }
  }

  /** The sum over both input halves, when `apart` groups of weights lie between one output group and the next. */
  function ConvSum(l: Layer, apart: nat, g: nat, x: nat, o: nat): int {
    Groups(l.input0, x * 8, l.iw * 8, l.wts, g * apart * 64 + o, l.Half())
    + Groups(l.input1, x * 8, l.iw * 8, l.wts, (g * apart + l.Half()) * 64 + o, l.Half())
  }

  /** The sum over the skip input. */
  function SkipSum(l: Layer, g: nat, x: nat, o: nat): int {
    Groups(l.skip, x * 8, l.iw * 8, l.wts, l.Offset() + g * (l.icsSkip / 8) * 64 + o, l.icsSkip / 8)
  }

  /** Both sums are rounded and saturated to int8, added, and rounded and saturated to uint8. */
  function Final(l: Layer, conv: int, skip: int): int {
    ToUint8(ToInt8(conv, l.scale) + ToInt8(skip, l.skipConvScale), l.skipScale)
  }

  ghost function Result(l: Layer, apart: nat): Output {
    (p: Spot) => Final(l, ConvSum(l, apart, p.g, p.x, p.o), SkipSum(l, p.g, p.x, p.o))
  }

  // ----- the scalar kernel

  ghost function Before(g: nat, o: nat, x: nat): Spots {
    (p: Spot) => p.g < g || (p.g == g && (p.o < o || (p.o == o && p.x < x)))
  }

  method SkipInitScalar(l: Layer, output: array<int>)
    requires l.Fits(output.Length) && l.scale >= 1 && l.skipScale >= 1 && l.skipConvScale >= 1
    modifies output
    ensures Written(Result(l, l.ics / 8), l.iw * 8, l.iw, old(output[..]), output[..], l.ocs / 8, 0)
  {
    ghost var out0 := output[..];
    var oc := 0;
    NothingFilled(Result(l, l.ics / 8), l.iw * 8, l.iw, out0, Before(0, 0, 0));
    hide Filled, Result;
    while oc < l.ocs / 8
      invariant 0 <= oc <= l.ocs / 8
      invariant Filled(Result(l, l.ics / 8), l.iw * 8, l.iw, out0, output[..], Before(oc, 0, 0))
    {
      var oc8 := 0;
      while oc8 < 8
        invariant 0 <= oc8 <= 8
        invariant Filled(Result(l, l.ics / 8), l.iw * 8, l.iw, out0, output[..], Before(oc, oc8, 0))
      {
        var x := 0;
        while x < l.iw
          invariant 0 <= x <= l.iw
          invariant Filled(Result(l, l.ics / 8), l.iw * 8, l.iw, out0, output[..], Before(oc, oc8, x))
        {
          var v := ScalarPixel(l, oc, x, oc8);
          StoreScalar(l, output, oc, x, oc8, v, out0);
          x := x + 1;
        }
        FilledSame(Result(l, l.ics / 8), l.iw * 8, l.iw, out0, output[..], Before(oc, oc8, x), Before(oc, oc8 + 1, 0));
        oc8 := oc8 + 1;
      }
      FilledSame(Result(l, l.ics / 8), l.iw * 8, l.iw, out0, output[..], Before(oc, 8, 0), Before(oc + 1, 0, 0));
      oc := oc + 1;
    }
    AllFilled(Result(l, l.ics / 8), l.iw * 8, l.iw, out0, output[..], Before(oc, 0, 0), l.ocs / 8);
  }

  /** The three channel loops of one output value. */
  method ScalarPixel(l: Layer, oc: nat, x: nat, oc8: nat) returns (v: int)
    requires l.Fits(l.ocs / 8 * (l.iw * 8)) && l.scale >= 1 && l.skipScale >= 1 && l.skipConvScale >= 1
    requires oc < l.ocs / 8 && x < l.iw && oc8 < 8
    ensures v == Result(l, l.ics / 8)(Spot(oc, x, oc8))
  {
    hide Groups, AddShift, ShiftRound, l.Fits;
    ScalarFits(l, oc, oc8);
    var k := oc * (l.ics / 8) * 64;
    var sum := ScalarGroups(l.input0, x * 8, l.iw * 8, l.wts, k + oc8, l.Half(), 0);
    sum := ScalarGroups(l.input1, x * 8, l.iw * 8, l.wts, k + l.Half() * 64 + oc8, l.Half(), sum);
    assert k + l.Half() * 64 == (oc * (l.ics / 8) + l.Half()) * 64;
    var sumSrs := AddShift(sum, l.scale);
    sumSrs := if sumSrs > 127 then 127 else if sumSrs < -128 then -128 else sumSrs;
    var kSkip := oc * (l.icsSkip / 8) * 64 + oc8 + l.Offset();
    var skip := ScalarGroups(l.skip, x * 8, l.iw * 8, l.wts, kSkip, l.icsSkip / 8, 0);
    var skipSrs := AddShift(skip, l.skipConvScale);
    skipSrs := if skipSrs > 127 then 127 else if skipSrs < -128 then -128 else skipSrs;
    var last := AddShift(sumSrs + skipSrs, l.skipScale);
    v := if last > 255 then 255 else if last < 0 then 0 else last;
    FinalScalar(l, sum, skip);
  }

  /** What the scalar loops read lies in the buffers. */
  lemma ScalarFits(l: Layer, oc: nat, oc8: nat)
    requires l.Fits(l.ocs / 8 * (l.iw * 8)) && oc < l.ocs / 8 && oc8 < 8
    ensures l.Half() * (l.iw * 8) <= |l.input0| && l.Half() * (l.iw * 8) <= |l.input1|
    ensures l.icsSkip / 8 * (l.iw * 8) <= |l.skip|
    ensures oc * (l.ics / 8) * 64 >= 0 && oc * (l.ics / 8) * 64 + l.Half() * 128 <= |l.wts|
    ensures oc * (l.icsSkip / 8) * 64 >= 0
    ensures oc * (l.icsSkip / 8) * 64 + l.Offset() + l.icsSkip / 8 * 64 <= |l.wts|
  {
    GroupInside(oc, l.ocs / 8, l.ics / 8);
    GroupInside(oc, l.ocs / 8, l.icsSkip / 8);
    HalvesInside(l.ics);
  }

  lemma GroupInside(oc: nat, ocs8: nat, groups: nat)
    requires oc < ocs8
    ensures 0 <= oc * groups * 64 && oc * groups * 64 + groups * 64 <= ocs8 * groups * 64
  {
    WeightsInside(oc, ocs8, groups);
    MulMono(0, oc, groups);
  }

  lemma HalvesInside(ics: nat)
    ensures ics / 16 * 128 <= ics / 8 * 64
  {
    var q, r := ics / 16, ics % 16;
    DivModUnique(ics, 8, 2 * q + r / 8, r % 8);
  }

  lemma FinalScalar(l: Layer, conv: int, skip: int)
    requires l.scale >= 1 && l.skipScale >= 1 && l.skipConvScale >= 1
    ensures Final(l, conv, skip) == Clamp(AddShift(Clamp(AddShift(conv, l.scale), -128, 127)
      + Clamp(AddShift(skip, l.skipConvScale), -128, 127), l.skipScale), 0, 255)
  {
    ShiftsAgree(conv, l.scale);
    ShiftsAgree(skip, l.skipConvScale);
    ShiftsAgree(ToInt8(conv, l.scale) + ToInt8(skip, l.skipConvScale), l.skipScale);
    hide AddShift, ShiftRound;
  }

  method StoreScalar(l: Layer, output: array<int>, oc: nat, x: nat, oc8: nat, v: int, ghost out0: seq<int>)
    requires l.Fits(output.Length) && oc < l.ocs / 8 && x < l.iw && oc8 < 8
    requires v == Result(l, l.ics / 8)(Spot(oc, x, oc8))
    requires Filled(Result(l, l.ics / 8), l.iw * 8, l.iw, out0, output[..], Before(oc, oc8, x))
    modifies output
    ensures Filled(Result(l, l.ics / 8), l.iw * 8, l.iw, out0, output[..], Before(oc, oc8, x + 1))
  {
    hide Filled, Result;
    PixelInside(oc, l.ocs / 8, l.iw * 8, x * 8, 8);
    PlaceFilled(Result(l, l.ics / 8), l.iw * 8, l.iw, out0, output[..],
      Before(oc, oc8, x), Before(oc, oc8, x + 1), oc, x, oc8, v);
    StoreV(output, oc * (l.iw * 8) + x * 8 + oc8, [v]);
  }

  // ----- the vector kernel

  /** The result of one column block: two accumulations on the same sums, one on others. */
  lemma BlockResult(l: Layer, g: nat, blk: nat, acc1: seq<seq<int>>, acc: seq<seq<int>>, acci: seq<seq<int>>, x: nat,
                    e: nat)
    requires x < 8 && e < 32
    requires Gained(l.input0, blk * 256, l.iw * 8, l.wts, g * l.Walked() * 64, l.Half(), Zeros(), acc1)
    requires Gained(l.input1, blk * 256, l.iw * 8, l.wts, (g * l.Walked() + l.Half()) * 64, l.Half(), acc1, acc)
    requires Gained(l.skip, blk * 256, l.iw * 8, l.wts, l.Offset() + g * (l.icsSkip / 8) * 64, l.icsSkip / 8,
      Zeros(), acci)
    ensures Final(l, acc[x][e], acci[x][e])
      == Result(l, l.Walked())(Spot(g, (blk * 256 + x * 32 + e) / 8, (blk * 256 + x * 32 + e) % 8))
  {
    hide Groups, Final;
    assert acc1[x][e] == Zeros()[x][e]
      + GroupSum(l.input0, blk * 256, l.iw * 8, l.wts, g * l.Walked() * 64, x, e, l.Half());
    assert acci[x][e] == Zeros()[x][e]
      + GroupSum(l.skip, blk * 256, l.iw * 8, l.wts, l.Offset() + g * (l.icsSkip / 8) * 64, x, e, l.icsSkip / 8);
    assert (blk * 256 + x * 32 + e) / 8 == blk * 32 + x * 4 + e / 8;
  }

  /** Converts the sums to int8, adds them, and converts to uint8. */
  method ConvertBlock(l: Layer, acc: seq<seq<int>>, acci: seq<seq<int>>) returns (vs: seq<seq<int>>)
    requires IsEight(acc) && IsEight(acci)
    ensures IsEight(vs)
    ensures forall x: nat, e: nat :: x < 8 && e < 32 ==> vs[x][e] == Final(l, acc[x][e], acci[x][e])
  {
    hide ToInt8, ToUint8;
    var vecConv := seq(8, x requires 0 <= x < 8 => VectorToInt8(acc[x], l.scale));
    var vecSkip := seq(8, x requires 0 <= x < 8 => VectorToInt8(acci[x], l.skipConvScale));
    vs := seq(8, x requires 0 <= x < 8 => VectorToUint8(AddVectors(vecConv[x], vecSkip[x]), l.skipScale));
  }

  function AddVectors(v: seq<int>, w: seq<int>): (s: seq<int>)
    requires |v| == |w|
    ensures |s| == |v|
  {
    seq(|v|, e requires 0 <= e < |v| => v[e] + w[e])
  }

  /** Where the walking offsets and pointers stand. */
  datatype Pointers = Pointers(offset1: int, offset2: int, offset3: int, kernels: int, kernelsSkip: int, out: int)

  ghost function Stride(l: Layer): nat { l.iw / 4 * 32 }

  ghost predicate AtBlock(l: Layer, g: nat, blk: nat, p: Pointers) {
    && p.offset1 == blk * 256 && p.offset2 == blk * 256 && p.offset3 == blk * 256
    && p.kernels == g * l.Walked() * 64 + blk * l.Drift() * 64 && p.kernelsSkip == l.Offset() + g * (l.icsSkip / 8) * 64
    && p.out == g * Stride(l) + blk * 256
  }

  /** Only whole blocks of 32 pixels are written; groups lie as far apart as rows of whole vectors of four pixels. */
  method SkipInitVector(l: Layer, output: array<int>)
    requires l.Fits(output.Length) && (l.Halves() || l.iw / 32 <= 1)
    modifies output
    ensures Written(Result(l, l.Walked()), Stride(l), l.iw / 32 * 32, old(output[..]), output[..], l.ocs / 8, 0)
  {
    hide Written, Result, AtBlock, Stride;
    ghost var out0 := output[..];
    var iw32 := Blocks(l.iw);
    var p := Pointers(0, 0, 0, 0, l.Offset(), 0);
    AtStart(l);
    NothingWritten(Result(l, l.Walked()), Stride(l), iw32 * 32, out0);
    if iw32 > 0 {
      var oc := 0;
      while oc < l.ocs / 8
        invariant 0 <= oc <= l.ocs / 8 && AtBlock(l, oc, 0, p)
        invariant Written(Result(l, l.Walked()), Stride(l), iw32 * 32, out0, output[..], oc, 0)
      {
        p := VectorGroup(l, output, oc, p, out0);
        oc := oc + 1;
      }
    } else {
      WrittenNone(Result(l, l.Walked()), Stride(l), out0, l.ocs / 8);
    }
  }

  function Blocks(iw: nat): (n: nat)
    ensures n == iw / 32
  {
    iw / 4 / 8
  }

  lemma AtStart(l: Layer)
    ensures AtBlock(l, 0, 0, Pointers(0, 0, 0, 0, l.Offset(), 0))
  {}

  lemma WrittenNone(f: Output, stride: nat, out0: seq<int>, oc: nat)
    ensures Written(f, stride, 0, out0, out0, oc, 0)
  {
    hide Place;
  }

  method VectorGroup(l: Layer, output: array<int>, ghost g: nat, start: Pointers, ghost out0: seq<int>)
    returns (p: Pointers)
    requires l.Fits(output.Length) && (l.Halves() || l.iw / 32 == 1)
    requires g < l.ocs / 8 && l.iw / 32 > 0 && AtBlock(l, g, 0, start)
    requires Written(Result(l, l.Walked()), Stride(l), l.iw / 32 * 32, out0, output[..], g, 0)
    modifies output
    ensures AtBlock(l, g + 1, 0, p)
    ensures Written(Result(l, l.Walked()), Stride(l), l.iw / 32 * 32, out0, output[..], g + 1, 0)
  {
    hide Written, Result, AtBlock, Stride;
    var iw32, iw32Rem := Blocks(l.iw), l.iw / 4 % 8;
    p := start;
    var blk := 0;
    while blk < iw32
      invariant 0 <= blk <= iw32 && AtBlock(l, g, blk, p)
      invariant Written(Result(l, l.Walked()), Stride(l), iw32 * 32, out0, output[..], g, blk * 256)
    {
      p := VectorBlock(l, output, g, blk, p, out0);
      blk := blk + 1;
    }
    GroupAdvances(l, g, p);
    p := Pointers(0, 0, 0, p.kernels + l.ics / 8 * 64, p.kernelsSkip + l.icsSkip / 8 * 64, p.out + iw32Rem * 32);
    NextGroup(Result(l, l.Walked()), Stride(l), iw32 * 32, out0, output[..], g);
  }

  lemma GroupAdvances(l: Layer, g: nat, p: Pointers)
    requires AtBlock(l, g, l.iw / 32, p) && (l.Halves() || l.iw / 32 == 1)
    ensures AtBlock(l, g + 1, 0,
      Pointers(0, 0, 0, p.kernels + l.ics / 8 * 64, p.kernelsSkip + l.icsSkip / 8 * 64, p.out + l.iw / 4 % 8 * 32))
    ensures l.iw / 32 > 0 ==> Stride(l) > 0
  {
    assert (g + 1) * l.Walked() == g * l.Walked() + l.Walked();
    assert l.Halves() ==> l.Drift() == 0 && l.iw / 32 * l.Drift() == 0;
    assert (g + 1) * (l.icsSkip / 8) == g * (l.icsSkip / 8) + l.icsSkip / 8;
    assert Stride(l) == l.iw / 32 * 256 + l.iw / 4 % 8 * 32 by {
      assert l.iw / 4 == l.iw / 32 * 8 + l.iw / 4 % 8;
    }
    hide Stride;
    assert (g + 1) * Stride(l) == g * Stride(l) + Stride(l);
  }

  method VectorBlock(l: Layer, output: array<int>, ghost g: nat, ghost blk: nat, start: Pointers, ghost out0: seq<int>)
    returns (p: Pointers)
    requires l.Fits(output.Length) && (l.Halves() || blk == 0)
    requires g < l.ocs / 8 && blk < l.iw / 32 && AtBlock(l, g, blk, start)
    requires Written(Result(l, l.Walked()), Stride(l), l.iw / 32 * 32, out0, output[..], g, blk * 256)
    modifies output
    ensures AtBlock(l, g, blk + 1, p)
    ensures Written(Result(l, l.Walked()), Stride(l), l.iw / 32 * 32, out0, output[..], g, (blk + 1) * 256)
  {
    hide Written, Result, Gained, Final;
    BlockFits(l, output.Length, g, blk);
    var acc1, off1, k1 := AccumulateGroups(l.input0, start.offset1, l.iw, l.wts, start.kernels, l.ics / 16, Zeros());
    var acc, off2, k2 := AccumulateGroups(l.input1, start.offset2, l.iw, l.wts, k1, l.ics / 16, acc1);
    var acci, off3, k3 :=
      AccumulateGroups(l.skip, start.offset3, l.iw, l.wts, start.kernelsSkip, l.icsSkip / 8, Zeros());
    var vs := ConvertBlock(l, acc, acci);
    BlockHolds(l, g, blk, acc1, acc, acci, vs);
    var out := StoreEight(output, start.out, vs, Result(l, l.Walked()), Stride(l), l.iw / 32 * 32, out0, g, blk * 256);
    p := Pointers(off1 - (l.ics / 16 * (l.iw * 8) - 256), off2 - (l.ics / 16 * (l.iw * 8) - 256),
                  off3 - (l.icsSkip / 8 * (l.iw * 8) - 256), k2 - l.ics / 8 * 64, k3 - l.icsSkip / 8 * 64, out);
  }

  lemma BlockHolds(l: Layer, g: nat, blk: nat, acc1: seq<seq<int>>, acc: seq<seq<int>>, acci: seq<seq<int>>,
                   vs: seq<seq<int>>)
    requires Gained(l.input0, blk * 256, l.iw * 8, l.wts, g * l.Walked() * 64, l.Half(), Zeros(), acc1)
    requires Gained(l.input1, blk * 256, l.iw * 8, l.wts, (g * l.Walked() + l.Half()) * 64, l.Half(), acc1, acc)
    requires Gained(l.skip, blk * 256, l.iw * 8, l.wts, l.Offset() + g * (l.icsSkip / 8) * 64, l.icsSkip / 8,
      Zeros(), acci)
    requires IsEight(vs) && forall x: nat, e: nat :: x < 8 && e < 32 ==> vs[x][e] == Final(l, acc[x][e], acci[x][e])
    ensures HoldsBlock(Result(l, l.Walked()), g, blk * 256, vs)
  {
    var f := Result(l, l.Walked());
    hide Final, Result;
    forall x: nat, e: nat | x < 8 && e < 32
      ensures vs[x][e] == f(Spot(g, (blk * 256 + x * 32 + e) / 8, (blk * 256 + x * 32 + e) % 8))
    {
      BlockResult(l, g, blk, acc1, acc, acci, x, e);
    }
  }

  lemma BlockFits(l: Layer, out: nat, g: nat, blk: nat)
    requires l.Fits(out) && g < l.ocs / 8 && blk < l.iw / 32
    ensures l.Half() * (l.iw * 8) <= |l.input0| && l.Half() * (l.iw * 8) <= |l.input1|
    ensures l.icsSkip / 8 * (l.iw * 8) <= |l.skip| && blk * 256 + 256 <= l.iw * 8
    ensures g * l.Walked() * 64 + l.Walked() * 64 <= |l.wts| && g * l.Walked() * 64 >= 0
    ensures l.Offset() + g * (l.icsSkip / 8) * 64 + l.icsSkip / 8 * 64 <= |l.wts|
    ensures g * (l.icsSkip / 8) * 64 >= 0
    ensures g * Stride(l) + blk * 256 + 256 <= out && l.iw / 32 * 256 <= Stride(l) && Stride(l) > 0
  {
    WalkedInside(g, l.ocs / 8, l.ics);
    GroupInside(g, l.ocs / 8, l.icsSkip / 8);
    StrideFits(l, g, blk);
  }

  lemma WalkedInside(g: nat, ocs8: nat, ics: nat)
    requires g < ocs8
    ensures 0 <= g * (2 * (ics / 16)) * 64
    ensures g * (2 * (ics / 16)) * 64 + 2 * (ics / 16) * 64 <= ocs8 * (ics / 8) * 64
  {
    GroupInside(g, ocs8, 2 * (ics / 16));
    HalvesInside(ics);
    MulMono(2 * (ics / 16), ics / 8, ocs8);
  }

  lemma StrideFits(l: Layer, g: nat, blk: nat)
    requires g < l.ocs / 8 && blk < l.iw / 32
    ensures g * Stride(l) + blk * 256 + 256 <= l.ocs / 8 * (l.iw * 8)
    ensures l.iw / 32 * 256 <= Stride(l) && Stride(l) > 0 && blk * 256 + 256 <= l.iw * 8
  {
    assert l.iw / 32 * 256 <= Stride(l) <= l.iw * 8;
    hide Stride;
    PixelInside(g, l.ocs / 8, Stride(l), blk * 256, 256);
    MulMono(Stride(l), l.iw * 8, l.ocs / 8);
  }

  // ----- agreement

  predicate Sized(l: Layer, iw: nat, ics: nat, ocs: nat) {
    && l.iw == iw && l.ics == ics && l.ocs == ocs && l.Fits(ocs / 8 * (iw * 8))
    && l.scale >= 1 && l.skipScale >= 1 && l.skipConvScale >= 1
  }

  ghost predicate SameAt(l: Layer, p: Spot) { Result(l, l.Walked())(p) == Result(l, l.ics / 8)(p) }

  /** Both kernels compute the same values, whatever the inputs, the weights and the scales are. */
  ghost predicate SameResults(iw: nat, ics: nat, ocs: nat) {
    forall l: Layer, p: Spot :: Sized(l, iw, ics, ocs) && p.g < ocs / 8 && p.x < iw && p.o < 8 ==> SameAt(l, p)
  }

  /** They do exactly for nothing to write, a single output group, no weights at all, or halves that are all groups. */
  lemma SameResultsIff(iw: nat, ics: nat, ocs: nat)
    ensures SameResults(iw, ics, ocs) <==> iw == 0 || ocs / 8 <= 1 || ics < 16 || ics % 16 < 8
  {
    hide SameAt;
    if iw == 0 || ocs / 8 <= 1 || ics < 16 || ics % 16 < 8 {
      forall l: Layer, p: Spot | Sized(l, iw, ics, ocs) && p.g < ocs / 8 && p.x < iw && p.o < 8 ensures SameAt(l, p) {
        Agrees(l, p);
      }
    } else {
      OddGroupsDiffer(iw, ics, ocs);
    }
  }

  lemma Agrees(l: Layer, p: Spot)
    requires p.g < l.ocs / 8 && (l.ocs / 8 <= 1 || l.ics < 16 || l.ics % 16 < 8)
    ensures SameAt(l, p)
  {
    hide Groups, Final;
    assert ConvSum(l, l.Walked(), p.g, p.x, p.o) == ConvSum(l, l.ics / 8, p.g, p.x, p.o) by {
      if l.ics < 16 {
        NoGroups(l, l.Walked(), p);
        NoGroups(l, l.ics / 8, p);
      }
    }
  }

  lemma NoGroups(l: Layer, apart: nat, p: Spot)
    requires l.Half() == 0
    ensures ConvSum(l, apart, p.g, p.x, p.o) == 0
  {}

  /** On rows of whole blocks both kernels then leave the same output. */
  lemma KernelsAgree(l: Layer, out0: seq<int>, scalar: seq<int>, vector: seq<int>)
    requires l.iw % 32 == 0 && (l.ocs / 8 <= 1 || l.ics < 16 || l.ics % 16 < 8)
    requires Written(Result(l, l.ics / 8), l.iw * 8, l.iw, out0, scalar, l.ocs / 8, 0)
    requires Written(Result(l, l.Walked()), Stride(l), l.iw / 32 * 32, out0, vector, l.ocs / 8, 0)
    ensures scalar == vector
  {
    WholeRows(l);
    hide Written, Result, Stride;
    var f, f', groups := Result(l, l.Walked()), Result(l, l.ics / 8), l.ocs / 8;
    AllAgree(l);
    WrittenSame(f, f', l.iw * 8, l.iw, out0, vector, groups);
    WrittenDetermines(f', l.iw * 8, l.iw, out0, scalar, vector, groups, 0);
  }

  lemma WholeRows(l: Layer)
    requires l.iw % 32 == 0
    ensures Stride(l) == l.iw * 8 && l.iw / 32 * 32 == l.iw
  {
    assert l.iw == l.iw / 32 * 32 + l.iw % 32;
    DivModUnique(l.iw, 4, l.iw / 32 * 8, 0);
  }

  lemma AllAgree(l: Layer)
    requires l.ocs / 8 <= 1 || l.ics < 16 || l.ics % 16 < 8
    ensures forall p: Spot | p.g < l.ocs / 8 :: Result(l, l.Walked())(p) == Result(l, l.ics / 8)(p)
  {
    hide Result;
    forall p: Spot | p.g < l.ocs / 8 ensures Result(l, l.Walked())(p) == Result(l, l.ics / 8)(p) {
      Agrees(l, p);
    }
  }

  lemma WrittenSame(f: Output, f': Output, stride: nat, cols: nat, out0: seq<int>, out: seq<int>, oc: nat)
    requires Written(f, stride, cols, out0, out, oc, 0) && forall p: Spot | p.g < oc :: f(p) == f'(p)
    ensures Written(f', stride, cols, out0, out, oc, 0)
  {
    hide Place;
  }

  // ----- weights on which they differ

  function Spike(n: nat, at: nat, v: int): seq<int> { seq(n, e => if e == at then v else 0) }

  lemma {:induction false} SpikeChannels(act: seq<int>, p: int, wts: seq<int>, q: int, n: nat)
    requires forall e :: e != 0 ==> At(act, e) == 0
    requires p >= 0
    ensures Channels(act, p, wts, q, n) == if p == 0 && n > 0 then At(act, 0) * At(wts, q) else 0
  {
    if n > 0 {
      SpikeChannels(act, p, wts, q, n - 1);
    }
  }

  lemma {:induction false} SpikeGroups(act: seq<int>, step: nat, wts: seq<int>, q: int, n: nat)
    requires (forall e :: e != 0 ==> At(act, e) == 0) && step > 0
    ensures Groups(act, 0, step, wts, q, n) == if n > 0 then At(act, 0) * At(wts, q) else 0
  {
    if n > 0 {
      SpikeGroups(act, step, wts, q, n - 1);
      SpikeChannels(act, (n - 1) * step, wts, q + (n - 1) * 64, 8);
      if n > 1 {
        MulMono(1, n - 1, step);
      }
    }
  }

  predicate Odd(iw: nat, ics: nat, ocs: nat) { iw > 0 && ocs / 8 > 1 && ics >= 16 && ics % 16 >= 8 }

  /** One input value, and one weight at the start of the second output group. */
  function OddLayer(iw: nat, ics: nat, ocs: nat): Layer {
    Layer(Spike(ics / 16 * (iw * 8), 0, 1), Spike(ics / 16 * (iw * 8), 0, 0), [], Spike(ocs * ics, ics / 8 * 64, 4),
      iw, ics, ocs, 0, 1, 1, 1)
  }

  lemma OddLayerIsSized(iw: nat, ics: nat, ocs: nat)
    requires Odd(iw, ics, ocs)
    ensures Sized(OddLayer(iw, ics, ocs), iw, ics, ocs)
  {
    WeightsFit(ics, ocs);
  }

  lemma OddSum(iw: nat, ics: nat, ocs: nat, apart: nat)
    requires Odd(iw, ics, ocs)
    ensures var l := OddLayer(iw, ics, ocs);
      ConvSum(l, apart, 1, 0, 0) == At(l.wts, apart * 64) && SkipSum(l, 1, 0, 0) == 0
  {
    var l := OddLayer(iw, ics, ocs);
    MulMono(1, ics / 16, iw * 8);
    assert At(l.input0, 0) == 1 && At(l.input1, 0) == 0;
    SpikeGroups(l.input0, iw * 8, l.wts, apart * 64, ics / 16);
    SpikeGroups(l.input1, iw * 8, l.wts, (apart + ics / 16) * 64, ics / 16);
  }

  /** With a last group that the walk misses, one weight of the second output group is enough. */
  lemma OddGroupsDiffer(iw: nat, ics: nat, ocs: nat)
    requires Odd(iw, ics, ocs)
    ensures !SameResults(iw, ics, ocs)
  {
    var l := OddLayer(iw, ics, ocs);
    WeightsFit(ics, ocs);
    assert l.Walked() == ics / 8 - 1 && At(l.wts, ics / 8 * 64) == 4 && At(l.wts, l.Walked() * 64) == 0;
    FourAndNothing(l);
    hide ConvSum, SkipSum, Final, Sized, At, Spike;
    OddLayerIsSized(iw, ics, ocs);
    OddSum(iw, ics, ocs, ics / 8);
    OddSum(iw, ics, ocs, l.Walked());
    assert !SameAt(l, Spot(1, 0, 0));
  }

  lemma WeightsFit(ics: nat, ocs: nat)
    requires ocs / 8 > 1 && ics >= 16
    ensures ocs / 8 * (ics / 8) * 64 <= ocs * ics && ics / 8 * 64 < ocs * ics
  {
    var a, b := ocs / 8, ics / 8;
    WholeGroups(ics, ocs);
    MulMono(2, a, b * 64);
    assert a * b * 64 == a * (b * 64);
  }

  lemma FourAndNothing(l: Layer)
    requires l.scale == 1 && l.skipScale == 1 && l.skipConvScale == 1
    ensures Final(l, 4, 0) == 1 && Final(l, 0, 0) == 0
  {
    assert Pow2(1) == 2;
  }

  // ----- where the weights are

  /** Weights read behind `cw` are those of `sw`. */
  lemma {:induction false} GroupsBehind(act: seq<int>, p: int, step: int, cw: seq<int>, sw: seq<int>, q: nat, n: nat)
    ensures Groups(act, p, step, cw + sw, |cw| + q, n) == Groups(act, p, step, sw, q, n)
  {
    if n > 0 {
      GroupsBehind(act, p, step, cw, sw, q, n - 1);
      ChannelsBehind(act, p + (n - 1) * step, cw, sw, q + (n - 1) * 64, 8);
    }
  }

  lemma {:induction false} ChannelsBehind(act: seq<int>, p: int, cw: seq<int>, sw: seq<int>, q: nat, n: nat)
    ensures Channels(act, p, cw + sw, |cw| + q, n) == Channels(act, p, sw, q, n)
  {
    if n > 0 {
      ChannelsBehind(act, p, cw, sw, q, n - 1);
    }
  }

  lemma {:induction false} GroupsInFront(act: seq<int>, p: int, step: int, cw: seq<int>, sw: seq<int>, q: nat, n: nat,
                                         o: nat)
    requires o < 8 && q + n * 64 <= |cw|
    ensures Groups(act, p, step, cw + sw, q + o, n) == Groups(act, p, step, cw, q + o, n)
  {
    if n > 0 {
      GroupsInFront(act, p, step, cw, sw, q, n - 1, o);
      ChannelsInFront(act, p + (n - 1) * step, cw, sw, q + o + (n - 1) * 64, 8);
    }
  }

  lemma {:induction false} ChannelsInFront(act: seq<int>, p: int, cw: seq<int>, sw: seq<int>, q: nat, n: nat)
    requires q + n * 8 - 8 < |cw|
    ensures Channels(act, p, cw + sw, q, n) == Channels(act, p, cw, q, n)
  {
    if n > 0 {
      ChannelsInFront(act, p, cw, sw, q, n - 1);
    }
  }

  /** When the weights are those of the convolution followed by those of the skip, the sums over the skip read the
      latter from their start, and the sums over the inputs read the former alone, in either kernel. */
  lemma SkipWeightsFollow(l: Layer, cw: seq<int>, sw: seq<int>, apart: nat, g: nat, x: nat, o: nat)
    requires l.wts == cw + sw && |cw| == l.ocs * l.ics && g < l.ocs / 8 && o < 8
    requires apart == l.ics / 8 || apart == l.Walked()
    ensures SkipSum(l, g, x, o) == Groups(l.skip, x * 8, l.iw * 8, sw, g * (l.icsSkip / 8) * 64 + o, l.icsSkip / 8)
    ensures ConvSum(l, apart, g, x, o) == ConvSum(l.(wts := cw), apart, g, x, o)
  {
    MulMono(0, g, l.icsSkip / 8);
    GroupsBehind(l.skip, x * 8, l.iw * 8, cw, sw, g * (l.icsSkip / 8) * 64 + o, l.icsSkip / 8);
    var half := l.Half();
    InputWeightsFit(l, apart, g);
    GroupsInFront(l.input0, x * 8, l.iw * 8, cw, sw, g * apart * 64, half, o);
    GroupsInFront(l.input1, x * 8, l.iw * 8, cw, sw, (g * apart + half) * 64, half, o);
  }

  lemma InputWeightsFit(l: Layer, apart: nat, g: nat)
    requires g < l.ocs / 8 && (apart == l.ics / 8 || apart == l.Walked())
    ensures g * apart >= 0 && (g * apart + 2 * l.Half()) * 64 <= l.ocs * l.ics
  {
    HalvesInside(l.ics);
    var groups, half := l.ics / 8, l.Half();
    MulMono(0, g, apart);
    MulMono(apart, groups, g);
    GroupInside(g, l.ocs / 8, groups);
    WholeGroups(l.ics, l.ocs);
  }

  lemma WholeGroups(ics: nat, ocs: nat)
    ensures ocs / 8 * (ics / 8) * 64 <= ocs * ics
  {
    var a, b := ocs / 8, ics / 8;
    MulMono(a * 8, ocs, ics);
    MulMono(b * 8, ics, a * 8);
    assert a * b * 64 == (a * 8) * (b * 8);
  }

  /** Where they are not all groups, the second block of the first output group would start before the weights. */
  lemma SecondBlockReadsBefore(l: Layer, p: Pointers)
    requires AtBlock(l, 0, 1, p)
    ensures p.kernels < 0 <==> !l.Halves()
  {
    HalvesInside(l.ics);
  }

  /** Both accumulators stay inside 32 bits for up to 65792 channels each, at every step. */
  lemma AccumulatorsFit(l: Layer, apart: nat, g: nat, x: nat, o: nat, n: nat)
    requires IsUint8(l.input0) && IsUint8(l.input1) && IsInt8(l.skip) && IsInt8(l.wts)
    requires l.ics <= 65792 && l.icsSkip <= 65792
    ensures n <= l.Half() ==> Fits32(
      Groups(l.input0, x * 8, l.iw * 8, l.wts, g * apart * 64 + o, l.Half())
      + Groups(l.input1, x * 8, l.iw * 8, l.wts, (g * apart + l.Half()) * 64 + o, n))
    ensures n <= l.icsSkip / 8 ==> Fits32(
      Groups(l.skip, x * 8, l.iw * 8, l.wts, l.Offset() + g * (l.icsSkip / 8) * 64 + o, n))
  {
    GroupsBound(l.input0, x * 8, l.iw * 8, l.wts, g * apart * 64 + o, l.Half());
    GroupsBound(l.input1, x * 8, l.iw * 8, l.wts, (g * apart + l.Half()) * 64 + o, n);
    GroupsBound(l.skip, x * 8, l.iw * 8, l.wts, l.Offset() + g * (l.icsSkip / 8) * 64 + o, n);
    hide Groups, IsUint8, IsInt8;
  }

  predicate Fits32(n: int) { -0x8000_0000 <= n < 0x8000_0000 }
}
