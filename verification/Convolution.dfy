/** What the convolution kernels share: eight-channel products, rounding shifts, and blocked output. */
module Convolution {
  import opened Indexing
  import opened Matrices
  import opened VectorUnit
  import opened Bits

  // ----- products over eight channels

  /** The products of the first `n` channels of a pixel with the weights of one output channel. */
  function Channels(act: seq<int>, p: int, wts: seq<int>, q: int, n: nat): int {
    if n == 0 then 0 else Channels(act, p, wts, q, n - 1) + Channel(act, p, n - 1) * Weight(wts, q, n - 1)
  }

  function Channel(act: seq<int>, p: int, c: int): int { At(act, p + c) }

  function Weight(wts: seq<int>, q: int, c: int): int { At(wts, q + c * 8) }

  /** The first `n` groups of eight channels: groups of pixels lie `step` apart, groups of weights 64. */
  function Groups(act: seq<int>, p: int, step: int, wts: seq<int>, q: int, n: nat): int {
    if n == 0 then 0
    else Groups(act, p, step, wts, q, n - 1) + Channels(act, p + (n - 1) * step, wts, q + (n - 1) * 64, 8)
  }

  lemma {:induction false} DotIsChannels(v: seq<int>, w: seq<int>, row: nat, col: nat, n: nat)
    ensures Dot(v, w, 8, 8, row, col, n) == Channels(v, row * 8, w, col, n)
  {
    if n > 0 {
      DotIsChannels(v, w, row, col, n - 1);
    }
  }

  /** Multiplying four pixels by an 8 x 8 block of weights adds eight channels to each of the 32 sums. */
  lemma MacElement(acc: seq<int>, v: seq<int>, w: seq<int>, e: nat)
    requires |acc| == 32 && e < 32
    ensures Mac(4, 8, 8, acc, v, w)[e] == acc[e] + Channels(v, (e / 8) * 8, w, e % 8, 8)
  {
    DotIsChannels(v, w, e / 8, e % 8, 8);
  }

  lemma {:induction false} SameChannels(act: seq<int>, p: int, act': seq<int>, p': int, wts: seq<int>, q: int,
                                        wts': seq<int>, q': int, n: nat)
    requires forall c :: 0 <= c < n ==> Channel(act, p, c) == Channel(act', p', c)
    requires forall c :: 0 <= c < n ==> Weight(wts, q, c) == Weight(wts', q', c)
    ensures Channels(act, p, wts, q, n) == Channels(act', p', wts', q', n)
  {
    if n > 0 {
      SameChannels(act, p, act', p', wts, q, wts', q', n - 1);
    }
  }

  /** The same for pixels and weights loaded from their buffers. */
  lemma LoadedMac(acc: seq<int>, act: seq<int>, p: nat, wts: seq<int>, q: nat, e: nat)
    requires |acc| == 32 && e < 32 && p + 32 <= |act| && q + 64 <= |wts|
    ensures Mac(4, 8, 8, acc, LoadV(act, p, 32), LoadV(wts, q, 64))[e]
      == acc[e] + Channels(act, p + (e / 8) * 8, wts, q + e % 8, 8)
  {
    MacElement(acc, LoadV(act, p, 32), LoadV(wts, q, 64), e);
    SameChannels(LoadV(act, p, 32), (e / 8) * 8, act, p + (e / 8) * 8, LoadV(wts, q, 64), e % 8, wts, q + e % 8, 8);
  }

  // ----- sizes

  predicate IsUint8(m: seq<int>) { forall i :: 0 <= i < |m| ==> 0 <= m[i] <= 255 }

  predicate IsInt8(m: seq<int>) { forall i :: 0 <= i < |m| ==> -128 <= m[i] <= 127 }

  lemma ProductBound(x: int, y: int)
    requires -128 <= x <= 255 && -128 <= y <= 127
    ensures -32640 <= x * y <= 32640
  {
    if x >= 0 {
      MulMono(x, 255, if y >= 0 then y else -y);
    } else {
      MulMono(-x, 128, if y >= 0 then y else -y);
    }
  }

  lemma {:induction false} ChannelsBound(act: seq<int>, p: int, wts: seq<int>, q: int, n: nat)
    requires (IsUint8(act) || IsInt8(act)) && IsInt8(wts)
    ensures -32640 * n <= Channels(act, p, wts, q, n) <= 32640 * n
  {
    if n > 0 {
      ChannelsBound(act, p, wts, q, n - 1);
      ProductBound(Channel(act, p, n - 1), Weight(wts, q, n - 1));
    }
  }

  /** Every sum on the way stays within 32640 per channel. */
  lemma {:induction false} GroupsBound(act: seq<int>, p: int, step: int, wts: seq<int>, q: int, n: nat)
    requires (IsUint8(act) || IsInt8(act)) && IsInt8(wts)
    ensures -261120 * n <= Groups(act, p, step, wts, q, n) <= 261120 * n
  {
    if n > 0 {
      GroupsBound(act, p, step, wts, q, n - 1);
      ChannelsBound(act, p + (n - 1) * step, wts, q + (n - 1) * 64, 8);
    }
  }

  // ----- shift, round, saturate

  /** The vector unit's shift: to the nearest integer, halves upwards. */
  function ShiftRound(acc: int, shift: nat): int {
    var d := Pow2(shift);
    if 2 * (acc % d) >= d then acc / d + 1 else acc / d
  }

  /** The scalar kernels' shift: add half, then shift out the fraction. */
  function AddShift(sum: int, shift: nat): int
    requires shift >= 1
  {
    (sum + Pow2(shift - 1)) / Pow2(shift)
  }

  lemma ShiftsAgree(sum: int, shift: nat)
    requires shift >= 1
    ensures AddShift(sum, shift) == ShiftRound(sum, shift)
  {
    var h := Pow2(shift - 1);
    var d := Pow2(shift);
    assert d == 2 * h;
    var q, r := sum / d, sum % d;
    assert sum == q * d + r;
    if 2 * r >= d {
      assert sum + h == (q + 1) * d + (r - h);
      DivModUnique(sum + h, d, q + 1, r - h);
    } else {
      DivModUnique(sum + h, d, q, r + h);
    }
  }

  /** The result is within half a unit of the quotient, and a tie goes up. */
  lemma ShiftIsNearest(acc: int, shift: nat)
    ensures var d: int := Pow2(shift);
      -d < 2 * (ShiftRound(acc, shift) * d - acc) <= d
  {
    var d := Pow2(shift);
    assert acc == (acc / d) * d + acc % d;
    assert (acc / d + 1) * d == (acc / d) * d + d;
  }

  function Clamp(x: int, low: int, high: int): int {
    if x > high then high else if x < low then low else x
  }

  function ToUint8(acc: int, shift: nat): int { Clamp(ShiftRound(acc, shift), 0, 255) }

  function ToInt8(acc: int, shift: nat): int { Clamp(ShiftRound(acc, shift), -128, 127) }

  /** The vector unit's conversions, element by element. */
  function VectorToUint8(acc: seq<int>, shift: nat): (v: seq<int>)
    ensures |v| == |acc|
  {
    seq(|acc|, e requires 0 <= e < |acc| => ToUint8(acc[e], shift))
  }

  function VectorToInt8(acc: seq<int>, shift: nat): (v: seq<int>)
    ensures |v| == |acc|
  {
    seq(|acc|, e requires 0 <= e < |acc| => ToInt8(acc[e], shift))
  }

  // ----- eight accumulators of four pixels

  predicate IsEight(acc: seq<seq<int>>) {
    |acc| == 8 && forall x :: 0 <= x < 8 ==> |acc[x]| == 32
  }

  function Zeros(): (acc: seq<seq<int>>)
    ensures IsEight(acc)
  {
    seq(8, _ => seq(32, _ => 0))
  }

  function GroupSum(act: seq<int>, off: int, step: int, wts: seq<int>, k: int, x: int, e: int, n: nat): int {
    Groups(act, off + x * 32 + (e / 8) * 8, step, wts, k + e % 8, n)
  }

  /** The accumulators have gained `n` groups of channels, from pixels at `off` and weights at `k`. */
  ghost predicate Gained(act: seq<int>, off: int, step: int, wts: seq<int>, k: int, n: nat,
                         acc0: seq<seq<int>>, acc: seq<seq<int>>) {
    && IsEight(acc0) && IsEight(acc)
    && (forall x, e :: 0 <= x < 8 && 0 <= e < 32 ==>
      acc[x][e] == acc0[x][e] + GroupSum(act, off, step, wts, k, x, e, n))
  }

  /** One block of weights against 32 pixels. */
  method MacPixels(act: seq<int>, off: int, inB: seq<int>, acc: seq<seq<int>>) returns (acc': seq<seq<int>>, off': int)
    requires IsEight(acc) && 0 <= off && off + 256 <= |act|
    ensures IsEight(acc') && off' == off + 256
    ensures forall x :: 0 <= x < 8 ==> acc'[x] == Mac(4, 8, 8, acc[x], LoadV(act, off + x * 32, 32), inB)
  {
    hide Mac;
    acc', off' := acc, off;
    var x := 0;
    while x < 8
      invariant 0 <= x <= 8 && off' == off + x * 32 && IsEight(acc')
      invariant forall y :: x <= y < 8 ==> acc'[y] == acc[y]
      invariant forall y :: 0 <= y < x ==> acc'[y] == Mac(4, 8, 8, acc[y], LoadV(act, off + y * 32, 32), inB)
    {
      var inA := LoadV(act, off', 32);
      off' := off' + 32;
      acc' := acc'[x := Mac(4, 8, 8, acc'[x], inA, inB)];
      x := x + 1;
    }
  }

  lemma GainedNext(act: seq<int>, off: int, step: int, wts: seq<int>, k: int, n: nat,
                   acc0: seq<seq<int>>, acc: seq<seq<int>>, acc': seq<seq<int>>)
    requires Gained(act, off, step, wts, k, n, acc0, acc) && IsEight(acc')
    requires 0 <= off + n * step && off + n * step + 256 <= |act| && 0 <= k + n * 64 && k + n * 64 + 64 <= |wts|
    requires forall x :: 0 <= x < 8 ==>
      acc'[x] == Mac(4, 8, 8, acc[x], LoadV(act, off + n * step + x * 32, 32), LoadV(wts, k + n * 64, 64))
    ensures Gained(act, off, step, wts, k, n + 1, acc0, acc')
  {
    hide Mac, Channels;
    forall x, e | 0 <= x < 8 && 0 <= e < 32
      ensures acc'[x][e] == acc0[x][e] + GroupSum(act, off, step, wts, k, x, e, n + 1)
    {
      LoadedMac(acc[x], act, off + n * step + x * 32, wts, k + n * 64, e);
    }
  }

  /** The loop over groups of input channels; both pointers walk on. */
  method AccumulateGroups(act: seq<int>, off: int, iw: nat, wts: seq<int>, k: int, n: nat, acc: seq<seq<int>>)
    returns (acc': seq<seq<int>>, off': int, k': int)
    requires IsEight(acc) && 0 <= off && 0 <= k && k + n * 64 <= |wts|
    requires n * (iw * 8) <= |act| && off + 256 <= iw * 8
    ensures IsEight(acc') && Gained(act, off, iw * 8, wts, k, n, acc, acc')
    ensures off' == off + n * (iw * 8) && k' == k + n * 64
  {
    acc', off', k' := acc, off, k;
    var step := iw * 8;
    var ic := 0;
    GainedNothing(act, off, step, wts, k, acc);
    hide Gained, Mac, IsEight;
    while ic < n
      invariant 0 <= ic <= n && off' == off + ic * step && k' == k + ic * 64
      invariant IsEight(acc') && Gained(act, off, step, wts, k, ic, acc, acc')
    {
      MulMono(ic + 1, n, step);
      assert (ic + 1) * step == ic * step + step;
      var inB := LoadV(wts, k', 64);
      k' := k' + 64;
      ghost var before := acc';
      acc', off' := MacPixels(act, off', inB, acc');
      GainedNext(act, off, step, wts, k, ic, acc, before, acc');
      off' := off' + (iw * 8 - 256);
      ic := ic + 1;
    }
  }

  lemma GainedNothing(act: seq<int>, off: int, step: int, wts: seq<int>, k: int, acc: seq<seq<int>>)
    requires IsEight(acc)
    ensures Gained(act, off, step, wts, k, 0, acc, acc)
  {}

  /** The scalar loops over groups and channels. */
  method ScalarGroups(act: seq<int>, p: nat, step: nat, wts: seq<int>, q: nat, n: nat, start: int) returns (sum: int)
    requires n * step <= |act| && p + 8 <= step && q + n * 64 <= |wts| + 7
    ensures sum == start + Groups(act, p, step, wts, q, n)
  {
    sum := start;
    var ic := 0;
    while ic < n
      invariant 0 <= ic <= n && sum == start + Groups(act, p, step, wts, q, ic)
    {
      MulMono(ic + 1, n, step);
      assert (ic + 1) * step == ic * step + step;
      ghost var before := sum;
      var ic8 := 0;
      while ic8 < 8
        invariant 0 <= ic8 <= 8 && sum == before + Channels(act, p + ic * step, wts, q + ic * 64, ic8)
      {
        var val := act[ic * step + p + ic8];
        var k := wts[q + ic * 64 + ic8 * 8];
        sum := sum + val * k;
        ic8 := ic8 + 1;
      }
      ic := ic + 1;
    }
  }

  // ----- the output

  /** A group of output channels, a pixel, and a channel of the group. */
  datatype Spot = Spot(g: nat, x: nat, o: nat)

  /** The value of every spot. */
  type Output = Spot -> int

  /** The spot of an output element. */
  function Place(stride: nat, e: nat): Spot
    requires stride > 0
  {
    Spot(e / stride, e % stride / 8, e % stride % 8)
  }

  lemma PlaceOf(stride: nat, g: nat, x: nat, o: nat)
    requires x * 8 + o < stride && o < 8
    ensures Place(stride, g * stride + x * 8 + o) == Spot(g, x, o)
  {
    DivModUnique(g * stride + x * 8 + o, stride, g, x * 8 + o);
  }

  lemma ElementOf(stride: nat, e: nat)
    requires stride > 0
    ensures var p := Place(stride, e);
      e == p.g * stride + p.x * 8 + p.o && p.o < 8
  {
    assert e == (e / stride) * stride + e % stride;
  }

  /** Groups of output channels lie `stride` apart and have `cols` pixels of eight channels; those before group `oc`
      are written, and the first `done` elements of that group. The rest is as it was. */
  ghost predicate Written(f: Output, stride: nat, cols: nat, out0: seq<int>, out: seq<int>, oc: nat, done: nat) {
    |out| == |out0| && forall e :: 0 <= e < |out| ==> out[e] == OutputAt(f, stride, cols, out0, oc, done, e)
  }

  ghost function OutputAt(f: Output, stride: nat, cols: nat, out0: seq<int>, oc: nat, done: nat, e: nat): int
    requires e < |out0|
  {
    if stride == 0 then out0[e] else
      var p := Place(stride, e);
      if p.x < cols && (p.g < oc || (p.g == oc && p.x * 8 + p.o < done)) then f(p) else out0[e]
  }

  lemma NothingWritten(f: Output, stride: nat, cols: nat, out0: seq<int>)
    ensures Written(f, stride, cols, out0, out0, 0, 0)
  {
    hide Place;
  }

  lemma WrittenDetermines(f: Output, stride: nat, cols: nat, out0: seq<int>, out: seq<int>, out': seq<int>, oc: nat,
                          done: nat)
    requires Written(f, stride, cols, out0, out, oc, done) && Written(f, stride, cols, out0, out', oc, done)
    ensures out == out'
  {
    hide OutputAt;
  }

  lemma VectorWritten(f: Output, stride: nat, cols: nat, out0: seq<int>, out: seq<int>, oc: nat, done: nat, v: seq<int>)
    requires stride > 0 && cols * 8 <= stride
    requires Written(f, stride, cols, out0, out, oc, done)
    requires done + |v| <= cols * 8 && oc * stride + done + |v| <= |out|
    requires forall e :: 0 <= e < |v| ==> v[e] == f(Spot(oc, (done + e) / 8, (done + e) % 8))
    ensures Written(f, stride, cols, out0, Splice(out, oc * stride + done, v), oc, done + |v|)
  {
    var p := oc * stride + done;
    var out' := Splice(out, p, v);
    hide OutputAt;
    forall e | 0 <= e < |out'| ensures out'[e] == OutputAt(f, stride, cols, out0, oc, done + |v|, e) {
      if p <= e < p + |v| {
        JustWritten(f, stride, cols, out0, oc, done, |v|, e - p);
      } else {
        NotWritten(f, stride, cols, out0, oc, done, |v|, e);
      }
    }
  }

  lemma JustWritten(f: Output, stride: nat, cols: nat, out0: seq<int>, oc: nat, done: nat, n: nat, i: nat)
    requires stride > 0 && i < n && done + n <= cols * 8 <= stride && oc * stride + done + n <= |out0|
    ensures OutputAt(f, stride, cols, out0, oc, done + n, oc * stride + done + i)
      == f(Spot(oc, (done + i) / 8, (done + i) % 8))
  {
    PlaceOf(stride, oc, (done + i) / 8, (done + i) % 8);
    hide Place;
  }

  lemma NotWritten(f: Output, stride: nat, cols: nat, out0: seq<int>, oc: nat, done: nat, n: nat, e: nat)
    requires stride > 0 && done + n <= cols * 8 <= stride && e < |out0|
    requires e < oc * stride + done || oc * stride + done + n <= e
    ensures OutputAt(f, stride, cols, out0, oc, done + n, e) == OutputAt(f, stride, cols, out0, oc, done, e)
  {
    ElementOf(stride, e);
    hide Place;
  }

  lemma NextGroup(f: Output, stride: nat, cols: nat, out0: seq<int>, out: seq<int>, oc: nat)
    requires stride > 0 && Written(f, stride, cols, out0, out, oc, cols * 8)
    ensures Written(f, stride, cols, out0, out, oc + 1, 0)
  {
    hide OutputAt;
    forall e | 0 <= e < |out| ensures out[e] == OutputAt(f, stride, cols, out0, oc + 1, 0, e) {
      SameOutput(f, stride, cols, out0, oc, e);
    }
  }

  lemma SameOutput(f: Output, stride: nat, cols: nat, out0: seq<int>, oc: nat, e: nat)
    requires stride > 0 && e < |out0|
    ensures OutputAt(f, stride, cols, out0, oc + 1, 0, e) == OutputAt(f, stride, cols, out0, oc, cols * 8, e)
  {
    ElementOf(stride, e);
    hide Place;
  }

  // ----- output in any order

  type Spots = Spot -> bool

  /** The same, with the places given by a predicate. */
  ghost predicate Filled(f: Output, stride: nat, cols: nat, out0: seq<int>, out: seq<int>, done: Spots) {
    |out| == |out0| && forall e :: 0 <= e < |out| ==> out[e] == FilledAt(f, stride, cols, out0, done, e)
  }

  ghost function FilledAt(f: Output, stride: nat, cols: nat, out0: seq<int>, done: Spots, e: nat): int
    requires e < |out0|
  {
    if stride == 0 then out0[e] else
      var p := Place(stride, e);
      if p.x < cols && done(p) then f(p) else out0[e]
  }

  /** Pixels `x .. x + n` of group `g`, in all eight channels. */
  predicate InRun(g: nat, x: nat, n: nat, p: Spot) { p.g == g && x <= p.x < x + n }

  /** A new vector of pixels: where it lies, and that nothing else changes. */
  lemma RunFilled(f: Output, stride: nat, cols: nat, out0: seq<int>, out: seq<int>, done: Spots, done': Spots,
                  g: nat, x: nat, n: nat, v: seq<int>)
    requires Filled(f, stride, cols, out0, out, done)
    requires |v| == n * 8 && x + n <= cols && 0 < cols * 8 <= stride && g * stride + x * 8 + |v| <= |out|
    requires forall i :: 0 <= i < |v| ==> v[i] == f(Spot(g, x + i / 8, i % 8))
    requires forall p: Spot | p.o < 8 :: done'(p) <==> done(p) || InRun(g, x, n, p)
    ensures Filled(f, stride, cols, out0, Splice(out, g * stride + x * 8, v), done')
  {
    hide FilledAt, InRun, Place;
    var p := g * stride + x * 8;
    var out' := Splice(out, p, v);
    forall e | 0 <= e < |out'| ensures out'[e] == FilledAt(f, stride, cols, out0, done', e) {
      if p <= e < p + |v| {
        InsideRun(g, x, n, (e - p) / 8, (e - p) % 8);
        FilledHere(f, stride, cols, out0, done', g, x + (e - p) / 8, (e - p) % 8);
      } else {
        OutsideRun(stride, e, g, x, n);
        ElementOf(stride, e);
        FilledThere(f, stride, cols, out0, done, done', e);
      }
    }
  }

  lemma InsideRun(g: nat, x: nat, n: nat, i: nat, o: nat)
    requires i < n
    ensures InRun(g, x, n, Spot(g, x + i, o))
  {}

  lemma OutsideRun(stride: nat, e: nat, g: nat, x: nat, n: nat)
    requires stride > 0 && (e < g * stride + x * 8 || g * stride + x * 8 + n * 8 <= e)
    ensures !InRun(g, x, n, Place(stride, e))
  {
    ElementOf(stride, e);
    hide Place;
  }

  lemma FilledHere(f: Output, stride: nat, cols: nat, out0: seq<int>, done: Spots, g: nat, x: nat, o: nat)
    requires x < cols && o < 8 && cols * 8 <= stride && g * stride + x * 8 + o < |out0|
    requires done(Spot(g, x, o))
    ensures FilledAt(f, stride, cols, out0, done, g * stride + x * 8 + o) == f(Spot(g, x, o))
  {
    PlaceOf(stride, g, x, o);
    hide Place;
  }

  lemma FilledThere(f: Output, stride: nat, cols: nat, out0: seq<int>, done: Spots, done': Spots, e: nat)
    requires e < |out0| && stride > 0
    requires var p := Place(stride, e); p.x < cols ==> (done'(p) <==> done(p))
    ensures FilledAt(f, stride, cols, out0, done', e) == FilledAt(f, stride, cols, out0, done, e)
  {
    hide Place;
  }

  lemma PlaceFilled(f: Output, stride: nat, cols: nat, out0: seq<int>, out: seq<int>, done: Spots, done': Spots,
                    g: nat, x: nat, o: nat, v: int)
    requires Filled(f, stride, cols, out0, out, done)
    requires x < cols && o < 8 && cols * 8 <= stride && g * stride + x * 8 + o < |out| && v == f(Spot(g, x, o))
    requires forall p: Spot | p.o < 8 :: done'(p) <==> done(p) || p == Spot(g, x, o)
    ensures Filled(f, stride, cols, out0, Splice(out, g * stride + x * 8 + o, [v]), done')
  {
    hide FilledAt, Place;
    var p := g * stride + x * 8 + o;
    var out' := Splice(out, p, [v]);
    forall e | 0 <= e < |out'| ensures out'[e] == FilledAt(f, stride, cols, out0, done', e) {
      if e == p {
        FilledHere(f, stride, cols, out0, done', g, x, o);
      } else {
        OtherPlace(stride, e, g, x, o);
        FilledThere(f, stride, cols, out0, done, done', e);
      }
    }
  }

  lemma OtherPlace(stride: nat, e: nat, g: nat, x: nat, o: nat)
    requires stride > 0 && e != g * stride + x * 8 + o
    ensures Place(stride, e) != Spot(g, x, o) && Place(stride, e).o < 8
  {
    ElementOf(stride, e);
    hide Place;
  }

  /** Two descriptions of the same places. */
  lemma FilledSame(f: Output, stride: nat, cols: nat, out0: seq<int>, out: seq<int>, done: Spots, done': Spots)
    requires Filled(f, stride, cols, out0, out, done)
    requires forall p: Spot | p.x < cols && p.o < 8 :: done'(p) <==> done(p)
    ensures Filled(f, stride, cols, out0, out, done')
  {
    hide FilledAt, Place;
    if stride > 0 {
      forall e | 0 <= e < |out| ensures out[e] == FilledAt(f, stride, cols, out0, done', e) {
        ElementOf(stride, e);
        FilledThere(f, stride, cols, out0, done, done', e);
      }
    } else {
      NoStride(f, cols, out0, done);
      NoStride(f, cols, out0, done');
    }
  }

  lemma NoStride(f: Output, cols: nat, out0: seq<int>, done: Spots)
    ensures forall e :: 0 <= e < |out0| ==> FilledAt(f, 0, cols, out0, done, e) == out0[e]
  {}

  lemma NothingFilled(f: Output, stride: nat, cols: nat, out0: seq<int>, done: Spots)
    requires forall p: Spot | p.x < cols && p.o < 8 :: !done(p)
    ensures Filled(f, stride, cols, out0, out0, done)
  {
    hide Place;
    if stride > 0 {
      forall e | 0 <= e < |out0| ensures out0[e] == FilledAt(f, stride, cols, out0, done, e) {
        ElementOf(stride, e);
      }
    }
  }

  /** All groups filled. */
  lemma AllFilled(f: Output, stride: nat, cols: nat, out0: seq<int>, out: seq<int>, done: Spots, n: nat)
    requires Filled(f, stride, cols, out0, out, done)
    requires forall p: Spot | p.x < cols && p.o < 8 :: done(p) <==> p.g < n
    ensures Written(f, stride, cols, out0, out, n, 0)
  {
    hide Place;
    if stride > 0 {
      forall e | 0 <= e < |out| ensures out[e] == OutputAt(f, stride, cols, out0, n, 0, e) {
        ElementOf(stride, e);
        assert out[e] == FilledAt(f, stride, cols, out0, done, e);
      }
    }
  }

  /** Eight vectors hold the elements of group `oc` from `done` on. */
  ghost predicate HoldsBlock(f: Output, oc: nat, done: nat, vs: seq<seq<int>>) {
    && IsEight(vs)
    && (forall x: nat, e: nat :: x < 8 && e < 32 ==>
      vs[x][e] == f(Spot(oc, (done + x * 32 + e) / 8, (done + x * 32 + e) % 8)))
  }

  /** Stores eight vectors one after the other. */
  method StoreEight(output: array<int>, outPtr: int, vs: seq<seq<int>>,
                    ghost f: Output, ghost stride: nat, ghost cols: nat, ghost out0: seq<int>,
                    ghost oc: nat, ghost done: nat)
    returns (outPtr': int)
    requires stride > 0 && cols * 8 <= stride && outPtr == oc * stride + done
    requires done + 256 <= cols * 8 && outPtr + 256 <= output.Length
    requires HoldsBlock(f, oc, done, vs)
    requires Written(f, stride, cols, out0, output[..], oc, done)
    modifies output
    ensures Written(f, stride, cols, out0, output[..], oc, done + 256)
    ensures outPtr' == outPtr + 256
  {
    hide Written;
    outPtr' := outPtr;
    var x := 0;
    while x < 8
      invariant 0 <= x <= 8 && outPtr' == outPtr + x * 32
      invariant Written(f, stride, cols, out0, output[..], oc, done + x * 32)
    {
      VectorWritten(f, stride, cols, out0, output[..], oc, done + x * 32, vs[x]);
      StoreV(output, outPtr', vs[x]);
      outPtr' := outPtr' + 32;
      x := x + 1;
    }
  }
}
