/** The 3x3 convolution over three input lines: its sum, the scalar kernel, and windows of pixels in vectors. */
module Conv3x3 {
  import opened Indexing
  import opened Matrices
  import opened VectorUnit
  import opened Bits
  import opened Convolution

  /** Which line of the image is computed; at the top and bottom one input line is missing. */
  datatype Region = Top | Middle | Bottom

  datatype Layer = Layer(lines: seq<seq<int>>, wts: seq<int>, iw: nat, ics: nat, ocs: nat,
                         region: Region, scale: nat, channelOffset: nat) {
    /** Groups of eight input channels. */
    function Groups(): nat { ics / 8 }

    /** The input lines that are used. */
    function Start(): nat { if region.Top? then 1 else 0 }
    function End(): nat { if region.Bottom? then 2 else 3 }

    /** The weights of output group `g`, input group `ic`, kernel row `i` and column `j`. */
    function Weights(g: nat, ic: nat, i: nat, j: nat): nat {
      (((g + channelOffset / 8) * Groups() + ic) * 9 + i * 3 + j) * 64
    }

    /** The lines have `spare` elements behind their pixels. */
    predicate Fits(out: nat, spare: nat) {
      && |lines| == 3
      && (forall i :: Start() <= i < End() ==> Groups() * (iw * 8) + spare <= |lines[i]|)
      && Weights(ocs / 8, 0, 0, 0) <= |wts|
      && ocs / 8 * (iw * 8) <= out
    }
  }

  // ----- the sum

  /** A pixel of a line; beyond its ends there are zeros. */
  function Pixel(l: Layer, i: nat, ic: nat, x: int, c: nat): int {
    if 0 <= x < l.iw && i < |l.lines| then At(l.lines[i], ic * (l.iw * 8) + x * 8 + c) else 0
  }

  function Product(l: Layer, p: Spot, ic: nat, i: nat, j: nat, c: nat): int {
    Pixel(l, i, ic, p.x - 1 + j, c) * At(l.wts, l.Weights(p.g, ic, i, j) + p.o + c * 8)
  }

  /** The first `n` channels under one kernel position. */
  function Tap(l: Layer, p: Spot, ic: nat, i: nat, j: nat, n: nat): int {
    if n == 0 then 0 else Tap(l, p, ic, i, j, n - 1) + Product(l, p, ic, i, j, n - 1)
  }

  /** The first `n` positions of a kernel row. */
  function RowTaps(l: Layer, p: Spot, ic: nat, i: nat, n: nat): int {
    if n == 0 then 0 else RowTaps(l, p, ic, i, n - 1) + Tap(l, p, ic, i, n - 1, 8)
  }

  /** The kernel rows before row `i`. */
  function GroupTaps(l: Layer, p: Spot, ic: nat, i: nat): int {
    if i <= l.Start() then 0 else GroupTaps(l, p, ic, i - 1) + RowTaps(l, p, ic, i - 1, 3)
  }

  /** The first `n` groups of input channels. */
  function Taps(l: Layer, p: Spot, n: nat): int {
    if n == 0 then 0 else Taps(l, p, n - 1) + GroupTaps(l, p, n - 1, l.End())
  }

  /** Everything before kernel position `(i, j)` of input group `ic`. */
  function Partial(l: Layer, p: Spot, ic: nat, i: nat, j: nat): int {
    Taps(l, p, ic) + GroupTaps(l, p, ic, i) + RowTaps(l, p, ic, i, j)
  }

  ghost function Result(l: Layer): Output {
    (p: Spot) => ToUint8(Taps(l, p, l.Groups()), l.scale)
  }

  // ----- the scalar loops sum in another order

  function Used(l: Layer, p: Spot, ic: nat, i: nat, j: nat, c: nat): int {
    if l.Start() <= i < l.End() then Product(l, p, ic, i, j, c) else 0
  }

  /** One channel under the first `n` kernel columns. */
  function Columns(l: Layer, p: Spot, ic: nat, c: nat, n: nat): int {
    if n == 0 then 0 else
      Columns(l, p, ic, c, n - 1)
      + Used(l, p, ic, 0, n - 1, c) + Used(l, p, ic, 1, n - 1, c) + Used(l, p, ic, 2, n - 1, c)
  }

  function ByChannel(l: Layer, p: Spot, ic: nat, n: nat): int {
    if n == 0 then 0 else ByChannel(l, p, ic, n - 1) + Columns(l, p, ic, n - 1, 3)
  }

  function UsedTap(l: Layer, p: Spot, ic: nat, i: nat, j: nat, n: nat): int {
    if l.Start() <= i < l.End() then Tap(l, p, ic, i, j, n) else 0
  }

  function Nine(l: Layer, p: Spot, ic: nat, n: nat): int {
    UsedTap(l, p, ic, 0, 0, n) + UsedTap(l, p, ic, 0, 1, n) + UsedTap(l, p, ic, 0, 2, n)
    + UsedTap(l, p, ic, 1, 0, n) + UsedTap(l, p, ic, 1, 1, n) + UsedTap(l, p, ic, 1, 2, n)
    + UsedTap(l, p, ic, 2, 0, n) + UsedTap(l, p, ic, 2, 1, n) + UsedTap(l, p, ic, 2, 2, n)
  }

  lemma ThreeColumns(l: Layer, p: Spot, ic: nat, c: nat)
    ensures Columns(l, p, ic, c, 3)
      == Used(l, p, ic, 0, 0, c) + Used(l, p, ic, 1, 0, c) + Used(l, p, ic, 2, 0, c)
       + Used(l, p, ic, 0, 1, c) + Used(l, p, ic, 1, 1, c) + Used(l, p, ic, 2, 1, c)
       + Used(l, p, ic, 0, 2, c) + Used(l, p, ic, 1, 2, c) + Used(l, p, ic, 2, 2, c)
  {
    hide Used;
    assert Columns(l, p, ic, c, 0) == 0;
    assert Columns(l, p, ic, c, 1) == Used(l, p, ic, 0, 0, c) + Used(l, p, ic, 1, 0, c) + Used(l, p, ic, 2, 0, c);
    assert Columns(l, p, ic, c, 2) == Columns(l, p, ic, c, 1)
      + Used(l, p, ic, 0, 1, c) + Used(l, p, ic, 1, 1, c) + Used(l, p, ic, 2, 1, c);
  }

  lemma UsedTapNext(l: Layer, p: Spot, ic: nat, i: nat, j: nat, n: nat)
    ensures UsedTap(l, p, ic, i, j, n + 1) == UsedTap(l, p, ic, i, j, n) + Used(l, p, ic, i, j, n)
  {
    hide Product;
  }

  /** Channel by channel or position by position: the same sum. */
  lemma {:induction false} ByChannelIsNine(l: Layer, p: Spot, ic: nat, n: nat)
    ensures ByChannel(l, p, ic, n) == Nine(l, p, ic, n)
  {
    if n > 0 {
      ByChannelIsNine(l, p, ic, n - 1);
      ThreeColumns(l, p, ic, n - 1);
      NineNext(l, p, ic, n - 1);
      hide Used, UsedTap, Columns, Nine;
    }
  }

  lemma NineNext(l: Layer, p: Spot, ic: nat, n: nat)
    ensures Nine(l, p, ic, n + 1) == Nine(l, p, ic, n)
       + Used(l, p, ic, 0, 0, n) + Used(l, p, ic, 1, 0, n) + Used(l, p, ic, 2, 0, n)
       + Used(l, p, ic, 0, 1, n) + Used(l, p, ic, 1, 1, n) + Used(l, p, ic, 2, 1, n)
       + Used(l, p, ic, 0, 2, n) + Used(l, p, ic, 1, 2, n) + Used(l, p, ic, 2, 2, n)
  {
    hide Used, UsedTap;
    forall i: nat, j: nat
      ensures UsedTap(l, p, ic, i, j, n + 1) == UsedTap(l, p, ic, i, j, n) + Used(l, p, ic, i, j, n)
    {
      UsedTapNext(l, p, ic, i, j, n);
    }
  }

  lemma ThreeTaps(l: Layer, p: Spot, ic: nat, i: nat)
    ensures RowTaps(l, p, ic, i, 3) == Tap(l, p, ic, i, 0, 8) + Tap(l, p, ic, i, 1, 8) + Tap(l, p, ic, i, 2, 8)
  {
    hide Tap;
    assert RowTaps(l, p, ic, i, 0) == 0;
    assert RowTaps(l, p, ic, i, 1) == Tap(l, p, ic, i, 0, 8);
    assert RowTaps(l, p, ic, i, 2) == RowTaps(l, p, ic, i, 1) + Tap(l, p, ic, i, 1, 8);
  }

  lemma NineIsGroup(l: Layer, p: Spot, ic: nat)
    ensures Nine(l, p, ic, 8) == GroupTaps(l, p, ic, l.End())
  {
    hide Tap, RowTaps;
    ThreeTaps(l, p, ic, 0);
    ThreeTaps(l, p, ic, 1);
    ThreeTaps(l, p, ic, 2);
    assert GroupTaps(l, p, ic, l.Start()) == 0;
    assert GroupTaps(l, p, ic, l.Start() + 1) == RowTaps(l, p, ic, l.Start(), 3);
    assert GroupTaps(l, p, ic, l.Start() + 2) == RowTaps(l, p, ic, l.Start(), 3) + RowTaps(l, p, ic, l.Start() + 1, 3);
  }

  // ----- the scalar kernel

  /** At the left end the first kernel column falls outside, at the right end the last. */
  lemma OutsideIsZero(l: Layer, p: Spot, ic: nat, i: nat, j: nat, c: nat)
    requires p.x - 1 + j < 0 || p.x - 1 + j >= l.iw
    ensures Used(l, p, ic, i, j, c) == 0
  {}

  lemma BorderColumns(l: Layer, p: Spot, ic: nat, c: nat)
    ensures p.x == 0 ==> Columns(l, p, ic, c, 1) == 0
    ensures p.x + 1 == l.iw ==> Columns(l, p, ic, c, 2) == Columns(l, p, ic, c, 3)
  {
    if p.x == 0 {
      OutsideIsZero(l, p, ic, 0, 0, c);
      OutsideIsZero(l, p, ic, 1, 0, c);
      OutsideIsZero(l, p, ic, 2, 0, c);
      assert Columns(l, p, ic, c, 0) == 0;
    }
    if p.x + 1 == l.iw {
      OutsideIsZero(l, p, ic, 0, 2, c);
      OutsideIsZero(l, p, ic, 1, 2, c);
      OutsideIsZero(l, p, ic, 2, 2, c);
    }
  }

  /** The weights of a used position lie in their buffer. */
  lemma WeightsFit(l: Layer, g: nat, ic: nat, i: nat, j: nat)
    requires g < l.ocs / 8 && ic < l.Groups() && i < 3 && j < 3
    ensures 0 <= l.Weights(g, ic, i, j) && l.Weights(g, ic, i, j) + 64 <= l.Weights(l.ocs / 8, 0, 0, 0)
  {
    var k, n, m := g + l.channelOffset / 8, l.Groups(), l.ocs / 8 + l.channelOffset / 8;
    assert (k + 1) * n == k * n + n;
    MulMono(k + 1, m, n);
  }

  /** The pixels of a used line lie in its buffer. */
  lemma PixelsFit(l: Layer, ic: nat, x: nat, n: nat)
    requires ic < l.Groups() && x + n <= l.iw
    ensures 0 <= ic * (l.iw * 8) && ic * (l.iw * 8) + x * 8 + n * 8 <= l.Groups() * (l.iw * 8)
  {
    assert (ic + 1) * (l.iw * 8) == ic * (l.iw * 8) + l.iw * 8;
    MulMono(ic + 1, l.Groups(), l.iw * 8);
  }

  /** One product of the scalar loops, with the bounds of its accesses. */
  method ScalarProduct(l: Layer, p: Spot, ic: nat, i: nat, ki: nat, ic8: nat, sum: int) returns (sum': int)
    requires l.Fits(l.ocs / 8 * (l.iw * 8), 0) && p.g < l.ocs / 8 && p.o < 8 && ic < l.Groups() && ic8 < 8 && ki < 3
    requires l.Start() <= i < l.End() && 0 <= p.x - 1 + ki < l.iw
    ensures sum' == sum + Used(l, p, ic, i, ki, ic8)
  {
    WeightsFit(l, p.g, ic, i, ki);
    PixelsFit(l, ic, p.x - 1 + ki, 1);
    IndexIsRead(l.iw, ic, p.x - 1 + ki, ic8);
    var val := l.lines[i][(p.x - 1 + ki) * 8 + (ic * (l.iw * 8) + ic8)];
    sum' := sum + val * l.wts[l.Weights(p.g, ic, i, ki) + p.o + ic8 * 8];
  }

  lemma MissingLine(l: Layer, p: Spot, ic: nat, j: nat, c: nat)
    ensures l.region.Top? ==> Used(l, p, ic, 0, j, c) == 0
    ensures l.region.Bottom? ==> Used(l, p, ic, 2, j, c) == 0
  {}

  /** The loop over kernel columns, from `lo` up to `hi`. */
  method ScalarColumns(l: Layer, p: Spot, ic: nat, ic8: nat, lo: nat, hi: nat, sum: int) returns (sum': int)
    requires l.Fits(l.ocs / 8 * (l.iw * 8), 0) && p.g < l.ocs / 8 && p.o < 8 && p.x < l.iw && ic < l.Groups() && ic8 < 8
    requires lo == (if p.x == 0 then 1 else 0) && hi == (if p.x + 1 == l.iw then 2 else 3) && l.iw >= 2
    ensures sum' == sum + Columns(l, p, ic, ic8, 3)
  {
    hide Used, Product, l.Fits;
    sum' := sum;
    var ki := lo;
    BorderColumns(l, p, ic, ic8);
    while ki < hi
      invariant lo <= ki <= hi
      invariant sum' == sum + Columns(l, p, ic, ic8, ki)
    {
      MissingLine(l, p, ic, ki, ic8);
      if !l.region.Top? {
        sum' := ScalarProduct(l, p, ic, 0, ki, ic8, sum');
      }
      sum' := ScalarProduct(l, p, ic, 1, ki, ic8, sum');
      if !l.region.Bottom? {
        sum' := ScalarProduct(l, p, ic, 2, ki, ic8, sum');
      }
      ki := ki + 1;
    }
  }

  /** The three loops of one output value; left end, right end and the pixels between differ in `lo` and `hi`. */
  method ScalarPixel(l: Layer, p: Spot, lo: nat, hi: nat) returns (v: int)
    requires l.Fits(l.ocs / 8 * (l.iw * 8), 0) && p.g < l.ocs / 8 && p.o < 8 && p.x < l.iw && l.scale >= 1
    requires lo == (if p.x == 0 then 1 else 0) && hi == (if p.x + 1 == l.iw then 2 else 3) && l.iw >= 2
    ensures v == Result(l)(p)
  {
    hide Columns, GroupTaps, AddShift, ShiftRound, l.Fits;
    var sum := 0;
    var ic := 0;
    while ic < l.ics / 8
      invariant 0 <= ic <= l.Groups() && sum == Taps(l, p, ic)
    {
      ghost var before := sum;
      var ic8 := 0;
      while ic8 < 8
        invariant 0 <= ic8 <= 8 && sum == before + ByChannel(l, p, ic, ic8)
      {
        sum := ScalarColumns(l, p, ic, ic8, lo, hi, sum);
        ic8 := ic8 + 1;
      }
      ByChannelIsNine(l, p, ic, 8);
      NineIsGroup(l, p, ic);
      ic := ic + 1;
    }
    ShiftsAgree(sum, l.scale);
    v := AddShift(sum, l.scale);
    v := if v > 255 then 255 else if v < 0 then 0 else v;
  }

  /** Earlier groups and channels, and of channel `o` of group `g` the first `ends` of the ends and pixels 1 .. x. */
  ghost function ScalarDone(iw: nat, g: nat, o: nat, ends: nat, x: nat): Spots {
    (p: Spot) => p.g < g || (p.g == g && (p.o < o || (p.o == o &&
      ((p.x == 0 && ends >= 1) || (p.x + 1 == iw && ends >= 2) || 1 <= p.x < x))))
  }

  method StoreScalar(l: Layer, output: array<int>, p: Spot, v: int, ghost done: Spots, ghost done': Spots,
                     ghost out0: seq<int>)
    requires l.ocs / 8 * (l.iw * 8) <= output.Length && p.g < l.ocs / 8 && p.x < l.iw && p.o < 8 && v == Result(l)(p)
    requires Filled(Result(l), l.iw * 8, l.iw, out0, output[..], done)
    requires forall q: Spot | q.o < 8 :: done'(q) <==> done(q) || q == p
    modifies output
    ensures Filled(Result(l), l.iw * 8, l.iw, out0, output[..], done')
  {
    hide Filled, Result;
    assert (p.g + 1) * (l.iw * 8) == p.g * (l.iw * 8) + l.iw * 8;
    MulMono(p.g + 1, l.ocs / 8, l.iw * 8);
    PlaceFilled(Result(l), l.iw * 8, l.iw, out0, output[..], done, done', p.g, p.x, p.o, v);
    StoreV(output, p.g * (l.iw * 8) + p.x * 8 + p.o, [v]);
  }

  /** One output channel: left end, right end, then the pixels between. */
  method ScalarChannel(l: Layer, output: array<int>, oc: nat, oc8: nat, ghost out0: seq<int>)
    requires l.Fits(output.Length, 0) && oc < l.ocs / 8 && oc8 < 8 && l.iw >= 2 && l.scale >= 1
    requires Filled(Result(l), l.iw * 8, l.iw, out0, output[..], ScalarDone(l.iw, oc, oc8, 0, 1))
    modifies output
    ensures Filled(Result(l), l.iw * 8, l.iw, out0, output[..], ScalarDone(l.iw, oc, oc8 + 1, 0, 1))
  {
    hide Filled, Result;
    var v := ScalarPixel(l, Spot(oc, 0, oc8), 1, 3);
    StoreScalar(l, output, Spot(oc, 0, oc8), v, ScalarDone(l.iw, oc, oc8, 0, 1), ScalarDone(l.iw, oc, oc8, 1, 1), out0);
    v := ScalarPixel(l, Spot(oc, l.iw - 1, oc8), 0, 2);
    StoreScalar(l, output, Spot(oc, l.iw - 1, oc8), v,
      ScalarDone(l.iw, oc, oc8, 1, 1), ScalarDone(l.iw, oc, oc8, 2, 1), out0);
    var x := 1;
    while x < l.iw - 1
      invariant 1 <= x <= l.iw - 1
      invariant Filled(Result(l), l.iw * 8, l.iw, out0, output[..], ScalarDone(l.iw, oc, oc8, 2, x))
    {
      v := ScalarPixel(l, Spot(oc, x, oc8), 0, 3);
      StoreScalar(l, output, Spot(oc, x, oc8), v,
        ScalarDone(l.iw, oc, oc8, 2, x), ScalarDone(l.iw, oc, oc8, 2, x + 1), out0);
      x := x + 1;
    }
    FilledSame(Result(l), l.iw * 8, l.iw, out0, output[..],
      ScalarDone(l.iw, oc, oc8, 2, x), ScalarDone(l.iw, oc, oc8 + 1, 0, 1));
  }

  method Conv2dk3Scalar(l: Layer, output: array<int>)
    requires l.Fits(output.Length, 0) && l.iw >= 2 && l.scale >= 1
    modifies output
    ensures Written(Result(l), l.iw * 8, l.iw, old(output[..]), output[..], l.ocs / 8, 0)
  {
    ghost var out0 := output[..];
    NothingFilled(Result(l), l.iw * 8, l.iw, out0, ScalarDone(l.iw, 0, 0, 0, 1));
    hide Filled, Result, l.Fits;
    var oc := 0;
    while oc < l.ocs / 8
      invariant 0 <= oc <= l.ocs / 8
      invariant Filled(Result(l), l.iw * 8, l.iw, out0, output[..], ScalarDone(l.iw, oc, 0, 0, 1))
    {
      var oc8 := 0;
      while oc8 < 8
        invariant 0 <= oc8 <= 8
        invariant Filled(Result(l), l.iw * 8, l.iw, out0, output[..], ScalarDone(l.iw, oc, oc8, 0, 1))
      {
        ScalarChannel(l, output, oc, oc8, out0);
        oc8 := oc8 + 1;
      }
      FilledSame(Result(l), l.iw * 8, l.iw, out0, output[..],
        ScalarDone(l.iw, oc, 8, 0, 1), ScalarDone(l.iw, oc + 1, 0, 0, 1));
      oc := oc + 1;
    }
    AllFilled(Result(l), l.iw * 8, l.iw, out0, output[..], ScalarDone(l.iw, oc, 0, 0, 1), l.ocs / 8);
  }

  /** The place of a value in its line. */
  function IndexOf(iw: nat, ic: nat, x: int, ic8: nat): int { (ic * iw + x) * 8 + ic8 }

  /** What the last pixel needs from kernel column `ki` does not lie before the line. */
  predicate RightInside(l: Layer, ic: nat, ki: nat, ic8: nat) { IndexOf(l.iw, ic, l.iw - 2 + ki, ic8) >= 0 }

  predicate RightEndInside(l: Layer) {
    forall ic: nat, ki: nat, ic8: nat | ic < l.ics / 8 && ki < 2 && ic8 < 8 :: RightInside(l, ic, ki, ic8)
  }

  lemma IndexIsRead(iw: nat, ic: nat, x: int, ic8: nat)
    ensures IndexOf(iw, ic, x, ic8) == x * 8 + (ic * (iw * 8) + ic8)
  {}

  /** On lines of fewer than two pixels the right end reads before the line. */
  lemma LinesNeedTwoPixelsIff(l: Layer)
    requires l.Groups() > 0
    ensures RightEndInside(l) <==> l.iw >= 2
  {
    if RightEndInside(l) {
      assert RightInside(l, 0, 0, 0);
    } else {
      var ic: nat, ki: nat, ic8: nat :| ic < l.ics / 8 && ki < 2 && ic8 < 8 && !RightInside(l, ic, ki, ic8);
      MulMono(0, ic, l.iw);
    }
  }

  // ----- sizes

  predicate Bytes(l: Layer) {
    (forall i :: 0 <= i < |l.lines| ==> IsUint8(l.lines[i])) && IsInt8(l.wts)
  }

  lemma {:induction false} TapBound(l: Layer, p: Spot, ic: nat, i: nat, j: nat, n: nat)
    requires Bytes(l)
    ensures -32640 * n <= Tap(l, p, ic, i, j, n) <= 32640 * n
  {
    if n > 0 {
      TapBound(l, p, ic, i, j, n - 1);
      ProductBound(Pixel(l, i, ic, p.x - 1 + j, n - 1), At(l.wts, l.Weights(p.g, ic, i, j) + p.o + (n - 1) * 8));
    }
  }

  lemma {:induction false} RowBound(l: Layer, p: Spot, ic: nat, i: nat, n: nat)
    requires Bytes(l)
    ensures -261120 * n <= RowTaps(l, p, ic, i, n) <= 261120 * n
  {
    if n > 0 {
      RowBound(l, p, ic, i, n - 1);
      TapBound(l, p, ic, i, n - 1, 8);
      hide Tap;
    }
  }

  lemma {:induction false} GroupBound(l: Layer, p: Spot, ic: nat, i: nat)
    requires Bytes(l)
    ensures -783360 * i <= GroupTaps(l, p, ic, i) <= 783360 * i
  {
    if i > l.Start() {
      GroupBound(l, p, ic, i - 1);
      RowBound(l, p, ic, i - 1, 3);
      hide RowTaps;
    }
  }

  lemma {:induction false} TapsBound(l: Layer, p: Spot, n: nat)
    requires Bytes(l)
    ensures -2350080 * n <= Taps(l, p, n) <= 2350080 * n
  {
    if n > 0 {
      TapsBound(l, p, n - 1);
      GroupBound(l, p, n - 1, l.End());
      hide GroupTaps;
    }
  }

  /** With at most 913 groups of input channels no sum on the way leaves 32 bits. */
  lemma AccumulatorFits(l: Layer, p: Spot, ic: nat, i: nat, j: nat)
    requires Bytes(l) && l.Groups() <= 913 && ic < l.Groups() && i < l.End() && j <= 3
    ensures -0x8000_0000 <= Partial(l, p, ic, i, j) < 0x8000_0000
  {
    TapsBound(l, p, ic);
    GroupBound(l, p, ic, i);
    RowBound(l, p, ic, i, j);
    hide Taps, GroupTaps, RowTaps;
  }
}
