/** The vector form of the 3x3 convolution for lines of 32 pixels: left, middle and right section, shuffled windows and
    pointers that are reset again and again. */
module Conv3x3Vector {
  import opened Indexing
  import opened Matrices
  import opened VectorUnit
  import opened Bits
  import opened Convolution
  import opened Conv3x3

  // ----- shuffles

  /** Shifts towards the front; what comes in at the back is unspecified. */
  method ShuffleDown(v: seq<int>, n: nat) returns (w: seq<int>)
    requires n <= |v|
    ensures |w| == |v| && w[..|v| - n] == v[n..]
  {
    w := v[n..] + v[..n];
  }

  /** Shifts towards the back; the end of `fill` comes in at the front. */
  function ShuffleUpFill(v: seq<int>, fill: seq<int>, n: nat): seq<int>
    requires n <= |v| && n <= |fill|
  {
    fill[|fill| - n..] + v[..|v| - n]
  }

  /** Shifts towards the front; the start of `fill` comes in at the back. */
  function ShuffleDownFill(v: seq<int>, fill: seq<int>, n: nat): seq<int>
    requires n <= |v| && n <= |fill|
  {
    v[n..] + fill[..n]
  }

  /** Replaces the upper half of a vector of 64. */
  function InsertUpper(v: seq<int>, u: seq<int>): seq<int>
    requires |v| == 64 && |u| == 32
  {
    v[..32] + u
  }

  function ZeroVector(n: nat): seq<int> { seq(n, _ => 0) }

  // ----- what a vector holds

  /** The vector starts with the pixels `x .. x + n` of line `i`. */
  ghost predicate Holds(l: Layer, i: nat, ic: nat, x: int, n: nat, v: seq<int>) {
    n * 8 <= |v| && forall k: nat :: k < n * 8 ==> v[k] == Pixel(l, i, ic, x + k / 8, k % 8)
  }

  lemma HoldsPart(l: Layer, i: nat, ic: nat, x: int, n: nat, v: seq<int>, p: nat, m: nat, w: seq<int>)
    requires Holds(l, i, ic, x, n, v) && p + m <= n && m * 8 <= |w| && w[..m * 8] == v[p * 8..(p + m) * 8]
    ensures Holds(l, i, ic, x + p, m, w)
  {
    hide Pixel;
    forall k: nat | k < m * 8 ensures w[k] == Pixel(l, i, ic, x + p + k / 8, k % 8) {
      assert w[k] == w[..m * 8][k] && v[p * 8..(p + m) * 8][k] == v[p * 8 + k];
      assert (p * 8 + k) / 8 == p + k / 8 && (p * 8 + k) % 8 == k % 8;
    }
  }

  lemma HoldsJoin(l: Layer, i: nat, ic: nat, x: int, n: nat, v: seq<int>, m: nat, w: seq<int>)
    requires Holds(l, i, ic, x, n, v) && Holds(l, i, ic, x + n, m, w) && |v| == n * 8
    ensures Holds(l, i, ic, x, n + m, v + w)
  {
    hide Pixel;
    forall k: nat | k < (n + m) * 8 ensures (v + w)[k] == Pixel(l, i, ic, x + k / 8, k % 8) {
      if k >= n * 8 {
        var k' := k - n * 8;
        assert (v + w)[k] == w[k'];
        assert k / 8 == n + k' / 8 && k % 8 == k' % 8;
      }
    }
  }

  lemma HoldsLoaded(l: Layer, i: nat, ic: nat, x: nat)
    requires i < |l.lines| && x + 4 <= l.iw && ic * (l.iw * 8) + x * 8 + 32 <= |l.lines[i]|
    ensures ic * (l.iw * 8) >= 0 && Holds(l, i, ic, x, 4, LoadV(l.lines[i], ic * (l.iw * 8) + x * 8, 32))
  {
    forall k: nat | k < 32
      ensures LoadV(l.lines[i], ic * (l.iw * 8) + x * 8, 32)[k] == Pixel(l, i, ic, x + k / 8, k % 8)
    {
      assert (x + k / 8) * 8 + k % 8 == x * 8 + k;
    }
  }

  lemma HoldsZeros(l: Layer, i: nat, ic: nat, x: int, n: nat)
    requires x + n <= 0 || l.iw <= x
    ensures Holds(l, i, ic, x, n, ZeroVector(n * 8))
  {}

  // ----- one multiply-accumulate

  /** The accumulator holds the sums of pixels `x .. x + 4` of group `g`, up to position `(i, j)` of group `ic`. */
  ghost predicate Summed(l: Layer, g: nat, x: nat, ic: nat, i: nat, j: nat, acc: seq<int>) {
    |acc| == 32 && forall e: nat :: e < 32 ==> acc[e] == Partial(l, Spot(g, x + e / 8, e % 8), ic, i, j)
  }

  /** Eight channels of a window times eight weights are one tap. */
  lemma {:induction false} ChannelsAreTap(l: Layer, p: Spot, ic: nat, i: nat, j: nat, v: seq<int>, y: nat,
                                          w: seq<int>, n: nat)
    requires n <= 8 && y + 8 <= |v| && p.o < 8 && |w| == 64
    requires forall c: nat :: c < 8 ==> Channel(v, y, c) == Pixel(l, i, ic, p.x - 1 + j, c)
    requires forall c: nat :: c < 8 ==> Weight(w, p.o, c) == Weight(l.wts, l.Weights(p.g, ic, i, j) + p.o, c)
    ensures Channels(v, y, w, p.o, n) == Tap(l, p, ic, i, j, n)
  {
    if n > 0 {
      hide Pixel, l.Weights;
      ChannelsAreTap(l, p, ic, i, j, v, y, w, n - 1);
      assert Channel(v, y, n - 1) == Pixel(l, i, ic, p.x - 1 + j, n - 1);
      assert Weight(w, p.o, n - 1) == Weight(l.wts, l.Weights(p.g, ic, i, j) + p.o, n - 1);
    }
  }

  lemma WindowElement(l: Layer, i: nat, ic: nat, x: int, v: seq<int>, e: nat, c: nat)
    requires Holds(l, i, ic, x, 4, v) && e < 32 && c < 8
    ensures Channel(v, (e / 8) * 8, c) == Pixel(l, i, ic, x + e / 8, c)
  {
    hide Pixel;
    var k := (e / 8) * 8 + c;
    assert k / 8 == e / 8 && k % 8 == c;
  }

  lemma WeightElement(wts: seq<int>, q: nat, o: nat, c: nat)
    requires q + 64 <= |wts| && o < 8 && c < 8
    ensures Weight(LoadV(wts, q, 64), o, c) == Weight(wts, q + o, c)
  {}

  lemma MacAddsTap(l: Layer, g: nat, x: nat, ic: nat, i: nat, j: nat, acc: seq<int>, v: seq<int>, w: seq<int>)
    requires Summed(l, g, x, ic, i, j, acc) && |v| == 32 && Holds(l, i, ic, x - 1 + j, 4, v)
    requires l.Weights(g, ic, i, j) + 64 <= |l.wts| && w == LoadV(l.wts, l.Weights(g, ic, i, j), 64)
    ensures Summed(l, g, x, ic, i, j + 1, Mac(4, 8, 8, acc, v, w))
  {
    forall e: nat | e < 32
      ensures Mac(4, 8, 8, acc, v, w)[e] == Partial(l, Spot(g, x + e / 8, e % 8), ic, i, j + 1)
    {
      MacElementAdds(l, g, x, ic, i, j, acc, v, w, e);
    }
  }

  lemma MacElementAdds(l: Layer, g: nat, x: nat, ic: nat, i: nat, j: nat, acc: seq<int>, v: seq<int>, w: seq<int>,
                       e: nat)
    requires Summed(l, g, x, ic, i, j, acc) && |v| == 32 && Holds(l, i, ic, x - 1 + j, 4, v) && e < 32
    requires l.Weights(g, ic, i, j) + 64 <= |l.wts| && w == LoadV(l.wts, l.Weights(g, ic, i, j), 64)
    ensures Mac(4, 8, 8, acc, v, w)[e] == Partial(l, Spot(g, x + e / 8, e % 8), ic, i, j + 1)
  {
    var p := Spot(g, x + e / 8, e % 8);
    MacElement(acc, v, w, e);
    WindowIsTap(l, g, x, ic, i, j, v, w, e);
    hide Holds, Pixel, l.Weights, Mac, Channels, Tap;
    assert RowTaps(l, p, ic, i, j + 1) == RowTaps(l, p, ic, i, j) + Tap(l, p, ic, i, j, 8);
    assert acc[e] == Partial(l, p, ic, i, j);
  }

  lemma WindowIsTap(l: Layer, g: nat, x: nat, ic: nat, i: nat, j: nat, v: seq<int>, w: seq<int>, e: nat)
    requires |v| == 32 && Holds(l, i, ic, x - 1 + j, 4, v) && e < 32
    requires l.Weights(g, ic, i, j) + 64 <= |l.wts| && w == LoadV(l.wts, l.Weights(g, ic, i, j), 64)
    ensures Channels(v, (e / 8) * 8, w, e % 8, 8) == Tap(l, Spot(g, x + e / 8, e % 8), ic, i, j, 8)
  {
    hide Holds, Pixel, l.Weights, Channels, Tap, Channel, Weight;
    var p := Spot(g, x + e / 8, e % 8);
    forall c: nat | c < 8
      ensures Channel(v, (e / 8) * 8, c) == Pixel(l, i, ic, p.x - 1 + j, c)
      ensures Weight(w, p.o, c) == Weight(l.wts, l.Weights(g, ic, i, j) + p.o, c)
    {
      WindowElement(l, i, ic, x - 1 + j, v, e, c);
      WeightElement(l.wts, l.Weights(g, ic, i, j), p.o, c);
    }
    ChannelsAreTap(l, p, ic, i, j, v, (e / 8) * 8, w, 8);
  }

  lemma SummedNextRow(l: Layer, g: nat, x: nat, ic: nat, i: nat, acc: seq<int>)
    requires Summed(l, g, x, ic, i, 3, acc) && l.Start() <= i
    ensures Summed(l, g, x, ic, i + 1, 0, acc)
  {
    hide RowTaps, Taps;
    forall p: Spot ensures Partial(l, p, ic, i, 3) == Partial(l, p, ic, i + 1, 0) {
      NextRow(l, p, ic, i);
    }
  }

  lemma NextRow(l: Layer, p: Spot, ic: nat, i: nat)
    requires l.Start() <= i
    ensures Partial(l, p, ic, i, 3) == Partial(l, p, ic, i + 1, 0)
  {
    hide Taps, Tap;
    assert RowTaps(l, p, ic, i + 1, 0) == 0;
    assert GroupTaps(l, p, ic, i + 1) == GroupTaps(l, p, ic, i) + RowTaps(l, p, ic, i, 3);
  }

  lemma SummedNextGroup(l: Layer, g: nat, x: nat, ic: nat, acc: seq<int>)
    requires Summed(l, g, x, ic, l.End(), 0, acc)
    ensures Summed(l, g, x, ic + 1, l.Start(), 0, acc)
  {
    forall p: Spot ensures Partial(l, p, ic, l.End(), 0) == Partial(l, p, ic + 1, l.Start(), 0) {
      NextGroupOf(l, p, ic);
    }
    hide Partial;
  }

  lemma NextGroupOf(l: Layer, p: Spot, ic: nat)
    ensures Partial(l, p, ic, l.End(), 0) == Partial(l, p, ic + 1, l.Start(), 0)
  {
    hide Tap;
    assert Taps(l, p, ic + 1) == Taps(l, p, ic) + GroupTaps(l, p, ic, l.End());
    assert GroupTaps(l, p, ic + 1, l.Start()) == 0;
    assert RowTaps(l, p, ic + 1, l.Start(), 0) == 0 && RowTaps(l, p, ic, l.End(), 0) == 0;
  }

  lemma SummedNothing(l: Layer, g: nat, x: nat)
    ensures Summed(l, g, x, 0, l.Start(), 0, ZeroVector(32))
  {
    forall p: Spot ensures Partial(l, p, 0, l.Start(), 0) == 0 {
      assert Taps(l, p, 0) == 0 && GroupTaps(l, p, 0, l.Start()) == 0 && RowTaps(l, p, 0, l.Start(), 0) == 0;
    }
    hide Partial;
  }

  /** A finished accumulator, rounded and saturated, is the result. */
  lemma SummedIsResult(l: Layer, g: nat, x: nat, acc: seq<int>)
    requires Summed(l, g, x, l.Groups(), l.Start(), 0, acc)
    ensures forall e :: 0 <= e < 32 ==> VectorToUint8(acc, l.scale)[e] == Result(l)(Spot(g, x + e / 8, e % 8))
  {
    forall p: Spot ensures Partial(l, p, l.Groups(), l.Start(), 0) == Taps(l, p, l.Groups()) {
      assert GroupTaps(l, p, l.Groups(), l.Start()) == 0 && RowTaps(l, p, l.Groups(), l.Start(), 0) == 0;
    }
    hide Partial, Taps, ToUint8;
  }

  /** Line 32 wide, with room for the prefetch behind the pixels. */
  ghost predicate Ready(l: Layer, out: nat) { l.iw == 32 && l.Fits(out, 32) }

  /** Three taps of one row, the window moving on by a pixel each time. */
  method MacRow(l: Layer, ghost out: nat, i: nat, ghost g: nat, ghost ic: nat, ghost x: nat, window: seq<int>,
                wp: int, acc: seq<int>)
    returns (acc': seq<int>, wp': int)
    requires Ready(l, out) && l.Start() <= i < l.End() && g < l.ocs / 8 && ic < l.Groups()
    requires |window| == 64 && Holds(l, i, ic, x - 1, 6, window)
    requires wp == l.Weights(g, ic, i, 0) && Summed(l, g, x, ic, i, 0, acc)
    ensures Summed(l, g, x, ic, i + 1, 0, acc') && wp' == wp + 192
  {
    hide Holds, Summed, Mac;
    acc', wp' := acc, wp;
    var inA := window;
    var j := 0;
    while j < 3
      invariant 0 <= j <= 3 && wp' == wp + j * 64 && |inA| == 64
      invariant Holds(l, i, ic, x - 1 + j, 6 - j, inA)
      invariant Summed(l, g, x, ic, i, j, acc')
    {
      WeightsFit(l, g, ic, i, j);
      NextWeights(l, g, ic, i, j);
      var inB := LoadV(l.wts, wp', 64);
      wp' := wp' + 64;
      HoldsPart(l, i, ic, x - 1 + j, 6 - j, inA, 0, 4, inA[..32]);
      MacAddsTap(l, g, x, ic, i, j, acc', inA[..32], inB);
      acc' := Mac(4, 8, 8, acc', inA[..32], inB);
      ghost var before := inA;
      inA := ShuffleDown(inA, 8);
      assert inA[..56][..(5 - j) * 8] == before[8..][..(5 - j) * 8];
      HoldsPart(l, i, ic, x - 1 + j, 6 - j, before, 1, 5 - j, inA);
      j := j + 1;
    }
    SummedNextRow(l, g, x, ic, i, acc');
  }

  lemma NextWeights(l: Layer, g: nat, ic: nat, i: nat, j: nat)
    ensures l.Weights(g, ic, i, j) == l.Weights(g, ic, i, 0) + j * 64
    ensures l.Weights(g, ic + 1, i, 0) == l.Weights(g, ic, i, 0) + 576
    ensures l.Weights(g, l.Groups(), i, 0) == l.Weights(g + 1, 0, i, 0)
  {
    var k, n := g + l.channelOffset / 8, l.Groups();
    assert (k + 1) * n == k * n + n;
  }

  // ----- windows of the three sections

  /** At the left end the window starts one pixel outside. */
  method LeftWindow(l: Layer, ghost out: nat, i: nat, ghost ic: nat, line: int) returns (inA: seq<int>, line': int)
    requires Ready(l, out) && l.Start() <= i < l.End() && ic < l.Groups() && line == ic * (l.iw * 8)
    ensures |inA| == 64 && Holds(l, i, ic, -1, 8, inA) && line' == line + 32
  {
    PixelsFit(l, ic, 0, 8);
    hide Holds;
    var tmpA1 := LoadV(l.lines[i], line, 32);
    line' := line + 32;
    var tmpA2 := LoadV(l.lines[i], line', 32);
    HoldsLoaded(l, i, ic, 0);
    HoldsLoaded(l, i, ic, 4);
    HoldsJoin(l, i, ic, 0, 4, tmpA1, 4, tmpA2);
    inA := tmpA1 + tmpA2;
    HoldsPart(l, i, ic, 0, 8, inA, 0, 7, inA[..56]);
    HoldsZeros(l, i, ic, -1, 1);
    HoldsJoin(l, i, ic, -1, 1, ZeroVector(8), 7, inA[..56]);
    assert ShuffleUpFill(inA, ZeroVector(64), 8) == ZeroVector(8) + inA[..56];
    inA := ShuffleUpFill(inA, ZeroVector(64), 8);
  }

  /** At the right end it ends three pixels outside. */
  method RightWindow(l: Layer, ghost out: nat, i: nat, ghost ic: nat, line: int) returns (inA: seq<int>)
    requires Ready(l, out) && l.Start() <= i < l.End() && ic < l.Groups() && line == ic * (l.iw * 8) + 224
    ensures |inA| == 64 && Holds(l, i, ic, 27, 8, inA)
  {
    PixelsFit(l, ic, 24, 8);
    hide Holds;
    var tmpA1 := LoadV(l.lines[i], line - 32, 32);
    var tmpA2 := LoadV(l.lines[i], line, 32);
    HoldsLoaded(l, i, ic, 24);
    HoldsLoaded(l, i, ic, 28);
    HoldsJoin(l, i, ic, 24, 4, tmpA1, 4, tmpA2);
    inA := tmpA1 + tmpA2;
    HoldsPart(l, i, ic, 24, 8, inA, 3, 5, inA[24..]);
    HoldsZeros(l, i, ic, 32, 3);
    HoldsJoin(l, i, ic, 27, 5, inA[24..], 3, ZeroVector(24));
    assert ShuffleDownFill(inA, ZeroVector(64), 24) == inA[24..] + ZeroVector(24);
    inA := ShuffleDownFill(inA, ZeroVector(64), 24);
  }

  /** How many pixels of the window are good between two multiply-accumulates. */
  function Good(j: nat): nat { if j == 0 then 5 else if j == 1 then 4 else 7 }

  /** In the middle, the first window for kernel column `j`. */
  method FirstWindow(l: Layer, ghost out: nat, i: nat, j: nat, ghost ic: nat, line: int)
    returns (tmp1: seq<int>, line': int)
    requires Ready(l, out) && l.Start() <= i < l.End() && ic < l.Groups() && j < 3 && line == ic * (l.iw * 8) + 32
    ensures |tmp1| == 64 && Holds(l, i, ic, 3 + j, Good(j), tmp1) && line' == line + 32
  {
    PixelsFit(l, ic, 0, 12);
    hide Holds;
    var prev := LoadV(l.lines[i], line - 32, 32);
    var curr := LoadV(l.lines[i], line, 32);
    line' := line + 32;
    var next := LoadV(l.lines[i], line', 32);
    var tprev := ZeroVector(32) + prev;
    tmp1 := curr + next;
    HoldsLoaded(l, i, ic, 0);
    HoldsLoaded(l, i, ic, 4);
    HoldsLoaded(l, i, ic, 8);
    HoldsJoin(l, i, ic, 4, 4, curr, 4, next);
    var jr0, j0 := (2 - j) / 2, j / 2;
    ghost var both := tmp1;
    tmp1 := ShuffleUpFill(tmp1, tprev, jr0 * 8);
    ghost var shifted := tmp1;
    tmp1 := ShuffleDown(tmp1, j0 * 8);
    ShiftedWindow(l, i, ic, j, prev, both, tprev, shifted, tmp1);
  }

  lemma ShiftedWindow(l: Layer, i: nat, ic: nat, j: nat, prev: seq<int>, both: seq<int>, tprev: seq<int>,
                      shifted: seq<int>, v: seq<int>)
    requires j < 3 && |prev| == 32 && Holds(l, i, ic, 0, 4, prev) && |both| == 64 && Holds(l, i, ic, 4, 8, both)
    requires tprev == ZeroVector(32) + prev
    requires shifted == ShuffleUpFill(both, tprev, (2 - j) / 2 * 8)
    requires |v| == 64 && v[..64 - j / 2 * 8] == shifted[j / 2 * 8..]
    ensures Holds(l, i, ic, 3 + j, Good(j), v)
  {
    hide Holds;
    if j == 0 {
      HoldsPart(l, i, ic, 0, 4, prev, 3, 1, prev[24..]);
      HoldsPart(l, i, ic, 4, 8, both, 0, 7, both[..56]);
      HoldsJoin(l, i, ic, 3, 1, prev[24..], 7, both[..56]);
      assert v == shifted == prev[24..] + both[..56];
      HoldsPart(l, i, ic, 3, 8, shifted, 0, 5, v);
    } else {
      assert shifted == both;
      if j == 1 {
        assert v == both;
        HoldsPart(l, i, ic, 4, 8, both, 0, 4, v);
      } else {
        assert v[..7 * 8] == both[1 * 8..(1 + 7) * 8];
        HoldsPart(l, i, ic, 4, 8, both, 1, 7, v);
      }
    }
  }

  /** The window for the next four pixels: shift, load the pixels behind into the upper half, shift again. */
  lemma WindowMoves(l: Layer, i: nat, ic: nat, x: nat, j: nat, v: seq<int>, v1: seq<int>, u: seq<int>, v3: seq<int>)
    requires j < 3 && |v| == |v1| == |v3| == 64 && |u| == 32
    requires Holds(l, i, ic, 3 + x * 4 + j, Good(j), v) && Holds(l, i, ic, 8 + x * 4 + j / 2 * 4, 4, u)
    requires v1[..64 - (j + 1) * 8] == v[(j + 1) * 8..]
    requires v3[..64 - (j + 3 - j / 2 * 4) * 8] == InsertUpper(v1, u)[(j + 3 - j / 2 * 4) * 8..]
    ensures Holds(l, i, ic, 3 + (x + 1) * 4 + j, Good(j), v3)
  {
    hide Holds;
    var v2 := InsertUpper(v1, u);
    if j == 1 {
      assert v3[..32] == v2[32..] == u;
      HoldsPart(l, i, ic, 8 + x * 4, 4, u, 0, 4, v3);
    } else {
      var s := j + 1;
      assert v1[..32] == v1[..64 - s * 8][..32] == v[s * 8..][..32];
      HoldsPart(l, i, ic, 3 + x * 4 + j, Good(j), v, s, 4, v1[..32]);
      HoldsJoin(l, i, ic, 3 + x * 4 + j + s, 4, v1[..32], 4, u);
      var d := j + 3 - j / 2 * 4;
      assert v3[..Good(j) * 8] == v2[d * 8..];
      HoldsPart(l, i, ic, 3 + x * 4 + j + s, 8, v2, d, Good(j), v3);
    }
  }

  /** The shuffles between two multiply-accumulates. The last prefetch of column 2 reads behind the line; nothing is
      said about what it finds. */
  method NextWindow(l: Layer, ghost out: nat, i: nat, j: nat, ghost ic: nat, ghost x: nat, window: seq<int>, line: int)
    returns (tmp1: seq<int>, line': int)
    requires Ready(l, out) && l.Start() <= i < l.End() && ic < l.Groups() && j < 3 && x < 6
    requires line == ic * (l.iw * 8) + 64 + x * 32
    requires |window| == 64 && Holds(l, i, ic, 3 + x * 4 + j, Good(j), window)
    ensures |tmp1| == 64 && (x < 5 ==> Holds(l, i, ic, 3 + (x + 1) * 4 + j, Good(j), tmp1)) && line' == line + 32
  {
    PixelsFit(l, ic, 0, 32);
    hide Holds;
    var j1, j2, lineIncr := j + 1, j + 3 - j / 2 * 4, j / 2 * 32;
    var v1 := ShuffleDown(window, j1 * 8);
    var u := LoadV(l.lines[i], line + lineIncr, 32);
    line' := line + 32;
    tmp1 := ShuffleDown(InsertUpper(v1, u), j2 * 8);
    if x < 5 {
      HoldsLoaded(l, i, ic, 8 + x * 4 + j / 2 * 4);
      WindowMoves(l, i, ic, x, j, window, v1, u, tmp1);
    }
  }

  /** The accumulators of the six middle vectors; the first `n` have one tap more. */
  ghost predicate SixSummed(l: Layer, g: nat, ic: nat, i: nat, j: nat, n: nat, accs: seq<seq<int>>) {
    |accs| == 8 && forall y: nat :: y < 6 ==> Summed(l, g, 4 + y * 4, ic, i, if y < n then j + 1 else j, accs[y])
  }

  /** One kernel position for the six middle vectors. */
  method MiddleTap(l: Layer, ghost out: nat, i: nat, j: nat, ghost g: nat, ghost ic: nat, wtsVec: seq<int>, line: int,
                   accs: seq<seq<int>>)
    returns (accs': seq<seq<int>>, line': int)
    requires Ready(l, out) && l.Start() <= i < l.End() && ic < l.Groups() && g < l.ocs / 8 && j < 3
    requires line == ic * (l.iw * 8) + 32 && SixSummed(l, g, ic, i, j, 0, accs)
    requires l.Weights(g, ic, i, j) + 64 <= |l.wts| && wtsVec == LoadV(l.wts, l.Weights(g, ic, i, j), 64)
    ensures SixSummed(l, g, ic, i, j + 1, 0, accs') && line' == line
  {
    hide Holds, Summed, Mac, Ready, l.Weights;
    var tmp1: seq<int>;
    accs' := accs;
    tmp1, line' := FirstWindow(l, out, i, j, ic, line);
    var x := 0;
    while x < 6
      invariant 0 <= x <= 6 && line' == line + 32 + x * 32 && |tmp1| == 64
      invariant x < 6 ==> Holds(l, i, ic, 3 + x * 4 + j, Good(j), tmp1)
      invariant SixSummed(l, g, ic, i, j, x, accs')
    {
      HoldsPart(l, i, ic, 3 + x * 4 + j, Good(j), tmp1, 0, 4, tmp1[..32]);
      MacAddsTap(l, g, 4 + x * 4, ic, i, j, accs'[x], tmp1[..32], wtsVec);
      accs' := accs'[x := Mac(4, 8, 8, accs'[x], tmp1[..32], wtsVec)];
      tmp1, line' := NextWindow(l, out, i, j, ic, x, tmp1, line');
      x := x + 1;
    }
    line' := line' - (6 + 1) * 32;
  }

  /** Where the load of step `x` for kernel column `j` ends. */
  function PrefetchEnd(l: Layer, ic: nat, j: nat, x: nat): nat { ic * (l.iw * 8) + 64 + x * 32 + j / 2 * 32 + 32 }

  predicate PrefetchesFit(l: Layer, spare: nat) {
    forall ic: nat, j: nat, x: nat | ic < l.Groups() && j < 3 && x < 6 ::
      PrefetchEnd(l, ic, j, x) <= l.Groups() * (l.iw * 8) + spare
  }

  /** The loads of the middle section stay inside their line exactly when 32 elements follow the pixels. */
  lemma PrefetchesFitIff(l: Layer, spare: nat)
    requires l.iw == 32 && l.Groups() > 0
    ensures PrefetchesFit(l, spare) <==> spare >= 32
  {
    if PrefetchesFit(l, spare) {
      assert PrefetchEnd(l, l.Groups() - 1, 2, 5) <= l.Groups() * (l.iw * 8) + spare;
    }
  }
}
