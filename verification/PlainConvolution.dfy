/** The sums of the convolution kernels, channel by channel over plain inputs and weights. */
module PlainConvolution {
  import opened Indexing
  import opened Matrices
  import opened Convolution
  import Conv1x1
  import ConvSkipInit
  import Conv3x3

  function Sum(n: nat, f: nat -> int): int { if n == 0 then 0 else Sum(n - 1, f) + f(n - 1) }

  lemma SumNext(n: nat, f: nat -> int)
    ensures Sum(n + 1, f) == Sum(n, f) + f(n)
  {}

  lemma {:induction false} SumSame(n: nat, f: nat -> int, h: nat -> int)
    requires forall c: nat :: c < n ==> f(c) == h(c)
    ensures Sum(n, f) == Sum(n, h)
  {
    if n > 0 {
      SumSame(n - 1, f, h);
    }
  }

  /** The first terms, and then those of the rest. */
  lemma {:induction false} SumSplits(m: nat, n: nat, f: nat -> int, h: nat -> int)
    requires forall c: nat :: c < n ==> h(c) == f(m + c)
    ensures Sum(m + n, f) == Sum(m, f) + Sum(n, h)
  {
    if n > 0 {
      SumSplits(m, n - 1, f, h);
    }
  }

  /** The value of channel `c` of pixel `x`: channels come in blocks of eight, each block a row of pixels. */
  function Value(act: seq<int>, iw: nat, x: nat, c: nat): int { At(act, (c / 8 * iw + x) * 8 + c % 8) }

  /** The weight of input channel `c` for output channel `o`: blocks of eight by eight, output channels innermost, and
      the blocks of one group of output channels together. */
  function Weight(wts: seq<int>, ics: nat, o: nat, c: nat): int {
    At(wts, (o / 8 * (ics / 8) + c / 8) * 64 + c % 8 * 8 + o % 8)
  }

  /** The terms of groups of channels, when the weights of the first group are in block `b`. */
  function Term(act: seq<int>, iw: nat, x: nat, wts: seq<int>, b: nat, o8: nat): nat -> int {
    (c: nat) => Value(act, iw, x, c) * At(wts, (b + c / 8) * 64 + c % 8 * 8 + o8)
  }

  lemma TermIs(act: seq<int>, iw: nat, x: nat, wts: seq<int>, b: nat, o8: nat, k: nat, n: nat)
    requires n < 8
    ensures Term(act, iw, x, wts, b, o8)(k * 8 + n)
      == At(act, x * 8 + k * (iw * 8) + n) * At(wts, b * 64 + o8 + k * 64 + n * 8)
  {
    DivModUnique(k * 8 + n, 8, k, n);
    assert (k * iw + x) * 8 == x * 8 + k * (iw * 8);
  }

  lemma {:induction false} ChannelsArePlain(act: seq<int>, iw: nat, x: nat, wts: seq<int>, b: nat, o8: nat, k: nat,
                                            n: nat)
    requires n <= 8
    ensures Sum(k * 8 + n, Term(act, iw, x, wts, b, o8)) == Sum(k * 8, Term(act, iw, x, wts, b, o8))
      + Channels(act, x * 8 + k * (iw * 8), wts, b * 64 + o8 + k * 64, n)
  {
    hide Term, At, Sum;
    if n > 0 {
      ChannelsArePlain(act, iw, x, wts, b, o8, k, n - 1);
      TermIs(act, iw, x, wts, b, o8, k, n - 1);
      SumNext(k * 8 + (n - 1), Term(act, iw, x, wts, b, o8));
    }
  }

  lemma {:induction false} GroupsArePlain(act: seq<int>, iw: nat, x: nat, wts: seq<int>, b: nat, o8: nat, n: nat)
    ensures Groups(act, x * 8, iw * 8, wts, b * 64 + o8, n) == Sum(n * 8, Term(act, iw, x, wts, b, o8))
  {
    hide Channels, Term, At;
    if n > 0 {
      GroupsArePlain(act, iw, x, wts, b, o8, n - 1);
      ChannelsArePlain(act, iw, x, wts, b, o8, n - 1, 8);
      hide Sum;
    }
  }

  lemma WeightOf(wts: seq<int>, ics: nat, g: nat, o8: nat, c: nat)
    requires o8 < 8
    ensures Weight(wts, ics, g * 8 + o8, c) == At(wts, (g * (ics / 8) + c / 8) * 64 + c % 8 * 8 + o8)
  {
    DivModUnique(g * 8 + o8, 8, g, o8);
  }

  // ----- the 1x1 convolution

  /** The values of a pixel times their weights. */
  function PixelTerms(act: seq<int>, wts: seq<int>, iw: nat, ics: nat, x: nat, o: nat): nat -> int {
    (c: nat) => Value(act, iw, x, c) * Weight(wts, ics, o, c)
  }

  lemma PixelTermIs(act: seq<int>, wts: seq<int>, iw: nat, ics: nat, g: nat, x: nat, o8: nat, c: nat)
    requires o8 < 8
    ensures PixelTerms(act, wts, iw, ics, x, g * 8 + o8)(c) == Term(act, iw, x, wts, g * (ics / 8), o8)(c)
  {
    hide Value;
    WeightOf(wts, ics, g, o8, c);
  }

  /** Every sum of the 1x1 convolution is that of the values of the pixel times their weights. */
  lemma Conv1x1IsPlain(act: seq<int>, wts: seq<int>, iw: nat, ics: nat, g: nat, x: nat, o8: nat)
    requires o8 < 8
    ensures Conv1x1.PixelSum(act, wts, iw, ics / 8, g, x, o8)
      == Sum(ics / 8 * 8, PixelTerms(act, wts, iw, ics, x, g * 8 + o8))
  {
    MulMono(0, g, ics / 8);
    hide PixelTerms, Term, Sum, Groups;
    GroupsArePlain(act, iw, x, wts, g * (ics / 8), o8, ics / 8);
    var t, f := Term(act, iw, x, wts, g * (ics / 8), o8), PixelTerms(act, wts, iw, ics, x, g * 8 + o8);
    forall c: nat ensures t(c) == f(c) {
      PixelTermIs(act, wts, iw, ics, g, x, o8, c);
    }
    SumSame(ics / 8 * 8, t, f);
  }

  // ----- the convolution with two input halves, and the skip

  /** The values of both inputs, those of the second behind those of the first, times their weights. */
  function BothTerms(l: ConvSkipInit.Layer, x: nat, o: nat): nat -> int {
    var half := l.ics / 16 * 8;
    (c: nat) => (if c < half then Value(l.input0, l.iw, x, c) else Value(l.input1, l.iw, x, c - half))
      * Weight(l.wts, l.ics, o, c)
  }

  /** The block of the first weights of an output group. */
  function Block(g: nat, ics: nat): nat {
    MulMono(0, g, ics / 8);
    g * (ics / 8)
  }

  lemma FirstHalfTerms(l: ConvSkipInit.Layer, g: nat, x: nat, o8: nat, c: nat)
    requires o8 < 8 && c < l.ics / 16 * 8
    ensures BothTerms(l, x, g * 8 + o8)(c) == Term(l.input0, l.iw, x, l.wts, Block(g, l.ics), o8)(c)
  {
    WeightOf(l.wts, l.ics, g, o8, c);
  }

  lemma SecondHalfTerms(l: ConvSkipInit.Layer, g: nat, x: nat, o8: nat, h: nat, c: nat)
    requires o8 < 8 && h == l.ics / 16
    ensures BothTerms(l, x, g * 8 + o8)(h * 8 + c) == Term(l.input1, l.iw, x, l.wts, Block(g, l.ics) + h, o8)(c)
  {
    WeightOf(l.wts, l.ics, g, o8, h * 8 + c);
    DivModUnique(h * 8 + c, 8, h + c / 8, c % 8);
  }

  lemma BothSums(l: ConvSkipInit.Layer, g: nat, x: nat, o8: nat, h: nat)
    requires o8 < 8 && h == l.ics / 16
    ensures Sum(h * 8 + h * 8, BothTerms(l, x, g * 8 + o8)) == Sum(h * 8, Term(l.input0, l.iw, x, l.wts,
      Block(g, l.ics), o8)) + Sum(h * 8, Term(l.input1, l.iw, x, l.wts, Block(g, l.ics) + h, o8))
  {
    hide BothTerms, Term, Sum, Block;
    var f := BothTerms(l, x, g * 8 + o8);
    var t0 := Term(l.input0, l.iw, x, l.wts, Block(g, l.ics), o8);
    var t1 := Term(l.input1, l.iw, x, l.wts, Block(g, l.ics) + h, o8);
    forall c: nat | c < h * 8 ensures t0(c) == f(c) {
      FirstHalfTerms(l, g, x, o8, c);
    }
    forall c: nat ensures t1(c) == f(h * 8 + c) {
      SecondHalfTerms(l, g, x, o8, h, c);
    }
    SumSame(h * 8, t0, f);
    SumSplits(h * 8, h * 8, f, t1);
  }

  lemma ConvSumHalves(l: ConvSkipInit.Layer, apart: nat, g: nat, x: nat, o8: nat, b: nat)
    requires b == g * apart
    ensures ConvSkipInit.ConvSum(l, apart, g, x, o8) == Sum(l.Half() * 8, Term(l.input0, l.iw, x, l.wts, b, o8))
      + Sum(l.Half() * 8, Term(l.input1, l.iw, x, l.wts, b + l.Half(), o8))
  {
    hide Groups, Term, Sum, l.Half;
    GroupsArePlain(l.input0, l.iw, x, l.wts, b, o8, l.Half());
    GroupsArePlain(l.input1, l.iw, x, l.wts, b + l.Half(), o8, l.Half());
  }

  lemma ConvSumBlocks(l: ConvSkipInit.Layer, g: nat, x: nat, o8: nat)
    ensures ConvSkipInit.ConvSum(l, l.ics / 8, g, x, o8)
      == Sum(l.Half() * 8, Term(l.input0, l.iw, x, l.wts, Block(g, l.ics), o8))
       + Sum(l.Half() * 8, Term(l.input1, l.iw, x, l.wts, Block(g, l.ics) + l.Half(), o8))
  {
    hide Term, Sum, l.Half, ConvSkipInit.ConvSum;
    ConvSumHalves(l, l.ics / 8, g, x, o8, Block(g, l.ics));
  }

  /** Every sum over the inputs is the plain one over both halves, when all groups of weights are counted. */
  lemma ConvSumIsPlain(l: ConvSkipInit.Layer, g: nat, x: nat, o8: nat)
    requires o8 < 8
    ensures ConvSkipInit.ConvSum(l, l.ics / 8, g, x, o8) == Sum(2 * (l.ics / 16 * 8), BothTerms(l, x, g * 8 + o8))
  {
    hide BothTerms, Term, Sum, Block, ConvSkipInit.ConvSum;
    ConvSumBlocks(l, g, x, o8);
    BothSums(l, g, x, o8, l.ics / 16);
  }

  /** Every sum over the skip is that of its values times the weights behind those of the convolution. */
  lemma SkipSumIsPlain(l: ConvSkipInit.Layer, cw: seq<int>, sw: seq<int>, g: nat, x: nat, o8: nat)
    requires l.wts == cw + sw && |cw| == l.ocs * l.ics && g < l.ocs / 8 && o8 < 8
    ensures ConvSkipInit.SkipSum(l, g, x, o8)
      == Sum(l.icsSkip / 8 * 8, PixelTerms(l.skip, sw, l.iw, l.icsSkip, x, g * 8 + o8))
  {
    ConvSkipInit.SkipWeightsFollow(l, cw, sw, l.ics / 8, g, x, o8);
    Conv1x1IsPlain(l.skip, sw, l.iw, l.icsSkip, g, x, o8);
    hide PixelTerms;
  }

  // ----- the 3x3 convolution

  /** A value of the image around the line that is computed: zero beyond the ends of the lines, and on the line that is
      missing at the top or bottom. */
  function ImageValue(l: Conv3x3.Layer, i: nat, x: int, c: nat): int
    requires |l.lines| == 3 && i < 3
  {
    if x < 0 || x >= l.iw || (i == 0 && l.region == Conv3x3.Top) || (i == 2 && l.region == Conv3x3.Bottom) then 0
    else Value(l.lines[i], l.iw, x, c)
  }

  /** The weight of input channel `c` for output channel `o` at row `i` and column `j` of the kernel: blocks of eight by
      eight, row by row for every group of input channels. */
  function KernelWeight(wts: seq<int>, ics: nat, o: nat, c: nat, i: nat, j: nat): int {
    At(wts, (((o / 8 * (ics / 8) + c / 8) * 3 + i) * 3 + j) * 64 + c % 8 * 8 + o % 8)
  }

  function KernelTerm(l: Conv3x3.Layer, x: nat, o: nat, c: nat, i: nat, j: nat): int
    requires |l.lines| == 3 && i < 3
  {
    ImageValue(l, i, x + j - 1, c) * KernelWeight(l.wts, l.ics, o, c, i, j)
  }

  /** One input channel under all positions of the kernel. */
  function ChannelTerm(l: Conv3x3.Layer, x: nat, o: nat, c: nat): int
    requires |l.lines| == 3
  {
    KernelTerm(l, x, o, c, 0, 0) + KernelTerm(l, x, o, c, 0, 1) + KernelTerm(l, x, o, c, 0, 2)
    + KernelTerm(l, x, o, c, 1, 0) + KernelTerm(l, x, o, c, 1, 1) + KernelTerm(l, x, o, c, 1, 2)
    + KernelTerm(l, x, o, c, 2, 0) + KernelTerm(l, x, o, c, 2, 1) + KernelTerm(l, x, o, c, 2, 2)
  }

  lemma UsedIsPlain(l: Conv3x3.Layer, p: Spot, ic: nat, i: nat, j: nat, c8: nat)
    requires |l.lines| == 3 && p.o < 8 && c8 < 8 && i < 3 && j < 3
    ensures Conv3x3.Used(l, p, ic, i, j, c8)
      == KernelTerm(l, p.x, (p.g + l.channelOffset / 8) * 8 + p.o, ic * 8 + c8, i, j)
  {
    var g := p.g + l.channelOffset / 8;
    DivModUnique(ic * 8 + c8, 8, ic, c8);
    DivModUnique(g * 8 + p.o, 8, g, p.o);
    var x := p.x - 1 + j;
    if 0 <= x < l.iw {
      assert (ic * l.iw + x) * 8 + c8 == ic * (l.iw * 8) + x * 8 + c8;
    }
  }

  /** The terms of all input channels for an output: output channels start at the channel offset. */
  function ChannelTerms(l: Conv3x3.Layer, p: Spot): nat -> int
    requires |l.lines| == 3
  {
    (c: nat) => ChannelTerm(l, p.x, (p.g + l.channelOffset / 8) * 8 + p.o, c)
  }

  lemma ColumnsArePlain(l: Conv3x3.Layer, p: Spot, ic: nat, c8: nat)
    requires |l.lines| == 3 && p.o < 8 && c8 < 8
    ensures Conv3x3.Columns(l, p, ic, c8, 3) == ChannelTerms(l, p)(ic * 8 + c8)
  {
    hide Conv3x3.Used, KernelTerm, Conv3x3.Columns;
    Conv3x3.ThreeColumns(l, p, ic, c8);
    UsedIsPlain(l, p, ic, 0, 0, c8);
    UsedIsPlain(l, p, ic, 0, 1, c8);
    UsedIsPlain(l, p, ic, 0, 2, c8);
    UsedIsPlain(l, p, ic, 1, 0, c8);
    UsedIsPlain(l, p, ic, 1, 1, c8);
    UsedIsPlain(l, p, ic, 1, 2, c8);
    UsedIsPlain(l, p, ic, 2, 0, c8);
    UsedIsPlain(l, p, ic, 2, 1, c8);
    UsedIsPlain(l, p, ic, 2, 2, c8);
  }

  lemma {:induction false} ByChannelIsPlain(l: Conv3x3.Layer, p: Spot, ic: nat, n: nat)
    requires |l.lines| == 3 && p.o < 8 && n <= 8
    ensures Sum(ic * 8 + n, ChannelTerms(l, p)) == Sum(ic * 8, ChannelTerms(l, p)) + Conv3x3.ByChannel(l, p, ic, n)
  {
    hide ChannelTerms, Conv3x3.Columns, Sum;
    if n > 0 {
      ByChannelIsPlain(l, p, ic, n - 1);
      ColumnsArePlain(l, p, ic, n - 1);
      SumNext(ic * 8 + n - 1, ChannelTerms(l, p));
    }
  }

  lemma {:induction false} TapsArePlain(l: Conv3x3.Layer, p: Spot, n: nat)
    requires |l.lines| == 3 && p.o < 8
    ensures Conv3x3.Taps(l, p, n) == Sum(n * 8, ChannelTerms(l, p))
  {
    hide Conv3x3.ByChannel, Conv3x3.GroupTaps, Conv3x3.Nine, ChannelTerms;
    if n > 0 {
      TapsArePlain(l, p, n - 1);
      Conv3x3.NineIsGroup(l, p, n - 1);
      Conv3x3.ByChannelIsNine(l, p, n - 1, 8);
      ByChannelIsPlain(l, p, n - 1, 8);
      hide Sum;
    }
  }

  /** Every output of the 3x3 convolution is the rounded and saturated sum over all input channels and kernel positions
      of the image around it. */
  lemma Conv3x3IsPlain(l: Conv3x3.Layer, p: Spot)
    requires |l.lines| == 3 && p.o < 8
    ensures Conv3x3.Result(l)(p) == ToUint8(Sum(l.ics / 8 * 8, ChannelTerms(l, p)), l.scale)
  {
    hide Conv3x3.Taps, ChannelTerms, ToUint8;
    TapsArePlain(l, p, l.ics / 8);
  }
}
