/** Lowering element-level DMA dimensions to 32-bit words, and exactly when that touches the same bytes. */
module DmaLowering {
  import opened Indexing
  import opened AccessPatterns

  const WORD: int := 4

  /** The lowering of dimension `j`, counted from the innermost: its casts truncate to 16 and 32 bits. */
  function LowerDim(d: Dim, j: nat, width: nat): Dim
    requires d.stride >= 0
  {
    var stride := if j > 0 then (d.stride * width / WORD) % 0x1_0000_0000 else d.stride;
    var size := if j > 0 then d.size else (d.size * width / WORD) % 0x1_0000;
    Dim(size, if stride > 0 then stride else 1)
  }

  ghost predicate Unsigned(dims: seq<Dim>) {
    forall i :: 0 <= i < |dims| ==> dims[i].stride >= 0
  }

  /** The lowered dimensions, outermost first. */
  function Lowered(dims: seq<Dim>, width: nat): (r: seq<Dim>)
    requires forall i :: 0 <= i < |dims| ==> dims[i].stride >= 0
    ensures |r| == |dims|
  {
    if dims == [] then [] else [LowerDim(dims[0], |dims| - 1, width)] + Lowered(dims[1..], width)
  }

  /** The loop: dimension `i` goes to position `n - 1 - i` of the hardware's list. */
  method SetMultiDimAddr(dims: seq<Dim>, width: nat, baseAddr: nat) returns (aligned: bool, tensor: seq<Dim>)
    requires forall i :: 0 <= i < |dims| ==> dims[i].stride >= 0
    ensures aligned <==> baseAddr % 4 == 0
    ensures |tensor| == |dims|
    ensures forall j :: 0 <= j < |dims| ==> tensor[j] == Lowered(dims, width)[|dims| - 1 - j]
  {
    LoweredAt(dims, width);
    tensor := seq(|dims|, _ => Dim(0, 0));
    var i := 0;
    while i < |dims|
      invariant 0 <= i <= |dims| && |tensor| == |dims|
      invariant forall k :: 0 <= k < i ==> tensor[|dims| - 1 - k] == Lowered(dims, width)[k]
    {
      var j := |dims| - i - 1;
      tensor := tensor[j := LowerDim(dims[i], j, width)];
      i := i + 1;
    }
    forall j | 0 <= j < |dims| ensures tensor[j] == Lowered(dims, width)[|dims| - 1 - j] {
      assert j == |dims| - 1 - (|dims| - 1 - j);
    }
    aligned := baseAddr % 4 == 0;
  }

  lemma {:induction false} LoweredAt(dims: seq<Dim>, width: nat)
    requires forall i :: 0 <= i < |dims| ==> dims[i].stride >= 0
    ensures forall i :: 0 <= i < |dims| ==> Lowered(dims, width)[i] == LowerDim(dims[i], |dims| - 1 - i, width)
  {
    if dims != [] {
      LoweredAt(dims[1..], width);
    }
  }

  // ----- the bytes a pattern touches, in order

  function Scale(dims: seq<Dim>, unit: nat): seq<Dim> {
    if dims == [] then [] else [Dim(dims[0].size, dims[0].stride * unit)] + Scale(dims[1..], unit)
  }

  /** Touching an element of `unit` bytes touches its bytes one after the other. */
  function Bytes(dims: seq<Dim>, unit: nat): seq<int> {
    Addresses(Scale(dims, unit) + [Dim(unit, 1)])
  }

  /** The bytes of an outer dimension are those of the rest, repeated. */
  lemma BytesOuter(d: Dim, rest: seq<Dim>, unit: nat)
    ensures Bytes([d] + rest, unit) == Repeat(d.size, d.stride * unit, Bytes(rest, unit))
  {
    assert ([d] + rest)[1..] == rest;
    var all := Scale([d] + rest, unit) + [Dim(unit, 1)];
    assert all == [Dim(d.size, d.stride * unit)] + (Scale(rest, unit) + [Dim(unit, 1)]);
    assert all[1..] == Scale(rest, unit) + [Dim(unit, 1)];
  }

  lemma BytesNone(unit: nat)
    ensures Bytes([], unit) == Repeat(unit, 1, [0]) && |Bytes([], unit)| == unit
    ensures forall q :: 0 <= q < unit ==> Bytes([], unit)[q] == q
  {
    assert Scale([], unit) + [Dim(unit, 1)] == [Dim(unit, 1)];
    assert [Dim(unit, 1)][1..] == [];
    assert Addresses([Dim(unit, 1)]) == Repeat(unit, 1, Addresses([]));
    RepeatLength(unit, 1, [0]);
    forall q | 0 <= q < unit ensures Repeat(unit, 1, [0])[q] == q {
      RepeatAt(unit, 1, [0], q, 0);
    }
  }

  // ----- repetitions are equal exactly when their parts are

  lemma RepeatEqualIff(n: nat, s: int, x: seq<int>, s': int, y: seq<int>)
    requires n > 0 && |x| > 0
    ensures Repeat(n, s, x) == Repeat(n, s', y) <==> x == y && (n == 1 || s == s')
  {
    RepeatLength(n, s, x);
    RepeatLength(n, s', y);
    if Repeat(n, s, x) == Repeat(n, s', y) {
      SameFactor(n, |x|, |y|);
      forall q | 0 <= q < |x| ensures x[q] == y[q] {
        RepeatAt(n, s, x, 0, q);
        RepeatAt(n, s', y, 0, q);
      }
      assert x == y;
      if n > 1 {
        RepeatAt(n, s, x, 1, 0);
        RepeatAt(n, s', y, 1, 0);
      }
    }
    RepeatOnce(s, x);
    RepeatOnce(s', x);
  }

  lemma RepeatOnce(s: int, x: seq<int>)
    ensures Repeat(1, s, x) == x
  {
    assert Repeat(1, s, x) == Repeat(0, s, x) + Shift(x, 0 * s);
    assert Shift(x, 0 * s) == x;
  }

  lemma SameFactor(n: nat, a: nat, b: nat)
    requires n > 0 && n * a == n * b
    ensures a == b
  {
    DivModUnique(n * a, n, a, 0);
    DivModUnique(n * b, n, b, 0);
  }

  lemma RepeatEmptyIff(n: nat, s: int, x: seq<int>)
    ensures Repeat(n, s, x) == [] <==> n == 0 || x == []
  {
    RepeatLength(n, s, x);
    if n > 0 && x != [] {
      MulMono(1, n, |x|);
    }
  }

  // ----- the innermost dimension

  /** The innermost dimension is a whole number of words, and either contiguous or made of words itself. */
  predicate InnerOk(d: Dim, width: nat) {
    && d.size * width % WORD == 0
    && (d.stride == 1 || (width == WORD && (d.size == 1 || d.stride > 0))
      || (width > WORD && d.stride == 0 && d.size == 1))
  }

  /** An outer dimension steps by whole words, or does not step at all. */
  predicate OuterOk(d: Dim, width: nat) {
    d.size == 1 || (d.stride > 0 && d.stride * width % WORD == 0)
  }

  function Run(unit: nat): seq<int> { Bytes([], unit) }

  /** Back to back, the units form one run of bytes. */
  lemma Contiguous(n: nat, unit: nat, p: nat)
    requires p < n * unit
    ensures |Repeat(n, unit, Run(unit))| == n * unit && Repeat(n, unit, Run(unit))[p] == p
  {
    BytesNone(unit);
    RowColSplit(p, n, unit);
    RepeatAt(n, unit, Run(unit), p / unit, p % unit);
  }

  lemma RunsLength(n: nat, s: int, unit: nat)
    ensures |Repeat(n, s, Run(unit))| == n * unit
  {
    BytesNone(unit);
    RepeatLength(n, s, Run(unit));
  }

  lemma ContiguousEqual(n: nat, u: nat, n': nat, u': nat)
    requires n * u == n' * u'
    ensures Repeat(n, u, Run(u)) == Repeat(n', u', Run(u'))
  {
    RunsLength(n, u, u);
    RunsLength(n', u', u');
    forall p | 0 <= p < n * u ensures Repeat(n, u, Run(u))[p] == Repeat(n', u', Run(u'))[p] {
      Contiguous(n, u, p);
      Contiguous(n', u', p);
    }
  }

  /** The byte at position `q` of unit `i`. */
  lemma RunByte(n: nat, s: int, unit: nat, i: nat, q: nat)
    requires i < n && q < unit
    ensures 0 <= i * unit + q < |Repeat(n, s, Run(unit))|
    ensures Repeat(n, s, Run(unit))[i * unit + q] == i * s + q
  {
    BytesNone(unit);
    RepeatAt(n, s, Run(unit), i, q);
  }

  /** Elements narrower than a word: only contiguous ones keep their bytes. */
  lemma NarrowIff(size: nat, stride: nat, width: nat, words: nat, stride': nat)
    requires 0 < width < 4 && size > 0 && size * width == words * 4
    requires stride' == if stride > 0 then stride else 1
    ensures Repeat(size, stride * width, Run(width)) == Repeat(words, stride' * 4, Run(4)) <==> stride == 1
  {
    if stride == 1 {
      ContiguousEqual(size, width, words, 4);
    } else {
      assert size >= 2 && words >= 1;
      RunByte(size, stride * width, width, 1, 0);
      RunByte(words, stride' * 4, 4, 0, width);
      SameMultiple(stride, width);
    }
  }

  lemma SameMultiple(k: nat, d: nat)
    requires d > 0
    ensures k * d == d <==> k == 1
  {
    if k > 1 {
      MulMono(2, k, d);
    }
  }

  /** Elements wider than a word: contiguous ones keep their bytes, and a single one without a stride. */
  lemma WideIff(size: nat, stride: nat, width: nat, words: nat, stride': nat)
    requires width > 4 && size > 0 && size * width == words * 4
    requires stride' == if stride > 0 then stride else 1
    ensures Repeat(size, stride * width, Run(width)) == Repeat(words, stride' * 4, Run(4))
       <==> stride == 1 || (stride == 0 && size == 1)
  {
    MulMono(1, size, width);
    assert words >= 2;
    RunByte(size, stride * width, width, 0, 4);
    RunByte(words, stride' * 4, 4, 1, 0);
    if stride == 1 {
      ContiguousEqual(size, width, words, 4);
    } else if stride == 0 && size == 1 {
      RepeatOnce(0, Run(width));
      RepeatOnce(width, Run(width));
      ContiguousEqual(1, width, words, 4);
    } else if stride == 0 {
      RunByte(size, 0, width, 1, 0);
      assert width < words * 4 by {
        MulMono(2, size, width);
      }
      Contiguous(words, 4, width);
    }
  }

  /** The innermost dimension keeps its bytes exactly under this condition. */
  lemma InnerSameIff(d: Dim, width: nat)
    requires width > 0 && d.size > 0 && d.stride >= 0 && d.size * width / WORD < 0x1_0000
    ensures Bytes([d], width) == Bytes([LowerDim(d, 0, width)], 4) <==> InnerOk(d, width)
  {
    var e := LowerDim(d, 0, width);
    BytesOuter(d, [], width);
    BytesOuter(e, [], 4);
    assert [d] + [] == [d] && [e] + [] == [e];
    RunsLength(d.size, d.stride * width, width);
    RunsLength(e.size, e.stride * 4, 4);
    MulMono(1, d.size, width);
    if d.size * width % WORD == 0 {
      if width < 4 {
        NarrowIff(d.size, d.stride, width, e.size, e.stride);
      } else if width > 4 {
        WideIff(d.size, d.stride, width, e.size, e.stride);
      } else {
        BytesNone(4);
        RepeatEqualIff(d.size, d.stride * 4, Run(4), e.stride * 4, Run(4));
      }
    }
  }

  // ----- all dimensions

  /** The casts of the lowering lose nothing. */
  ghost predicate NoOverflow(dims: seq<Dim>, width: nat) {
    forall i :: 0 <= i < |dims| ==>
      if i == |dims| - 1 then dims[i].size * width / WORD < 0x1_0000 else dims[i].stride * width / WORD < 0x1_0000_0000
  }

  ghost predicate SomeEmpty(dims: seq<Dim>) {
    exists i :: 0 <= i < |dims| && dims[i].size == 0
  }

  ghost predicate WordSized(dims: seq<Dim>, width: nat) {
    forall i :: 0 <= i < |dims| ==> if i == |dims| - 1 then InnerOk(dims[i], width) else OuterOk(dims[i], width)
  }

  lemma OuterStrideIff(d: Dim, j: nat, width: nat)
    requires j > 0 && d.stride >= 0 && d.stride * width / WORD < 0x1_0000_0000 && width > 0
    ensures LowerDim(d, j, width).size == d.size
    ensures d.stride * width == LowerDim(d, j, width).stride * 4 <==> d.stride > 0 && d.stride * width % WORD == 0
  {
    var x := d.stride * width;
    assert d.stride > 0 ==> x > 0;
  }

  lemma {:induction false} EmptyWhenSomeEmpty(dims: seq<Dim>, unit: nat)
    requires unit > 0
    ensures Bytes(dims, unit) == [] <==> SomeEmpty(dims)
  {
    if dims == [] {
      BytesNone(unit);
    } else {
      EmptyWhenSomeEmpty(dims[1..], unit);
      assert dims == [dims[0]] + dims[1..];
      BytesOuter(dims[0], dims[1..], unit);
      RepeatEmptyIff(dims[0].size, dims[0].stride * unit, Bytes(dims[1..], unit));
      SomeEmptyTail(dims);
    }
  }

  lemma SomeEmptyTail(dims: seq<Dim>)
    requires dims != []
    ensures SomeEmpty(dims) <==> dims[0].size == 0 || SomeEmpty(dims[1..])
  {
    if i :| 0 <= i < |dims| && dims[i].size == 0 && i > 0 {
      assert dims[1..][i - 1].size == 0;
    }
    if i :| 0 <= i < |dims[1..]| && dims[1..][i].size == 0 {
      assert dims[i + 1].size == 0;
    }
  }

  lemma {:induction false} LoweredSomeEmpty(dims: seq<Dim>, width: nat)
    requires Unsigned(dims) && SomeEmpty(dims)
    ensures SomeEmpty(Lowered(dims, width))
  {
    var i :| 0 <= i < |dims| && dims[i].size == 0;
    LoweredAt(dims, width);
    assert Lowered(dims, width)[i].size == 0;
  }

  lemma WordSizedTail(dims: seq<Dim>, width: nat)
    requires |dims| > 1
    ensures WordSized(dims, width) <==> OuterOk(dims[0], width) && WordSized(dims[1..], width)
    ensures NoOverflow(dims, width) ==> NoOverflow(dims[1..], width) && dims[0].stride * width / WORD < 0x1_0000_0000
  {
    assert forall i :: 0 < i < |dims| ==> dims[i] == dims[1..][i - 1];
    if WordSized(dims[1..], width) && OuterOk(dims[0], width) {
      forall i | 0 <= i < |dims|
        ensures if i == |dims| - 1 then InnerOk(dims[i], width) else OuterOk(dims[i], width)
      {
        if i > 0 {
          assert dims[1..][i - 1] == dims[i];
        }
      }
    }
  }

  /** The lowered list touches the same bytes in the same order exactly when every dimension is word-sized,
      or nothing is touched at all. */
  lemma {:induction false} SameBytesIff(dims: seq<Dim>, width: nat)
    requires width > 0 && dims != [] && Unsigned(dims) && NoOverflow(dims, width)
    ensures Bytes(dims, width) == Bytes(Lowered(dims, width), 4) <==> SomeEmpty(dims) || WordSized(dims, width)
  {
    var d, rest := dims[0], dims[1..];
    var e := LowerDim(d, |rest|, width);
    assert dims == [d] + rest && Lowered(dims, width) == [e] + Lowered(rest, width);
    EmptyWhenSomeEmpty(dims, width);
    if SomeEmpty(dims) {
      LoweredSomeEmpty(dims, width);
      EmptyWhenSomeEmpty(Lowered(dims, width), 4);
    } else if rest == [] {
      assert dims == [d] && Lowered(dims, width) == [e];
      InnerSameIff(d, width);
    } else {
      SomeEmptyTail(dims);
      WordSizedTail(dims, width);
      SameBytesIff(rest, width);
      EmptyWhenSomeEmpty(rest, width);
      BytesOuter(d, rest, width);
      BytesOuter(e, Lowered(rest, width), 4);
      OuterStrideIff(d, |rest|, width);
      RepeatEqualIff(d.size, d.stride * width, Bytes(rest, width), e.stride * 4, Bytes(Lowered(rest, width), 4));
    }
  }

  /** Dimensions with sizes of 16 bits and strides of 32 bits are lowered to such, whatever is cut off. */
  lemma LoweredFits(dims: seq<Dim>, width: nat, i: nat)
    requires Unsigned(dims) && i < |dims| && dims[i].size < 0x1_0000 && dims[i].stride < 0x1_0000_0000
    ensures Lowered(dims, width)[i].size < 0x1_0000 && 0 < Lowered(dims, width)[i].stride < 0x1_0000_0000
  {
    LoweredAt(dims, width);
  }

  // ----- what the verifier of the operation lets through

  /** The conditions checked on the dimensions of a buffer descriptor. */
  ghost predicate Accepted(dims: seq<Dim>, width: nat) {
    && (forall i :: 0 <= i < |dims| ==> 0 < dims[i].stride < 0x8_0000 && dims[i].size <= 512)
    && (dims != [] && width < WORD ==> dims[|dims| - 1].stride == 1)
  }

  /** For accepted dimensions without empty ones and elements of at most a word, whole words are all that is missing. */
  lemma AcceptedSameBytesIff(dims: seq<Dim>, width: nat)
    requires 0 < width <= WORD && dims != [] && Accepted(dims, width) && !SomeEmpty(dims)
    ensures Unsigned(dims)
    ensures Bytes(dims, width) == Bytes(Lowered(dims, width), 4) <==>
      && dims[|dims| - 1].size * width % WORD == 0
      && (forall i :: 0 <= i < |dims| - 1 ==> dims[i].size == 1 || dims[i].stride * width % WORD == 0)
  {
    forall i | 0 <= i < |dims|
      ensures if i == |dims| - 1 then dims[i].size * width / WORD < 0x1_0000
        else dims[i].stride * width / WORD < 0x1_0000_0000
    {
      MulMono(width, 4, dims[i].size);
      MulMono(width, 4, dims[i].stride);
      assert width * dims[i].size == dims[i].size * width && width * dims[i].stride == dims[i].stride * width;
    }
    SameBytesIff(dims, width);
    assert InnerOk(dims[|dims| - 1], width) <==> dims[|dims| - 1].size * width % WORD == 0;
  }

  /** Accepted, but not the same bytes: two rows of two 16-bit elements, three elements apart. */
  lemma AcceptedButMoved()
    ensures Accepted([Dim(2, 3), Dim(2, 1)], 2)
    ensures Bytes([Dim(2, 3), Dim(2, 1)], 2) != Bytes(Lowered([Dim(2, 3), Dim(2, 1)], 2), 4)
  {
    var dims := [Dim(2, 3), Dim(2, 1)];
    AcceptedSameBytesIff(dims, 2);
    assert dims[0].stride * 2 % WORD != 0;
  }
}
