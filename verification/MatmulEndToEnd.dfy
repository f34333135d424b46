/** The kernels against the scalar reference: any layout, end to end with the tiling patterns, and over K slices. */
module MatmulEndToEnd {
  import opened Indexing
  import opened Matrices
  import opened VectorUnit
  import opened MatmulKernels
  import opened MatmulLayouts
  import opened AccessPatterns

  // ----- the scalar reference

  /** The first `n` elements of C have gained their product. */
  ghost predicate ScalarDone(a: seq<int>, b: seq<int>, colA: nat, colB: nat, c0: seq<int>, c: seq<int>, n: nat) {
    |c| == |c0| && forall k :: 0 <= k < |c| ==> c[k] == c0[k] + if k < n then ProductAt(a, b, colA, colB, k) else 0
  }

  lemma ScalarNext(a: seq<int>, b: seq<int>, colA: nat, colB: nat, c0: seq<int>, c: seq<int>, n: nat, row: nat,
                   col: nat)
    requires n < |c| && col < colB && n == row * colB + col
    requires ScalarDone(a, b, colA, colB, c0, c, n)
    ensures ScalarDone(a, b, colA, colB, c0, c[n := c[n] + Dot(a, b, colA, colB, row, col, colA)], n + 1)
  {
    RowColOf(row, col, colB);
  }

  method MatmulScalar(a: array<int>, b: array<int>, c: array<int>, rowA: nat, colA: nat, colB: nat)
    requires a.Length == rowA * colA && b.Length == colA * colB && c.Length == rowA * colB
    requires a != c && b != c
    modifies c
    ensures forall k :: 0 <= k < c.Length ==> c[k] == old(c[k]) + ProductAt(a[..], b[..], colA, colB, k)
  {
    ghost var sa, sb, c0 := a[..], b[..], c[..];
    var row := 0;
    assert ScalarDone(sa, sb, colA, colB, c0, c[..], 0);
    while row < rowA
      invariant 0 <= row <= rowA && a[..] == sa && b[..] == sb
      invariant ScalarDone(sa, sb, colA, colB, c0, c[..], row * colB)
    {
      ScalarRow(a, b, c, rowA, colA, colB, row, c0);
      assert row * colB + colB == (row + 1) * colB;
      row := row + 1;
    }
    assert ScalarDone(sa, sb, colA, colB, c0, c[..], c.Length);
    assert forall k :: 0 <= k < c.Length ==> c[k] == c[..][k];
  }

  method ScalarRow(a: array<int>, b: array<int>, c: array<int>, rowA: nat, colA: nat, colB: nat, row: nat,
                   ghost c0: seq<int>)
    requires a.Length == rowA * colA && b.Length == colA * colB && c.Length == rowA * colB
    requires a != c && b != c && row < rowA
    requires ScalarDone(a[..], b[..], colA, colB, c0, c[..], row * colB)
    modifies c
    ensures ScalarDone(a[..], b[..], colA, colB, c0, c[..], row * colB + colB)
  {
    ghost var sa, sb := a[..], b[..];
    hide ScalarDone, Dot;
    var first := row * colB;
    var col := 0;
    while col < colB
      invariant 0 <= col <= colB && a[..] == sa && b[..] == sb
      invariant ScalarDone(sa, sb, colA, colB, c0, c[..], first + col)
    {
      var sum := ScalarElement(a, b, rowA, colA, colB, row, col);
      InMatrix(row, col, rowA, colB);
      var k := first + col;
      ScalarNext(sa, sb, colA, colB, c0, c[..], k, row, col);
      ghost var next := c[..][k := c[..][k] + sum];
      c[k] := c[k] + sum;
      assert c[..] == next;
      col := col + 1;
    }
  }

  method ScalarElement(a: array<int>, b: array<int>, rowA: nat, colA: nat, colB: nat, row: nat, col: nat)
    returns (sum: int)
    requires a.Length == rowA * colA && b.Length == colA * colB && row < rowA && col < colB
    ensures sum == Dot(a[..], b[..], colA, colB, row, col, colA)
  {
    sum := 0;
    var i := 0;
    while i < colA
      invariant 0 <= i <= colA && sum == Dot(a[..], b[..], colA, colB, row, col, i)
    {
      InMatrix(row, i, rowA, colA);
      InMatrix(i, col, colA, colB);
      sum := sum + a[row * colA + i] * b[i * colB + col];
      i := i + 1;
    }
  }

  // ----- any layout

  /** The kernel's buffers hold the matrices A and B, element by element, in the kernel's layout. */
  ghost predicate Holds(k: Kernel, ta: seq<int>, tb: seq<int>, a: seq<int>, b: seq<int>)
    requires k.r > 0 && k.s > 0 && k.t > 0
  {
    && (forall row: nat, kk: nat :: row < k.rowA * k.r && kk < k.colA * k.s ==>
      At(ta, AddressA(k, row, kk)) == At(a, row * (k.colA * k.s) + kk))
    && (forall kk: nat, col: nat :: kk < k.colA * k.s && col < k.colB * k.t ==>
      At(tb, AddressB(k, kk, col)) == At(b, kk * (k.colB * k.t) + col))
  }

  lemma {:induction false} TiledDotIsDot(k: Kernel, ta: seq<int>, tb: seq<int>, a: seq<int>, b: seq<int>,
                                         row: nat, col: nat, n: nat, colA: nat, colB: nat)
    requires k.r > 0 && k.s > 0 && k.t > 0 && Holds(k, ta, tb, a, b)
    requires colA == k.colA * k.s && colB == k.colB * k.t
    requires row < k.rowA * k.r && col < colB && n <= colA
    ensures TiledDot(k, ta, tb, row, col, n) == Dot(a, b, colA, colB, row, col, n)
  {
    if n > 0 {
      TiledDotIsDot(k, ta, tb, a, b, row, col, n - 1, colA, colB);
      assert At(ta, AddressA(k, row, n - 1)) == At(a, row * colA + (n - 1));
      assert At(tb, AddressB(k, n - 1, col)) == At(b, (n - 1) * colB + col);
    }
  }

  /** Whatever the layout and the unrolling, each element of C gains the element of A times B. */
  lemma KernelAddsProduct(k: Kernel, ta: seq<int>, tb: seq<int>, tc0: seq<int>, tc: seq<int>, a: seq<int>, b: seq<int>,
                          row: nat, col: nat)
    requires k.r > 0 && k.s > 0 && k.t > 0 && Holds(k, ta, tb, a, b) && Multiplied(k, ta, tb, tc0, tc)
    requires row < k.rowA * k.r && col < k.colB * k.t
    ensures 0 <= AddressC(k, row, col) < |tc| == |tc0|
    ensures tc[AddressC(k, row, col)] == tc0[AddressC(k, row, col)]
      + ProductAt(a, b, k.colA * k.s, k.colB * k.t, row * (k.colB * k.t) + col)
  {
    var colA, colB := k.colA * k.s, k.colB * k.t;
    MultipliedElement(k, ta, tb, tc0, tc, row, col);
    TiledDotIsDot(k, ta, tb, a, b, row, col, colA, colA, colB);
    RowColOf(row, col, colB);
  }

  // ----- gathering and scattering with the tiling patterns

  function Gather(m: seq<int>, addrs: seq<int>): seq<int> {
    seq(|addrs|, p requires 0 <= p < |addrs| => At(m, addrs[p]))
  }

  /** The matrix whose gathering is `tiled`. */
  ghost predicate ScattersTo(tiled: seq<int>, addrs: seq<int>, m: seq<int>) {
    |tiled| == |addrs| == |m| && forall p :: 0 <= p < |addrs| ==> 0 <= addrs[p] < |m| && m[addrs[p]] == tiled[p]
  }

  /** The row-major tile address of an element is the position at which the tiling pattern visits it. */
  lemma TilePositionIsAddress(n: nat, m: nat, r: nat, s: nat, row: nat, kk: nat)
    requires row < n * r && kk < m * s && r > 0 && s > 0
    ensures ByRows(0, m, r * s).Tile(Quot(row, r), Quot(kk, s)) + (row % r) * s + kk % s
         == TilePosition(m, r, s, Quot(row, r), Quot(kk, s), row % r, kk % s)
    ensures
      var p := TilePosition(m, r, s, Quot(row, r), Quot(kk, s), row % r, kk % s);
      var addrs := Addresses(Tiled(n, m, r, s, m * s));
      p < |addrs| && addrs[p] == row * (m * s) + kk
  {
    RowColSplit(row, n, r);
    RowColSplit(kk, m, s);
    TiledAt(n, m, r, s, m * s, Quot(row, r), Quot(kk, s), row % r, kk % s);
  }

  /** Gathering row-major A and B with the patterns for their tiles gives the layout the kernel expects. */
  lemma GatheredHolds(p: Problem, unrollZ: nat, unrollJ: nat, a: seq<int>, b: seq<int>)
    requires p.r > 0 && p.s > 0 && p.t > 0 && p.offA == p.offB == 0
    ensures Holds(p.RowMajorTiles(unrollZ, unrollJ),
      Gather(a, Addresses(Tiled(p.rowA, p.colA, p.r, p.s, p.colA * p.s))),
      Gather(b, Addresses(Tiled(p.colA, p.colB, p.s, p.t, p.colB * p.t))), a, b)
  {
    var k := p.RowMajorTiles(unrollZ, unrollJ);
    var ta := Gather(a, Addresses(Tiled(p.rowA, p.colA, p.r, p.s, p.colA * p.s)));
    var tb := Gather(b, Addresses(Tiled(p.colA, p.colB, p.s, p.t, p.colB * p.t)));
    forall row: nat, kk: nat | row < k.rowA * k.r && kk < k.colA * k.s
      ensures At(ta, AddressA(k, row, kk)) == At(a, row * (k.colA * k.s) + kk)
    {
      TilePositionIsAddress(p.rowA, p.colA, p.r, p.s, row, kk);
    }
    forall kk: nat, col: nat | kk < k.colA * k.s && col < k.colB * k.t
      ensures At(tb, AddressB(k, kk, col)) == At(b, kk * (k.colB * k.t) + col)
    {
      TilePositionIsAddress(p.colA, p.colB, p.s, p.t, kk, col);
    }
  }

  /** Gather, multiply, scatter: the result is what the scalar kernel leaves on the row-major matrices. */
  lemma EndToEnd(p: Problem, unrollZ: nat, unrollJ: nat, a: seq<int>, b: seq<int>, c0: seq<int>,
                 tc: seq<int>, c: seq<int>, row: nat, col: nat)
    requires p.r > 0 && p.s > 0 && p.t > 0 && p.offA == p.offB == p.offC == 0
    requires
      var addrsC := Addresses(Tiled(p.rowA, p.colB, p.r, p.t, p.colB * p.t));
      && Multiplied(p.RowMajorTiles(unrollZ, unrollJ),
        Gather(a, Addresses(Tiled(p.rowA, p.colA, p.r, p.s, p.colA * p.s))),
        Gather(b, Addresses(Tiled(p.colA, p.colB, p.s, p.t, p.colB * p.t))),
        Gather(c0, addrsC), tc)
      && ScattersTo(tc, addrsC, c)
    requires row < p.rowA * p.r && col < p.colB * p.t
    ensures var e := row * (p.colB * p.t) + col;
      && 0 <= e < |c|
      && c[e] == At(c0, e) + ProductAt(a, b, p.colA * p.s, p.colB * p.t, e)
  {
    var k := p.RowMajorTiles(unrollZ, unrollJ);
    GatheredHolds(p, unrollZ, unrollJ, a, b);
    var addrsC := Addresses(Tiled(p.rowA, p.colB, p.r, p.t, p.colB * p.t));
    TilePositionIsAddress(p.rowA, p.colB, p.r, p.t, row, col);
    var pos := TilePosition(p.colB, p.r, p.t, Quot(row, p.r), Quot(col, p.t), row % p.r, col % p.t);
    assert AddressC(k, row, col) == pos;
    KernelAddsProduct(k, Gather(a, Addresses(Tiled(p.rowA, p.colA, p.r, p.s, p.colA * p.s))),
      Gather(b, Addresses(Tiled(p.colA, p.colB, p.s, p.t, p.colB * p.t))), Gather(c0, addrsC), tc, a, b, row, col);
    assert c[addrsC[pos]] == tc[pos];
  }

  // ----- calls over K slices

  /** An element of a row-major matrix. */
  function Element(m: seq<int>, cols: nat, row: nat, col: nat): int { At(m, row * cols + col) }

  /** Columns `from .. from + width` of a row-major matrix with `cols` columns. */
  ghost predicate IsColumnSlice(m: seq<int>, cols: nat, from: nat, width: nat, slice: seq<int>) {
    forall row: nat, i: nat :: i < width ==> Element(slice, width, row, i) == Element(m, cols, row, from + i)
  }

  /** Rows `from .. from + width` of a row-major matrix with `cols` columns. */
  ghost predicate IsRowSlice(m: seq<int>, cols: nat, from: nat, width: nat, slice: seq<int>) {
    forall i: nat, col: nat | i < width && col < cols ::
      Element(slice, cols, i, col) == Element(m, cols, from + i, col)
  }

  /** The product of one K slice is the stretch of the full product that belongs to it. */
  lemma {:induction false} SliceDot(a: seq<int>, b: seq<int>, colA: nat, colB: nat, from: nat, width: nat,
                                    sa: seq<int>, sb: seq<int>, row: nat, col: nat, n: nat)
    requires IsColumnSlice(a, colA, from, width, sa) && IsRowSlice(b, colB, from, width, sb)
    requires n <= width && col < colB
    ensures Dot(a, b, colA, colB, row, col, from + n)
         == Dot(a, b, colA, colB, row, col, from) + Dot(sa, sb, width, colB, row, col, n)
  {
    if n > 0 {
      var i := n - 1;
      SliceDot(a, b, colA, colB, from, width, sa, sb, row, col, i);
      DotNext(a, b, colA, colB, row, col, from + i);
      DotNext(sa, sb, width, colB, row, col, i);
      assert Element(sa, width, row, i) == Element(a, colA, row, from + i);
      assert Element(sb, colB, i, col) == Element(b, colB, from + i, col);
    }
  }

  lemma DotNext(a: seq<int>, b: seq<int>, colA: nat, colB: nat, row: nat, col: nat, n: nat)
    ensures Dot(a, b, colA, colB, row, col, n + 1)
         == Dot(a, b, colA, colB, row, col, n) + Element(a, colA, row, n) * Element(b, colB, n, col)
  {}

  /** One call of the kernel: the tiled buffers it is given, and the slices of A and B they hold. */
  datatype Call = Call(ta: seq<int>, tb: seq<int>, sliceA: seq<int>, sliceB: seq<int>)

  /** The calls go through consecutive slices of equal width, each on the C buffer the one before it left. */
  ghost predicate Chained(k: Kernel, a: seq<int>, b: seq<int>, colA: nat, calls: seq<Call>, cs: seq<seq<int>>)
    requires k.r > 0 && k.s > 0 && k.t > 0
  {
    && |cs| == |calls| + 1
    && (forall j :: 0 <= j < |calls| ==> CallDone(k, a, b, colA, calls[j], j * (k.colA * k.s), cs[j], cs[j + 1]))
  }

  ghost predicate CallDone(k: Kernel, a: seq<int>, b: seq<int>, colA: nat, call: Call, from: nat,
                           before: seq<int>, after: seq<int>)
    requires k.r > 0 && k.s > 0 && k.t > 0
  {
    && IsColumnSlice(a, colA, from, k.colA * k.s, call.sliceA)
    && IsRowSlice(b, k.colB * k.t, from, k.colA * k.s, call.sliceB)
    && Holds(k, call.ta, call.tb, call.sliceA, call.sliceB)
    && Multiplied(k, call.ta, call.tb, before, after)
  }

  /** One call moves an element of C on by the stretch of the product that belongs to its slice. */
  lemma CallAddsStretch(k: Kernel, a: seq<int>, b: seq<int>, colA: nat, call: Call, from: nat,
                        before: seq<int>, after: seq<int>, row: nat, col: nat)
    requires k.r > 0 && k.s > 0 && k.t > 0 && row < k.rowA * k.r && col < k.colB * k.t
    requires CallDone(k, a, b, colA, call, from, before, after)
    ensures 0 <= AddressC(k, row, col) < |after| == |before|
    ensures after[AddressC(k, row, col)] - before[AddressC(k, row, col)]
      == Dot(a, b, colA, k.colB * k.t, row, col, from + k.colA * k.s) - Dot(a, b, colA, k.colB * k.t, row, col, from)
  {
    var width, colB := k.colA * k.s, k.colB * k.t;
    KernelAddsProduct(k, call.ta, call.tb, before, after, call.sliceA, call.sliceB, row, col);
    RowColOf(row, col, colB);
    hide Holds, Multiplied, IsColumnSlice, IsRowSlice, Dot;
    SliceDot(a, b, colA, colB, from, width, call.sliceA, call.sliceB, row, col, width);
  }

  /** Calls over successive slices, each on the C the one before it left, add up to the product of all the slices. */
  lemma {:induction false} SlicesAddUp(k: Kernel, a: seq<int>, b: seq<int>, colA: nat, calls: seq<Call>,
                                       cs: seq<seq<int>>, row: nat, col: nat)
    requires k.r > 0 && k.s > 0 && k.t > 0 && row < k.rowA * k.r && col < k.colB * k.t
    requires Chained(k, a, b, colA, calls, cs) && calls != []
    ensures 0 <= AddressC(k, row, col) < |cs[|calls|]| == |cs[0]|
    ensures cs[|calls|][AddressC(k, row, col)] == cs[0][AddressC(k, row, col)]
      + Dot(a, b, colA, k.colB * k.t, row, col, |calls| * (k.colA * k.s))
  {
    hide CallDone, AddressC;
    var n := |calls| - 1;
    var width := k.colA * k.s;
    assert n * width + width == |calls| * width;
    CallAddsStretch(k, a, b, colA, calls[n], n * width, cs[n], cs[n + 1], row, col);
    assert Dot(a, b, colA, k.colB * k.t, row, col, 0) == 0;
    hide Dot;
    if n > 0 {
      assert Chained(k, a, b, colA, calls[..n], cs[..n + 1]);
      SlicesAddUp(k, a, b, colA, calls[..n], cs[..n + 1], row, col);
    }
  }

  /** When the slices are all of K, C has gained the product. */
  lemma SlicesGiveProduct(k: Kernel, a: seq<int>, b: seq<int>, colA: nat, calls: seq<Call>, cs: seq<seq<int>>,
                          row: nat, col: nat)
    requires k.r > 0 && k.s > 0 && k.t > 0 && row < k.rowA * k.r && col < k.colB * k.t
    requires Chained(k, a, b, colA, calls, cs) && calls != [] && colA == |calls| * (k.colA * k.s)
    ensures 0 <= AddressC(k, row, col) < |cs[|calls|]| == |cs[0]|
    ensures cs[|calls|][AddressC(k, row, col)] == cs[0][AddressC(k, row, col)]
      + ProductAt(a, b, colA, k.colB * k.t, row * (k.colB * k.t) + col)
  {
    SlicesAddUp(k, a, b, colA, calls, cs, row, col);
    hide Chained, AddressC;
    RowColOf(row, col, k.colB * k.t);
  }
}
