/** What the kernels mean for matrix elements, and the five layouts they are used with. */
module MatmulLayouts {
  import opened Indexing
  import opened Matrices
  import opened VectorUnit
  import opened MatmulKernels

  // ----- elements of the operands, wherever the layout puts them

  function AddressA(k: Kernel, row: nat, kk: nat): int
    requires k.r > 0 && k.s > 0
  {
    k.a.Tile(row / k.r, kk / k.s) + (row % k.r) * k.s + kk % k.s
  }

  function AddressB(k: Kernel, kk: nat, col: nat): int
    requires k.s > 0 && k.t > 0
  {
    k.b.Tile(kk / k.s, col / k.t)
      + if k.transposeB then (col % k.t) * k.s + kk % k.s else (kk % k.s) * k.t + col % k.t
  }

  function AddressC(k: Kernel, row: nat, col: nat): int
    requires k.r > 0 && k.t > 0
  {
    k.c.Tile(row / k.r, col / k.t) + (row % k.r) * k.t + col % k.t
  }

  /** The first `n` terms of an element of the product. */
  function TiledDot(k: Kernel, a: seq<int>, b: seq<int>, row: nat, col: nat, n: nat): int
    requires k.r > 0 && k.s > 0 && k.t > 0
  {
    if n == 0 then 0 else
      TiledDot(k, a, b, row, col, n - 1) + At(a, AddressA(k, row, n - 1)) * At(b, AddressB(k, n - 1, col))
  }

  lemma ElementA(k: Kernel, a: seq<int>, z: nat, i: nat, x: nat, m: nat)
    requires k.FitsA(|a|) && z < k.rowA && i < k.colA && x < k.r && m < k.s
    ensures At(TileA(k, a, z, i), x * k.s + m) == At(a, AddressA(k, z * k.r + x, i * k.s + m))
  {
    RowColOf(z, x, k.r);
    RowColOf(i, m, k.s);
    InMatrix(x, m, k.r, k.s);
  }

  lemma ElementB(k: Kernel, b: seq<int>, i: nat, j: nat, m: nat, y: nat)
    requires k.FitsB(|b|) && i < k.colA && j < k.colB && m < k.s && y < k.t
    ensures At(TileB(k, b, i, j), m * k.t + y) == At(b, AddressB(k, i * k.s + m, j * k.t + y))
  {
    RowColOf(i, m, k.s);
    RowColOf(j, y, k.t);
    InMatrix(m, y, k.s, k.t);
    if k.transposeB {
      RowColOf(m, y, k.t);
      InMatrix(y, m, k.t, k.s);
      assert k.t * k.s == k.s * k.t;
    }
  }

  /** One multiply-accumulate contributes the next `s` terms. */
  lemma {:induction false} TileDot(k: Kernel, a: seq<int>, b: seq<int>, z: nat, j: nat, i: nat, x: nat, y: nat, m: nat,
                                   row: nat, col: nat, first: nat)
    requires k.FitsA(|a|) && k.FitsB(|b|) && z < k.rowA && i < k.colA && j < k.colB
    requires x < k.r && y < k.t && m <= k.s && k.s > 0
    requires row == z * k.r + x && col == j * k.t + y && first == i * k.s
    ensures TiledDot(k, a, b, row, col, first + m)
         == TiledDot(k, a, b, row, col, first) + Dot(TileA(k, a, z, i), TileB(k, b, i, j), k.s, k.t, x, y, m)
  {
    hide AddressA, AddressB, TileA, TileB;
    if m > 0 {
      TileDot(k, a, b, z, j, i, x, y, m - 1, row, col, first);
      ElementA(k, a, z, i, x, m - 1);
      ElementB(k, b, i, j, m - 1, y);
      assert TiledDot(k, a, b, row, col, first + m) == TiledDot(k, a, b, row, col, first + (m - 1))
        + At(a, AddressA(k, row, first + (m - 1))) * At(b, AddressB(k, first + (m - 1), col));
    }
  }

  lemma MacElement(r: nat, s: nat, t: nat, acc: seq<int>, a: seq<int>, b: seq<int>, x: nat, y: nat)
    requires x < r && y < t
    ensures At(Mac(r, s, t, acc, a, b), x * t + y) == At(acc, x * t + y) + Dot(a, b, s, t, x, y, s)
  {
    InMatrix(x, y, r, t);
    RowColOf(x, y, t);
  }

  lemma TileElementC(k: Kernel, c: seq<int>, z: nat, j: nat, x: nat, y: nat)
    requires k.FitsC(|c|) && z < k.rowA && j < k.colB && x < k.r && y < k.t
    ensures 0 <= AddressC(k, z * k.r + x, j * k.t + y) < |c|
    ensures At(TileC(k, c, z, j), x * k.t + y) == c[AddressC(k, z * k.r + x, j * k.t + y)]
  {
    RowColOf(z, x, k.r);
    RowColOf(j, y, k.t);
    InMatrix(x, y, k.r, k.t);
  }

  /** After `n` steps, element `(x, y)` of an accumulator has gained the first `n * s` terms. */
  lemma {:induction false} AccumulatedElement(k: Kernel, a: seq<int>, b: seq<int>, c0: seq<int>,
                                              z: nat, j: nat, x: nat, y: nat, n: nat, row: nat, col: nat)
    requires k.InBounds(|a|, |b|, |c0|) && z < k.rowA && j < k.colB && n <= k.colA
    requires x < k.r && y < k.t && k.s > 0 && row == z * k.r + x && col == j * k.t + y
    ensures At(Accumulated(k, a, b, c0, z, j, n), x * k.t + y)
         == At(TileC(k, c0, z, j), x * k.t + y) + TiledDot(k, a, b, row, col, n * k.s)
  {
    hide AddressA, AddressB, TileA, TileB, TileC;
    if n == 0 {
      assert n * k.s == 0;
    } else {
      var first := (n - 1) * k.s;
      assert first + k.s == n * k.s;
      AccumulatedElement(k, a, b, c0, z, j, x, y, n - 1, row, col);
      TileDot(k, a, b, z, j, n - 1, x, y, k.s, row, col, first);
      MacElement(k.r, k.s, k.t, Accumulated(k, a, b, c0, z, j, n - 1),
        TileA(k, a, z, n - 1), TileB(k, b, n - 1, j), x, y);
    }
  }

  /** What the kernel's contract says of its buffers. */
  ghost predicate Multiplied(k: Kernel, a: seq<int>, b: seq<int>, c0: seq<int>, c: seq<int>) {
    && |c| == |c0| && k.InBounds(|a|, |b|, |c0|)
    && (forall z, j :: 0 <= z < k.rowA && 0 <= j < k.colB ==>
      TileC(k, c, z, j) == Accumulated(k, a, b, c0, z, j, k.colA))
    && (forall addr :: 0 <= addr < |c| && OutsideTiles(k, addr) ==> c[addr] == c0[addr])
  }

  /** Every element of C gains the full product of its row of A and its column of B. */
  lemma MultipliedElement(k: Kernel, a: seq<int>, b: seq<int>, c0: seq<int>, c: seq<int>, row: nat, col: nat)
    requires Multiplied(k, a, b, c0, c) && k.r > 0 && k.s > 0 && k.t > 0
    requires row < k.rowA * k.r && col < k.colB * k.t
    ensures 0 <= AddressC(k, row, col) < |c|
    ensures c[AddressC(k, row, col)] == c0[AddressC(k, row, col)] + TiledDot(k, a, b, row, col, k.colA * k.s)
  {
    RowColSplit(row, k.rowA, k.r);
    RowColSplit(col, k.colB, k.t);
    var z, j, x, y := row / k.r, col / k.t, row % k.r, col % k.t;
    AccumulatedElement(k, a, b, c0, z, j, x, y, k.colA, row, col);
    TileElementC(k, c0, z, j, x, y);
    TileElementC(k, c, z, j, x, y);
  }

  // ----- dense layouts: a grid of tiles of one size without gaps

  /** Tile `(u, v)` of an `n` x `m` grid in row-major order ends inside the grid, and before any later tile. */
  lemma DenseTile(u: nat, v: nat, n: nat, m: nat, size: nat)
    requires u < n && v < m
    ensures u * (m * size) + v * size == (u * m + v) * size
    ensures (u * m + v) * size + size <= n * m * size
  {
    InMatrix(u, v, n, m);
    assert u * (m * size) == u * m * size;
    MulMono(u * m + v + 1, n * m, size);
  }

  lemma DenseTilesApart(u: nat, v: nat, u': nat, v': nat, m: nat, size: nat)
    requires v < m && v' < m && (u, v) != (u', v')
    ensures (u * m + v) * size + size <= (u' * m + v') * size || (u' * m + v') * size + size <= (u * m + v) * size
  {
    RowColOf(u, v, m);
    RowColOf(u', v', m);
    if u * m + v < u' * m + v' {
      MulMono(u * m + v + 1, u' * m + v', size);
    } else {
      MulMono(u' * m + v' + 1, u * m + v, size);
    }
  }

  /** Tiles in row-major order, and in column-major order, of an `n` x `m` grid. */
  function ByRows(base: nat, m: nat, size: nat): Affine { Affine(base, m * size, size) }

  function ByColumns(base: nat, n: nat, size: nat): Affine { Affine(base, size, n * size) }

  /** Where operands start, and how many tiles of which shape they have. */
  datatype Problem = Problem(rowA: nat, colA: nat, colB: nat, r: nat, s: nat, t: nat, offA: nat, offB: nat, offC: nat) {
    ghost predicate Sizes(lenA: nat, lenB: nat, lenC: nat) {
      && offA + rowA * colA * (r * s) <= lenA
      && offB + colA * colB * (s * t) <= lenB
      && offC + rowA * colB * (r * t) <= lenC
    }

    /** All operands tiled in row-major order: the kernels of 2x2, 4x2 and 4x4 tiles. */
    function RowMajorTiles(unrollZ: nat, unrollJ: nat): Kernel {
      Kernel(rowA, colA, colB, r, s, t, ByRows(offA, colA, r * s), ByRows(offB, colB, s * t), ByRows(offC, colB, r * t),
        false, unrollZ, unrollJ)
    }

    /** All operands in vertical stripes, with offsets. */
    function VerticalStripes(): Kernel {
      Kernel(rowA, colA, colB, r, s, t,
        ByColumns(offA, rowA, r * s), ByColumns(offB, colA, s * t), ByColumns(offC, rowA, r * t), false, 4, 4)
    }

    /** B tiled in column-major order, each tile transposed. */
    function ColumnMajorB(): Kernel {
      Kernel(rowA, colA, colB, r, s, t,
             ByRows(offA, colA, r * s), ByColumns(offB, colA, s * t), ByRows(offC, colB, r * t),
        true, 2, 2)
    }
  }

  lemma ByRowsFits(base: nat, n: nat, m: nat, size: nat, u: nat, v: nat)
    requires u < n && v < m
    ensures ByRows(base, m, size).Tile(u, v) == base + (u * m + v) * size
    ensures ByRows(base, m, size).Tile(u, v) + size <= base + n * m * size
  {
    DenseTile(u, v, n, m, size);
  }

  lemma ByColumnsFits(base: nat, n: nat, m: nat, size: nat, u: nat, v: nat)
    requires u < n && v < m
    ensures ByColumns(base, n, size).Tile(u, v) == base + (v * n + u) * size
    ensures ByColumns(base, n, size).Tile(u, v) + size <= base + n * m * size
  {
    DenseTile(v, u, m, n, size);
    assert m * n == n * m;
  }

  lemma RowMajorTilesValid(p: Problem, unrollZ: nat, unrollJ: nat, lenA: nat, lenB: nat, lenC: nat)
    requires p.Sizes(lenA, lenB, lenC)
    ensures p.RowMajorTiles(unrollZ, unrollJ).InBounds(lenA, lenB, lenC)
    ensures p.RowMajorTiles(unrollZ, unrollJ).TilesDisjoint()
  {
    var k := p.RowMajorTiles(unrollZ, unrollJ);
    forall z, i | 0 <= z < k.rowA && 0 <= i < k.colA ensures k.a.Tile(z, i) + k.r * k.s <= lenA {
      ByRowsFits(p.offA, p.rowA, p.colA, p.r * p.s, z, i);
    }
    forall i, j | 0 <= i < k.colA && 0 <= j < k.colB ensures k.b.Tile(i, j) + k.s * k.t <= lenB {
      ByRowsFits(p.offB, p.colA, p.colB, p.s * p.t, i, j);
    }
    forall z, j | 0 <= z < k.rowA && 0 <= j < k.colB ensures k.c.Tile(z, j) + k.r * k.t <= lenC {
      ByRowsFits(p.offC, p.rowA, p.colB, p.r * p.t, z, j);
    }
    RowTilesDisjoint(k, p.offC);
  }

  lemma RowTilesDisjoint(k: Kernel, base: nat)
    requires k.c == ByRows(base, k.colB, k.r * k.t)
    ensures k.TilesDisjoint()
  {
    var size := k.r * k.t;
    forall z, j, z', j' |
      0 <= z < k.rowA && 0 <= j < k.colB && 0 <= z' < k.rowA && 0 <= j' < k.colB && (z, j) != (z', j')
      ensures k.c.Tile(z, j) + size <= k.c.Tile(z', j') || k.c.Tile(z', j') + size <= k.c.Tile(z, j)
    {
      ByRowsFits(base, k.rowA, k.colB, size, z, j);
      ByRowsFits(base, k.rowA, k.colB, size, z', j');
      DenseTilesApart(z, j, z', j', k.colB, size);
    }
  }

  lemma VerticalStripesValid(p: Problem, lenA: nat, lenB: nat, lenC: nat)
    requires p.Sizes(lenA, lenB, lenC)
    ensures p.VerticalStripes().InBounds(lenA, lenB, lenC) && p.VerticalStripes().TilesDisjoint()
  {
    var k := p.VerticalStripes();
    forall z, i | 0 <= z < k.rowA && 0 <= i < k.colA ensures k.a.Tile(z, i) + k.r * k.s <= lenA {
      ByColumnsFits(p.offA, p.rowA, p.colA, p.r * p.s, z, i);
    }
    forall i, j | 0 <= i < k.colA && 0 <= j < k.colB ensures k.b.Tile(i, j) + k.s * k.t <= lenB {
      ByColumnsFits(p.offB, p.colA, p.colB, p.s * p.t, i, j);
    }
    forall z, j | 0 <= z < k.rowA && 0 <= j < k.colB ensures k.c.Tile(z, j) + k.r * k.t <= lenC {
      ByColumnsFits(p.offC, p.rowA, p.colB, p.r * p.t, z, j);
    }
    StripesDisjoint(k, p.offC);
  }

  lemma StripesDisjoint(k: Kernel, base: nat)
    requires k.c == ByColumns(base, k.rowA, k.r * k.t)
    ensures k.TilesDisjoint()
  {
    var size := k.r * k.t;
    forall z, j, z', j' |
      0 <= z < k.rowA && 0 <= j < k.colB && 0 <= z' < k.rowA && 0 <= j' < k.colB && (z, j) != (z', j')
      ensures k.c.Tile(z, j) + size <= k.c.Tile(z', j') || k.c.Tile(z', j') + size <= k.c.Tile(z, j)
    {
      ByColumnsFits(base, k.rowA, k.colB, size, z, j);
      ByColumnsFits(base, k.rowA, k.colB, size, z', j');
      DenseTilesApart(j, z, j', z', k.rowA, size);
    }
  }

  lemma ColumnMajorBValid(p: Problem, lenA: nat, lenB: nat, lenC: nat)
    requires p.Sizes(lenA, lenB, lenC)
    ensures p.ColumnMajorB().InBounds(lenA, lenB, lenC) && p.ColumnMajorB().TilesDisjoint()
  {
    var k := p.ColumnMajorB();
    forall z, i | 0 <= z < k.rowA && 0 <= i < k.colA ensures k.a.Tile(z, i) + k.r * k.s <= lenA {
      ByRowsFits(p.offA, p.rowA, p.colA, p.r * p.s, z, i);
    }
    forall i, j | 0 <= i < k.colA && 0 <= j < k.colB ensures k.b.Tile(i, j) + k.s * k.t <= lenB {
      ByColumnsFits(p.offB, p.colA, p.colB, p.s * p.t, i, j);
    }
    forall z, j | 0 <= z < k.rowA && 0 <= j < k.colB ensures k.c.Tile(z, j) + k.r * k.t <= lenC {
      ByRowsFits(p.offC, p.rowA, p.colB, p.r * p.t, z, j);
    }
    RowTilesDisjoint(k, p.offC);
  }

  /** The documented address of an element in vertical stripes is the address the kernel reads it at. */
  lemma StripeFormula(p: Problem, row: nat, kk: nat, col: nat)
    requires p.r > 0 && p.s > 0 && p.t > 0
    ensures AddressA(p.VerticalStripes(), row, kk)
      == p.offA + row * p.s + (p.rowA * p.r * p.s) * (kk / p.s) + kk % p.s
    ensures AddressB(p.VerticalStripes(), kk, col)
      == p.offB + kk * p.t + (p.colA * p.s * p.t) * (col / p.t) + col % p.t
  {
    StripeAddress(row, p.r, p.s, p.rowA, kk / p.s);
    StripeAddress(kk, p.s, p.t, p.colA, col / p.t);
  }

  // ----- the five kernels

  /** Steps of 2 x 2 tiles; `matmul_vectorized`. */
  method MatmulVectorized(p: Problem, pA: array<int>, pB: array<int>, pC: array<int>)
    requires p.Sizes(pA.Length, pB.Length, pC.Length) && pA != pC && pB != pC
    requires p.rowA % 2 == 0 && p.colB % 2 == 0 && p.colA > 0
    modifies pC
    ensures Multiplied(p.RowMajorTiles(2, 2), pA[..], pB[..], old(pC[..]), pC[..])
  {
    RowMajorTilesValid(p, 2, 2, pA.Length, pB.Length, pC.Length);
    var _, _ := Matmul(p.RowMajorTiles(2, 2), pA, pB, pC);
  }

  /** Steps of 4 x 2 tiles; `matmul_vectorized_1x2`. */
  method MatmulVectorized1x2(p: Problem, pA: array<int>, pB: array<int>, pC: array<int>)
    requires p.Sizes(pA.Length, pB.Length, pC.Length) && pA != pC && pB != pC
    requires p.rowA % 4 == 0 && p.colB % 2 == 0 && p.colA > 0
    modifies pC
    ensures Multiplied(p.RowMajorTiles(4, 2), pA[..], pB[..], old(pC[..]), pC[..])
  {
    RowMajorTilesValid(p, 4, 2, pA.Length, pB.Length, pC.Length);
    var _, _ := Matmul(p.RowMajorTiles(4, 2), pA, pB, pC);
  }

  /** Steps of 4 x 4 tiles; `matmul_vectorized_2x2`. */
  method MatmulVectorized2x2(p: Problem, pA: array<int>, pB: array<int>, pC: array<int>)
    requires p.Sizes(pA.Length, pB.Length, pC.Length) && pA != pC && pB != pC
    requires p.rowA % 4 == 0 && p.colB % 4 == 0 && p.colA > 0
    modifies pC
    ensures Multiplied(p.RowMajorTiles(4, 4), pA[..], pB[..], old(pC[..]), pC[..])
  {
    RowMajorTilesValid(p, 4, 4, pA.Length, pB.Length, pC.Length);
    var _, _ := Matmul(p.RowMajorTiles(4, 4), pA, pB, pC);
  }

  /** Steps of 4 x 4 tiles on vertical stripes with offsets. */
  method MatmulStripes(p: Problem, pA: array<int>, pB: array<int>, pC: array<int>)
    requires p.Sizes(pA.Length, pB.Length, pC.Length) && pA != pC && pB != pC
    requires p.rowA % 4 == 0 && p.colB % 4 == 0 && p.colA > 0
    modifies pC
    ensures Multiplied(p.VerticalStripes(), pA[..], pB[..], old(pC[..]), pC[..])
  {
    VerticalStripesValid(p, pA.Length, pB.Length, pC.Length);
    var _, _ := Matmul(p.VerticalStripes(), pA, pB, pC);
  }

  /** Steps of 2 x 2 tiles with B in column-major order. */
  method MatmulColumnMajorB(p: Problem, pA: array<int>, pB: array<int>, pC: array<int>)
    requires p.Sizes(pA.Length, pB.Length, pC.Length) && pA != pC && pB != pC
    requires p.rowA % 2 == 0 && p.colB % 2 == 0 && p.colA > 0
    modifies pC
    ensures Multiplied(p.ColumnMajorB(), pA[..], pB[..], old(pC[..]), pC[..])
  {
    ColumnMajorBValid(p, pA.Length, pB.Length, pC.Length);
    var _, _ := Matmul(p.ColumnMajorB(), pA, pB, pC);
  }

  lemma StripeAddress(row: nat, r: nat, s: nat, n: nat, v: nat)
    requires r > 0
    ensures (row / r) * (r * s) + v * (n * (r * s)) + (row % r) * s == row * s + (n * r * s) * v
  {
    assert row == (row / r) * r + row % r;
    assert row * s == (row / r) * r * s + (row % r) * s;
    assert (row / r) * (r * s) == (row / r) * r * s;
    assert n * (r * s) == n * r * s;
  }

  // ----- the static assertions are not enough for the 4-row kernels

  /** One past the last tile row touched by a loop that goes up in steps of `unroll` and takes whole blocks. */
  function RowsTouched(z: nat, rows: nat, unroll: nat): nat
    requires unroll > 0
    decreases rows - z
  {
    if z < rows then RowsTouched(z + unroll, rows, unroll) else z
  }

  lemma {:induction false} RowsTouchedAreWholeBlocks(z: nat, rows: nat, unroll: nat)
    requires unroll > 0 && z % unroll == 0
    ensures RowsTouched(z, rows, unroll) % unroll == 0 && RowsTouched(z, rows, unroll) >= rows
    ensures rows % unroll == 0 && z <= rows ==> RowsTouched(z, rows, unroll) == rows
    decreases rows - z
  {
    if z < rows {
      assert z == (z / unroll) * unroll;
      DivModUnique(z + unroll, unroll, z / unroll + 1, 0);
      if rows % unroll == 0 {
        BlocksFit(rows, unroll, z);
      }
      RowsTouchedAreWholeBlocks(z + unroll, rows, unroll);
    }
  }

  /** The loop stays inside the tile rows exactly when the block height divides them. */
  lemma StaysInsideIff(rows: nat, unroll: nat)
    requires unroll > 0
    ensures RowsTouched(0, rows, unroll) <= rows <==> rows % unroll == 0
  {
    RowsTouchedAreWholeBlocks(0, rows, unroll);
  }

  predicate StaticAsserts(m: nat, r: nat) {
    r > 0 && m % (2 * r) == 0 && m / (2 * r) > 0
  }

  /** A kernel that takes blocks of `unrollZ` tile rows and `unrollJ` tile columns stays inside C. */
  predicate StaysInside(rows: nat, cols: nat, unrollZ: nat, unrollJ: nat)
    requires unrollZ > 0 && unrollJ > 0
  {
    RowsTouched(0, rows, unrollZ) <= rows && RowsTouched(0, cols, unrollJ) <= cols
  }

  /** The asserted sizes are enough for the kernel with blocks of 2 x 2; for blocks of 4 x 2 and 4 x 4 the numbers of
      tiles must be multiples of four where the block is four, which they need not be. */
  lemma AssertedSizesSufficeIff(m: nat, n: nat, r: nat, t: nat)
    requires StaticAsserts(m, r) && StaticAsserts(n, t)
    ensures m / r > 0 && n / t > 0
    ensures StaysInside(m / r, n / t, 2, 2)
    ensures StaysInside(m / r, n / t, 4, 2) <==> (m / r) % 4 == 0
    ensures StaysInside(m / r, n / t, 4, 4) <==> (m / r) % 4 == 0 && (n / t) % 4 == 0
  {
    EvenTiles(m, r);
    EvenTiles(n, t);
    hide RowsTouched, StaticAsserts;
    StaysInsideIff(m / r, 2);
    StaysInsideIff(m / r, 4);
    StaysInsideIff(n / t, 2);
    StaysInsideIff(n / t, 4);
  }

  lemma EvenTiles(m: nat, r: nat)
    requires StaticAsserts(m, r)
    ensures (m / r) % 2 == 0 && m / r > 0
  {
    var q := m / (2 * r);
    assert m == q * (2 * r) == (2 * q) * r + 0;
    DivModUnique(m, r, 2 * q, 0);
  }

  /** Sizes that are asserted and make the kernels with blocks of four run over: two tiles of four. */
  lemma StaticAssertsGiveTwoNotFour()
    ensures StaticAsserts(8, 4) && !StaysInside(8 / 4, 8 / 4, 4, 2) && !StaysInside(8 / 4, 16 / 4, 4, 4)
    ensures StaticAsserts(16, 4) && !StaysInside(16 / 4, 8 / 4, 4, 4)
  {
    assert RowsTouched(0, 2, 4) == 4;
  }
}
