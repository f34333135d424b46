/** The vectorized matrix-multiplication kernels: one loop nest, five layouts and unroll factors. */
module MatmulKernels {
  import opened Indexing
  import opened Matrices
  import opened VectorUnit

  /** Tile addresses `base + u * outer + v * inner`. */
  datatype Affine = Affine(base: nat, outer: nat, inner: nat) {
    function Tile(u: nat, v: nat): nat { base + u * outer + v * inner }
  }

  /** Tile counts, tile shape, where the tiles lie, and how many tile rows and columns are computed at once. */
  datatype Kernel = Kernel(rowA: nat, colA: nat, colB: nat, r: nat, s: nat, t: nat,
                           a: Affine, b: Affine, c: Affine, transposeB: bool, unrollZ: nat, unrollJ: nat) {
    ghost predicate FitsA(len: nat) {
      forall z, i :: 0 <= z < rowA && 0 <= i < colA ==> a.Tile(z, i) + r * s <= len
    }

    ghost predicate FitsB(len: nat) {
      forall i, j :: 0 <= i < colA && 0 <= j < colB ==> b.Tile(i, j) + s * t <= len
    }

    ghost predicate FitsC(len: nat) {
      forall z, j :: 0 <= z < rowA && 0 <= j < colB ==> c.Tile(z, j) + r * t <= len
    }

    ghost predicate InBounds(lenA: nat, lenB: nat, lenC: nat) { FitsA(lenA) && FitsB(lenB) && FitsC(lenC) }

    ghost predicate TilesDisjoint() {
      forall z, j, z', j' ::
        0 <= z < rowA && 0 <= j < colB && 0 <= z' < rowA && 0 <= j' < colB && (z, j) != (z', j') ==>
        c.Tile(z, j) + r * t <= c.Tile(z', j') || c.Tile(z', j') + r * t <= c.Tile(z, j)
    }

    /** What the kernel relies on: whole blocks of tiles, and a first column of A to start from. */
    ghost predicate Unrolls() {
      && unrollZ > 0 && unrollJ > 0 && rowA % unrollZ == 0 && colB % unrollJ == 0 && colA > 0
    }
  }

  // ----- what is computed, tile by tile

  function TileA(k: Kernel, a: seq<int>, z: nat, i: nat): seq<int>
    requires k.a.Tile(z, i) + k.r * k.s <= |a|
  {
    LoadV(a, k.a.Tile(z, i), k.r * k.s)
  }

  /** A tile of B, as an s x t tile. */
  function TileB(k: Kernel, b: seq<int>, i: nat, j: nat): seq<int>
    requires k.b.Tile(i, j) + k.s * k.t <= |b|
  {
    var v := LoadV(b, k.b.Tile(i, j), k.s * k.t);
    if k.transposeB then Transpose(v, k.t, k.s) else v
  }

  function TileC(k: Kernel, c: seq<int>, z: nat, j: nat): seq<int>
    requires k.c.Tile(z, j) + k.r * k.t <= |c|
  {
    LoadV(c, k.c.Tile(z, j), k.r * k.t)
  }

  /** The accumulator of one tile of C after `n` multiply-accumulates. */
  function Accumulated(k: Kernel, a: seq<int>, b: seq<int>, c0: seq<int>, z: nat, j: nat, n: nat): seq<int>
    requires k.InBounds(|a|, |b|, |c0|) && z < k.rowA && j < k.colB && n <= k.colA
  {
    if n == 0 then TileC(k, c0, z, j)
    else Mac(k.r, k.s, k.t, Accumulated(k, a, b, c0, z, j, n - 1), TileA(k, a, z, n - 1), TileB(k, b, n - 1, j))
  }

  ghost predicate InTile(k: Kernel, z: nat, j: nat, addr: int) {
    k.c.Tile(z, j) <= addr < k.c.Tile(z, j) + k.r * k.t
  }

  ghost predicate OutsideTiles(k: Kernel, addr: int) {
    forall z: nat, j: nat :: z < k.rowA && j < k.colB ==> !InTile(k, z, j, addr)
  }

  /** Of the tiles in `done`, each holds its product; everything else is as it was. */
  ghost predicate Computed(k: Kernel, a: seq<int>, b: seq<int>, c0: seq<int>, c: seq<int>, done: set<(nat, nat)>) {
    && |c| == |c0| && k.InBounds(|a|, |b|, |c0|)
    && (forall z, j :: 0 <= z < k.rowA && 0 <= j < k.colB ==>
      TileC(k, c, z, j) == Accumulated(k, a, b, c0, z, j, if (z, j) in done then k.colA else 0))
    && (forall addr :: 0 <= addr < |c| && (forall z, j :: (z, j) in done ==> !InTile(k, z, j, addr)) ==>
      c[addr] == c0[addr])
  }

  /** Writing one more finished tile. */
  lemma TileWritten(k: Kernel, a: seq<int>, b: seq<int>, c0: seq<int>, c: seq<int>, done: set<(nat, nat)>,
                    z: nat, j: nat, v: seq<int>)
    requires Computed(k, a, b, c0, c, done) && k.TilesDisjoint()
    requires z < k.rowA && j < k.colB && v == Accumulated(k, a, b, c0, z, j, k.colA) && |v| == k.r * k.t
    ensures Computed(k, a, b, c0, Splice(c, k.c.Tile(z, j), v), done + {(z, j)})
  {
    var p := k.c.Tile(z, j);
    var c' := Splice(c, p, v);
    SpliceHere(c, p, v);
    forall z', j' | 0 <= z' < k.rowA && 0 <= j' < k.colB && (z', j') != (z, j)
      ensures TileC(k, c', z', j') == TileC(k, c, z', j')
    {
      SpliceElsewhere(c, p, v, k.c.Tile(z', j'), k.r * k.t);
    }
    forall addr | 0 <= addr < |c'| && (forall z', j' :: (z', j') in done + {(z, j)} ==> !InTile(k, z', j', addr))
      ensures c'[addr] == c0[addr]
    {
      assert (z, j) in done + {(z, j)};
      assert forall z', j' :: (z', j') in done ==> (z', j') in done + {(z, j)};
    }
  }

  // ----- the loops, walking pointers

  lemma NextTile(x: Affine, u: nat, v: nat, w: nat)
    ensures x.Tile(u, v + w) == x.Tile(u, v) + w * x.inner
    ensures x.Tile(u + w, v) == x.Tile(u, v) + w * x.outer
  {
    assert (v + w) * x.inner == v * x.inner + w * x.inner;
    assert (u + w) * x.outer == u * x.outer + w * x.outer;
  }

  /** Tiles `(z, j)` come before block `(zb, jb)`, or before position `(p, q)` inside it. */
  ghost predicate Before(k: Kernel, zb: nat, jb: nat, p: nat, q: nat, z: nat, j: nat) {
    z < zb || (z < zb + k.unrollZ && (j < jb || (j < jb + k.unrollJ && (z < zb + p || (z == zb + p && j < jb + q)))))
  }

  ghost predicate DoneBefore(k: Kernel, done: set<(nat, nat)>, zb: nat, jb: nat, p: nat, q: nat) {
    forall z: nat, j: nat :: (z, j) in done <==> z < k.rowA && j < k.colB && Before(k, zb, jb, p, q, z, j)
  }

  /** Block `(z, j)` lies inside the grid of tiles. */
  ghost predicate BlockInside(k: Kernel, z: nat, j: nat) {
    z + k.unrollZ <= k.rowA && j + k.unrollJ <= k.colB
  }

  /** The accumulators of a block, after `n` multiply-accumulates each. */
  ghost predicate BlockAccumulated(k: Kernel, a: seq<int>, b: seq<int>, c0: seq<int>, z: nat, j: nat,
                                   acc: seq<seq<seq<int>>>, n: nat)
    requires k.InBounds(|a|, |b|, |c0|) && n <= k.colA && BlockInside(k, z, j)
  {
    && |acc| == k.unrollZ
    && (forall p :: 0 <= p < k.unrollZ ==> |acc[p]| == k.unrollJ)
    && (forall p, q :: 0 <= p < k.unrollZ && 0 <= q < k.unrollJ ==>
      acc[p][q] == Accumulated(k, a, b, c0, z + p, j + q, n))
  }

  /** The column of A tiles a block multiplies in step `i`. */
  ghost predicate LoadedA(k: Kernel, a: seq<int>, z: nat, i: nat, tiles: seq<seq<int>>)
    requires k.FitsA(|a|) && z + k.unrollZ <= k.rowA && i < k.colA
  {
    |tiles| == k.unrollZ && forall p :: 0 <= p < k.unrollZ ==> tiles[p] == TileA(k, a, z + p, i)
  }

  /** The row of B tiles a block multiplies in step `i`. */
  ghost predicate LoadedB(k: Kernel, b: seq<int>, i: nat, j: nat, tiles: seq<seq<int>>)
    requires k.FitsB(|b|) && j + k.unrollJ <= k.colB && i < k.colA
  {
    |tiles| == k.unrollJ && forall q :: 0 <= q < k.unrollJ ==> tiles[q] == TileB(k, b, i, j + q)
  }

  ghost predicate PointsA(k: Kernel, z: nat, i: nat, ptrs: seq<int>) {
    |ptrs| == k.unrollZ && forall p :: 0 <= p < k.unrollZ ==> ptrs[p] == k.a.Tile(z + p, i)
  }

  ghost predicate PointsB(k: Kernel, i: nat, j: nat, ptrs: seq<int>) {
    |ptrs| == k.unrollJ && forall q :: 0 <= q < k.unrollJ ==> ptrs[q] == k.b.Tile(i, j + q)
  }

  ghost predicate PointsC(k: Kernel, z: nat, j: nat, ptrs: seq<int>) {
    |ptrs| == k.unrollZ && forall p :: 0 <= p < k.unrollZ ==> ptrs[p] == k.c.Tile(z + p, j)
  }

  function Advance(ptrs: seq<int>, step: int): seq<int> {
    seq(|ptrs|, p requires 0 <= p < |ptrs| => ptrs[p] + step)
  }

  lemma AdvanceA(k: Kernel, z: nat, i: nat, ptrs: seq<int>)
    requires PointsA(k, z, i, ptrs)
    ensures PointsA(k, z, i + 1, Advance(ptrs, k.a.inner))
  {
    forall p | 0 <= p < k.unrollZ ensures Advance(ptrs, k.a.inner)[p] == k.a.Tile(z + p, i + 1) {
      NextTile(k.a, z + p, i, 1);
    }
  }

  lemma AdvanceB(k: Kernel, i: nat, j: nat, ptrs: seq<int>)
    requires PointsB(k, i, j, ptrs)
    ensures PointsB(k, i + 1, j, Advance(ptrs, k.b.outer))
  {
    forall q | 0 <= q < k.unrollJ ensures Advance(ptrs, k.b.outer)[q] == k.b.Tile(i + 1, j + q) {
      NextTile(k.b, i, j + q, 1);
    }
  }

  lemma AdvanceC(k: Kernel, z: nat, j: nat, ptrs: seq<int>, n: nat)
    requires PointsC(k, z, j, ptrs)
    ensures PointsC(k, z, j + n, Advance(ptrs, n * k.c.inner))
  {
    forall p | 0 <= p < k.unrollZ ensures Advance(ptrs, n * k.c.inner)[p] == k.c.Tile(z + p, j + n) {
      NextTile(k.c, z + p, j, n);
    }
  }

  function LoadAll(m: seq<int>, ptrs: seq<int>, n: nat): seq<seq<int>>
    requires forall p :: 0 <= p < |ptrs| ==> 0 <= ptrs[p] <= ptrs[p] + n <= |m|
  {
    seq(|ptrs|, p requires 0 <= p < |ptrs| => LoadV(m, ptrs[p], n))
  }

  function TransposeAll(k: Kernel, tiles: seq<seq<int>>): seq<seq<int>> {
    seq(|tiles|, q requires 0 <= q < |tiles| => if k.transposeB then Transpose(tiles[q], k.t, k.s) else tiles[q])
  }

  /** All multiply-accumulates of one step of a block. */
  function MacAll(k: Kernel, acc: seq<seq<seq<int>>>, tilesA: seq<seq<int>>, tilesB: seq<seq<int>>): seq<seq<seq<int>>>
    requires |acc| == |tilesA| && forall p :: 0 <= p < |acc| ==> |acc[p]| == |tilesB|
  {
    seq(|acc|, p requires 0 <= p < |acc| =>
      seq(|tilesB|, q requires 0 <= q < |tilesB| => Mac(k.r, k.s, k.t, acc[p][q], tilesA[p], tilesB[q])))
  }

  lemma MacStep(k: Kernel, a: seq<int>, b: seq<int>, c0: seq<int>, z: nat, j: nat,
                acc: seq<seq<seq<int>>>, i: nat, tilesA: seq<seq<int>>, tilesB: seq<seq<int>>)
    requires k.InBounds(|a|, |b|, |c0|) && i < k.colA && BlockInside(k, z, j)
    requires BlockAccumulated(k, a, b, c0, z, j, acc, i)
    requires LoadedA(k, a, z, i, tilesA) && LoadedB(k, b, i, j, tilesB)
    ensures BlockAccumulated(k, a, b, c0, z, j, MacAll(k, acc, tilesA, tilesB), i + 1)
  {
    var acc' := MacAll(k, acc, tilesA, tilesB);
    forall p, q | 0 <= p < k.unrollZ && 0 <= q < k.unrollJ
      ensures acc'[p][q] == Accumulated(k, a, b, c0, z + p, j + q, i + 1)
    {
      assert acc'[p][q] == Mac(k.r, k.s, k.t, acc[p][q], tilesA[p], tilesB[q]);
    }
  }

  /** Loads the A and B tiles of step `i` and moves both sets of pointers on. */
  method LoadStep(k: Kernel, pA: array<int>, pB: array<int>, ptrA: seq<int>, ptrB: seq<int>,
                  ghost z: nat, ghost j: nat, ghost i: nat)
    returns (tilesA: seq<seq<int>>, tilesB: seq<seq<int>>, ptrA': seq<int>, ptrB': seq<int>)
    requires k.FitsA(pA.Length) && k.FitsB(pB.Length) && BlockInside(k, z, j) && i < k.colA
    requires PointsA(k, z, i, ptrA) && PointsB(k, i, j, ptrB)
    ensures LoadedA(k, pA[..], z, i, tilesA) && LoadedB(k, pB[..], i, j, tilesB)
    ensures PointsA(k, z, i + 1, ptrA') && PointsB(k, i + 1, j, ptrB')
  {
    tilesA := LoadAll(pA[..], ptrA, k.r * k.s);
    ptrA' := Advance(ptrA, k.a.inner);
    tilesB := TransposeAll(k, LoadAll(pB[..], ptrB, k.s * k.t));
    ptrB' := Advance(ptrB, k.b.outer);
    AdvanceA(k, z, i, ptrA);
    AdvanceB(k, i, j, ptrB);
  }

  // ----- the order in which tiles are met

  ghost function Elements(tiles: seq<(nat, nat)>): set<(nat, nat)> { set t | t in tiles }

  ghost predicate NoRepeats(tiles: seq<(nat, nat)>) { forall i, l :: 0 <= i < l < |tiles| ==> tiles[i] != tiles[l] }

  /** The tiles met so far, each once. */
  ghost predicate Met(k: Kernel, tiles: seq<(nat, nat)>, zb: nat, jb: nat, p: nat, q: nat) {
    NoRepeats(tiles) && DoneBefore(k, Elements(tiles), zb, jb, p, q)
  }

  lemma MetNextTile(k: Kernel, tiles: seq<(nat, nat)>, zb: nat, jb: nat, p: nat, q: nat)
    requires Met(k, tiles, zb, jb, p, q) && BlockInside(k, zb, jb) && p < k.unrollZ && q < k.unrollJ
    ensures Met(k, tiles + [(zb + p, jb + q)], zb, jb, p, q + 1)
    ensures Elements(tiles + [(zb + p, jb + q)]) == Elements(tiles) + {(zb + p, jb + q)}
  {
    assert (zb + p, jb + q) !in Elements(tiles);
    assert Elements(tiles + [(zb + p, jb + q)]) == Elements(tiles) + {(zb + p, jb + q)};
  }

  lemma MetNextRow(k: Kernel, tiles: seq<(nat, nat)>, zb: nat, jb: nat, p: nat)
    requires Met(k, tiles, zb, jb, p, k.unrollJ)
    ensures Met(k, tiles, zb, jb, p + 1, 0)
  {}

  lemma MetNextBlock(k: Kernel, tiles: seq<(nat, nat)>, zb: nat, jb: nat)
    requires Met(k, tiles, zb, jb, k.unrollZ, 0)
    ensures Met(k, tiles, zb, jb + k.unrollJ, 0, 0)
  {}

  lemma MetNextStripe(k: Kernel, tiles: seq<(nat, nat)>, zb: nat)
    requires Met(k, tiles, zb, k.colB, 0, 0)
    ensures Met(k, tiles, zb + k.unrollZ, 0, 0, 0)
  {}

  lemma MetMeansPending(k: Kernel, tiles: seq<(nat, nat)>, zb: nat, jb: nat)
    requires Met(k, tiles, zb, jb, 0, 0)
    ensures Pending(k, Elements(tiles), zb, jb)
  {}

  // ----- one block

  /** No tile of the block has been written yet. */
  ghost predicate Pending(k: Kernel, done: set<(nat, nat)>, z: nat, j: nat) {
    forall z': nat, j': nat :: z <= z' < z + k.unrollZ && j <= j' < j + k.unrollJ ==> (z', j') !in done
  }

  /** Loads the accumulators of one row of a block from C. */
  method LoadRow(k: Kernel, c: seq<int>, ptr: int, ghost a: seq<int>, ghost b: seq<int>, ghost c0: seq<int>,
                 ghost done: set<(nat, nat)>, ghost zb: nat, ghost p: nat, ghost j: nat, ghost loads: seq<(nat, nat)>)
    returns (row: seq<seq<int>>, ghost loads': seq<(nat, nat)>)
    requires Computed(k, a, b, c0, c, done) && BlockInside(k, zb, j) && p < k.unrollZ && ptr == k.c.Tile(zb + p, j)
    requires Pending(k, done, zb, j) && Met(k, loads, zb, j, p, 0)
    ensures |row| == k.unrollJ && Met(k, loads', zb, j, p + 1, 0)
    ensures forall q :: 0 <= q < k.unrollJ ==> row[q] == Accumulated(k, a, b, c0, zb + p, j + q, 0)
  {
    hide Met;
    row, loads' := [], loads;
    ghost var z := zb + p;
    var q := 0;
    while q < k.unrollJ
      invariant 0 <= q <= k.unrollJ && |row| == q && Met(k, loads', zb, j, p, q)
      invariant forall q' :: 0 <= q' < q ==> row[q'] == Accumulated(k, a, b, c0, z, j + q', 0)
    {
      NextTile(k.c, z, j, q);
      assert TileC(k, c, z, j + q) == Accumulated(k, a, b, c0, z, j + q, 0);
      row := row + [LoadV(c, ptr + q * k.c.inner, k.r * k.t)];
      MetNextTile(k, loads', zb, j, p, q);
      loads' := loads' + [(zb + p, j + q)];
      q := q + 1;
    }
    MetNextRow(k, loads', zb, j, p);
  }

  /** Loads the accumulators of a block from C. */
  method LoadBlock(k: Kernel, pC: array<int>, ptrC: seq<int>, ghost a: seq<int>, ghost b: seq<int>, ghost c0: seq<int>,
                   ghost done: set<(nat, nat)>, ghost z: nat, ghost j: nat, ghost loads: seq<(nat, nat)>)
    returns (acc: seq<seq<seq<int>>>, ghost loads': seq<(nat, nat)>)
    requires k.InBounds(|a|, |b|, |c0|) && BlockInside(k, z, j) && PointsC(k, z, j, ptrC)
    requires Computed(k, a, b, c0, pC[..], done) && Pending(k, done, z, j) && Met(k, loads, z, j, 0, 0)
    ensures BlockAccumulated(k, a, b, c0, z, j, acc, 0) && Met(k, loads', z, j + k.unrollJ, 0, 0)
  {
    hide Met;
    acc, loads' := [], loads;
    var p := 0;
    while p < k.unrollZ
      invariant 0 <= p <= k.unrollZ && |acc| == p && Met(k, loads', z, j, p, 0)
      invariant forall p' :: 0 <= p' < p ==> |acc[p']| == k.unrollJ
      invariant forall p', q :: 0 <= p' < p && 0 <= q < k.unrollJ ==>
        acc[p'][q] == Accumulated(k, a, b, c0, z + p', j + q, 0)
    {
      var row;
      row, loads' := LoadRow(k, pC[..], ptrC[p], a, b, c0, done, z, p, j, loads');
      acc := acc + [row];
      p := p + 1;
    }
    MetNextBlock(k, loads', z, j);
  }

  /** Multiplies one block: the first step fills the accumulators, the others go through the rest of the K tiles. */
  method MultiplyBlock(k: Kernel, pA: array<int>, pB: array<int>, pC: array<int>, z: nat, j: nat, ptrC: seq<int>,
                       ghost c0: seq<int>, ghost done: set<(nat, nat)>, ghost loads: seq<(nat, nat)>)
    returns (acc: seq<seq<seq<int>>>, ghost loads': seq<(nat, nat)>)
    requires k.InBounds(pA.Length, pB.Length, |c0|) && BlockInside(k, z, j) && PointsC(k, z, j, ptrC) && k.colA > 0
    requires Computed(k, pA[..], pB[..], c0, pC[..], done) && Pending(k, done, z, j) && Met(k, loads, z, j, 0, 0)
    ensures BlockAccumulated(k, pA[..], pB[..], c0, z, j, acc, k.colA) && Met(k, loads', z, j + k.unrollJ, 0, 0)
  {
    var ptrA := seq(k.unrollZ, p requires 0 <= p < k.unrollZ => k.a.base + (z + p) * k.a.outer);
    var ptrB := seq(k.unrollJ, q requires 0 <= q < k.unrollJ => k.b.base + (j + q) * k.b.inner);
    assert PointsA(k, z, 0, ptrA) && PointsB(k, 0, j, ptrB);
    hide Computed, BlockAccumulated, PointsA, PointsB, PointsC, Pending, LoadedA, LoadedB, Met;
    var tilesA, tilesB;
    tilesA, tilesB, ptrA, ptrB := LoadStep(k, pA, pB, ptrA, ptrB, z, j, 0);
    acc, loads' := LoadBlock(k, pC, ptrC, pA[..], pB[..], c0, done, z, j, loads);
    acc := MultiplyStep(k, pA[..], pB[..], c0, z, j, 0, acc, tilesA, tilesB);
    var i := 1;
    while i < k.colA
      invariant 1 <= i <= k.colA
      invariant PointsA(k, z, i, ptrA) && PointsB(k, i, j, ptrB)
      invariant BlockAccumulated(k, pA[..], pB[..], c0, z, j, acc, i)
    {
      tilesA, tilesB, ptrA, ptrB := LoadStep(k, pA, pB, ptrA, ptrB, z, j, i);
      acc := MultiplyStep(k, pA[..], pB[..], c0, z, j, i, acc, tilesA, tilesB);
      i := i + 1;
    }
  }

  method MultiplyStep(k: Kernel, ghost a: seq<int>, ghost b: seq<int>, ghost c0: seq<int>, ghost z: nat, ghost j: nat,
                      ghost i: nat, acc: seq<seq<seq<int>>>, tilesA: seq<seq<int>>, tilesB: seq<seq<int>>)
    returns (acc': seq<seq<seq<int>>>)
    requires k.InBounds(|a|, |b|, |c0|) && i < k.colA && BlockInside(k, z, j)
    requires BlockAccumulated(k, a, b, c0, z, j, acc, i)
    requires LoadedA(k, a, z, i, tilesA) && LoadedB(k, b, i, j, tilesB)
    ensures BlockAccumulated(k, a, b, c0, z, j, acc', i + 1)
  {
    MacStep(k, a, b, c0, z, j, acc, i, tilesA, tilesB);
    acc' := MacAll(k, acc, tilesA, tilesB);
  }

  // ----- storing

  lemma TileInBounds(k: Kernel, a: seq<int>, b: seq<int>, c0: seq<int>, c: seq<int>, done: set<(nat, nat)>, z: nat,
                     j: nat)
    requires Computed(k, a, b, c0, c, done) && z < k.rowA && j < k.colB && k.colA > 0
    ensures |c| == |c0| && k.InBounds(|a|, |b|, |c|)
    ensures |Accumulated(k, a, b, c0, z, j, k.colA)| == k.r * k.t
    ensures k.c.Tile(z, j) + k.r * k.t <= |c|
  {}

  /** Stores one finished tile. */
  method StoreTile(k: Kernel, pC: array<int>, ptr: int, tile: seq<int>, ghost a: seq<int>, ghost b: seq<int>,
                   ghost c0: seq<int>, ghost done: set<(nat, nat)>, ghost z: nat, ghost j: nat)
    requires k.TilesDisjoint() && Computed(k, a, b, c0, pC[..], done)
    requires z < k.rowA && j < k.colB && ptr == k.c.Tile(z, j) && k.colA > 0
    requires tile == Accumulated(k, a, b, c0, z, j, k.colA)
    modifies pC
    ensures Computed(k, a, b, c0, pC[..], done + {(z, j)})
  {
    TileInBounds(k, a, b, c0, pC[..], done, z, j);
    TileWritten(k, a, b, c0, pC[..], done, z, j, tile);
    StoreV(pC, ptr, tile);
  }

  /** Stores one row of a finished block, moving its pointer past the tiles it writes. */
  method StoreRow(k: Kernel, pC: array<int>, ptr: int, row: seq<seq<int>>, ghost a: seq<int>, ghost b: seq<int>,
                  ghost c0: seq<int>, ghost stores: seq<(nat, nat)>, ghost zb: nat, ghost j: nat, ghost p: nat)
    returns (ptr': int, ghost stores': seq<(nat, nat)>)
    requires k.TilesDisjoint() && Computed(k, a, b, c0, pC[..], Elements(stores))
    requires p < k.unrollZ && BlockInside(k, zb, j) && ptr == k.c.Tile(zb + p, j)
    requires |row| == k.unrollJ && k.colA > 0
    requires forall q :: 0 <= q < k.unrollJ ==> row[q] == Accumulated(k, a, b, c0, zb + p, j + q, k.colA)
    requires Met(k, stores, zb, j, p, 0)
    modifies pC
    ensures Computed(k, a, b, c0, pC[..], Elements(stores'))
    ensures Met(k, stores', zb, j, p + 1, 0)
  {
    ptr', stores' := ptr, stores;
    hide Computed, Met, Elements, Accumulated, Affine.Tile;
    var q := 0;
    while q < k.unrollJ
      invariant 0 <= q <= k.unrollJ
      invariant ptr' == k.c.Tile(zb + p, j + q)
      invariant Computed(k, a, b, c0, pC[..], Elements(stores'))
      invariant Met(k, stores', zb, j, p, q)
    {
      StoreTile(k, pC, ptr', row[q], a, b, c0, Elements(stores'), zb + p, j + q);
      MetNextTile(k, stores', zb, j, p, q);
      stores' := stores' + [(zb + p, j + q)];
      NextTile(k.c, zb + p, j + q, 1);
      ptr' := ptr' + k.c.inner;
      q := q + 1;
    }
    MetNextRow(k, stores', zb, j, p);
  }

  /** Stores a finished block. */
  method StoreBlock(k: Kernel, pC: array<int>, ptrC: seq<int>, acc: seq<seq<seq<int>>>, ghost a: seq<int>,
                    ghost b: seq<int>, ghost c0: seq<int>, ghost stores: seq<(nat, nat)>, ghost z: nat, ghost j: nat)
    returns (ghost stores': seq<(nat, nat)>)
    requires k.TilesDisjoint() && Computed(k, a, b, c0, pC[..], Elements(stores)) && k.colA > 0
    requires BlockInside(k, z, j) && PointsC(k, z, j, ptrC) && Met(k, stores, z, j, 0, 0)
    requires BlockAccumulated(k, a, b, c0, z, j, acc, k.colA)
    modifies pC
    ensures Computed(k, a, b, c0, pC[..], Elements(stores'))
    ensures Met(k, stores', z, j + k.unrollJ, 0, 0)
  {
    stores' := stores;
    hide Computed, Met, Elements;
    var p := 0;
    while p < k.unrollZ
      invariant 0 <= p <= k.unrollZ
      invariant Computed(k, a, b, c0, pC[..], Elements(stores'))
      invariant Met(k, stores', z, j, p, 0)
    {
      var end;
      end, stores' := StoreRow(k, pC, ptrC[p], acc[p], a, b, c0, stores', z, j, p);
      p := p + 1;
    }
    MetNextBlock(k, stores', z, j);
  }

  lemma BlocksFit(n: nat, unroll: nat, at: nat)
    requires unroll > 0 && n % unroll == 0 && at % unroll == 0 && at < n
    ensures at + unroll <= n && (at + unroll) % unroll == 0
  {
    assert n == (n / unroll) * unroll && at == (at / unroll) * unroll;
    if at / unroll + 1 > n / unroll {
      MulMono(n / unroll, at / unroll, unroll);
    }
    MulMono(at / unroll + 1, n / unroll, unroll);
    DivModUnique(at + unroll, unroll, at / unroll + 1, 0);
  }

  /** One stripe of blocks, from the first column of tiles to the last. */
  method MultiplyStripe(k: Kernel, pA: array<int>, pB: array<int>, pC: array<int>, z: nat, ghost c0: seq<int>,
                        ghost loads: seq<(nat, nat)>, ghost stores: seq<(nat, nat)>)
    returns (ghost loads': seq<(nat, nat)>, ghost stores': seq<(nat, nat)>)
    requires k.TilesDisjoint() && k.Unrolls() && z + k.unrollZ <= k.rowA
    requires pA != pC && pB != pC && k.InBounds(pA.Length, pB.Length, |c0|)
    requires Computed(k, pA[..], pB[..], c0, pC[..], Elements(stores))
    requires Met(k, loads, z, 0, 0, 0) && Met(k, stores, z, 0, 0, 0)
    modifies pC
    ensures Computed(k, pA[..], pB[..], c0, pC[..], Elements(stores'))
    ensures Met(k, loads', z + k.unrollZ, 0, 0, 0) && Met(k, stores', z + k.unrollZ, 0, 0, 0)
  {
    ghost var a, b := pA[..], pB[..];
    var ptrC := seq(k.unrollZ, p requires 0 <= p < k.unrollZ => k.c.base + (z + p) * k.c.outer);
    assert PointsC(k, z, 0, ptrC);
    loads', stores' := loads, stores;
    hide Computed, Met, Elements, PointsC, BlockAccumulated, Pending;
    var j := 0;
    while j < k.colB
      invariant 0 <= j <= k.colB && j % k.unrollJ == 0 && PointsC(k, z, j, ptrC)
      invariant pA[..] == a && pB[..] == b
      invariant Computed(k, a, b, c0, pC[..], Elements(stores'))
      invariant Met(k, loads', z, j, 0, 0) && Met(k, stores', z, j, 0, 0)
    {
      BlocksFit(k.colB, k.unrollJ, j);
      MetMeansPending(k, stores', z, j);
      var acc;
      acc, loads' := MultiplyBlock(k, pA, pB, pC, z, j, ptrC, c0, Elements(stores'), loads');
      stores' := StoreBlock(k, pC, ptrC, acc, a, b, c0, stores', z, j);
      AdvanceC(k, z, j, ptrC, k.unrollJ);
      ptrC := Advance(ptrC, k.unrollJ * k.c.inner);
      j := j + k.unrollJ;
    }
    MetNextStripe(k, loads', z);
    MetNextStripe(k, stores', z);
  }

  /** Every tile of C, and each of them once. */
  ghost predicate EachOnce(k: Kernel, tiles: seq<(nat, nat)>) {
    NoRepeats(tiles) && forall z: nat, j: nat :: (z, j) in tiles <==> z < k.rowA && j < k.colB
  }

  /** The kernel: every tile of C gains its row of A tiles times its column of B tiles, and nothing else changes. The
      ghost results are the tiles of C in the order in which they are loaded and stored. */
  method Matmul(k: Kernel, pA: array<int>, pB: array<int>, pC: array<int>)
    returns (ghost loads: seq<(nat, nat)>, ghost stores: seq<(nat, nat)>)
    requires k.InBounds(pA.Length, pB.Length, pC.Length) && k.TilesDisjoint() && k.Unrolls()
    requires pA != pC && pB != pC
    modifies pC
    ensures pC.Length == |old(pC[..])|
    ensures forall z, j :: 0 <= z < k.rowA && 0 <= j < k.colB ==>
      TileC(k, pC[..], z, j) == Accumulated(k, pA[..], pB[..], old(pC[..]), z, j, k.colA)
    ensures forall addr :: 0 <= addr < pC.Length && OutsideTiles(k, addr) ==> pC[addr] == old(pC[addr])
    ensures EachOnce(k, loads) && EachOnce(k, stores)
  {
    ghost var a, b, c0 := pA[..], pB[..], pC[..];
    loads, stores := [], [];
    assert Elements([]) == {};
    assert Computed(k, a, b, c0, pC[..], Elements(stores)) && Met(k, loads, 0, 0, 0, 0);
    hide Computed, Met, Elements, DoneBefore, EachOnce;
    var z := 0;
    while z < k.rowA
      invariant 0 <= z <= k.rowA && z % k.unrollZ == 0
      invariant pA[..] == a && pB[..] == b
      invariant Computed(k, a, b, c0, pC[..], Elements(stores))
      invariant Met(k, loads, z, 0, 0, 0) && Met(k, stores, z, 0, 0, 0)
    {
      BlocksFit(k.rowA, k.unrollZ, z);
      loads, stores := MultiplyStripe(k, pA, pB, pC, z, c0, loads, stores);
      z := z + k.unrollZ;
    }
    AllMet(k, loads);
    AllMet(k, stores);
    AllTilesDone(k, a, b, c0, pC[..], Elements(stores));
  }

  lemma AllMet(k: Kernel, tiles: seq<(nat, nat)>)
    requires Met(k, tiles, k.rowA, 0, 0, 0)
    ensures EachOnce(k, tiles) && DoneBefore(k, Elements(tiles), k.rowA, 0, 0, 0)
  {
    forall z: nat, j: nat ensures (z, j) in tiles <==> z < k.rowA && j < k.colB {
      assert (z, j) in tiles <==> (z, j) in Elements(tiles);
    }
  }

  lemma AllTilesDone(k: Kernel, a: seq<int>, b: seq<int>, c0: seq<int>, c: seq<int>, done: set<(nat, nat)>)
    requires Computed(k, a, b, c0, c, done) && DoneBefore(k, done, k.rowA, 0, 0, 0)
    ensures forall z, j :: 0 <= z < k.rowA && 0 <= j < k.colB ==>
      TileC(k, c, z, j) == Accumulated(k, a, b, c0, z, j, k.colA)
    ensures forall addr :: 0 <= addr < |c| && OutsideTiles(k, addr) ==> c[addr] == c0[addr]
  {
    forall z, j | 0 <= z < k.rowA && 0 <= j < k.colB
      ensures TileC(k, c, z, j) == Accumulated(k, a, b, c0, z, j, k.colA)
    {
      assert (z, j) in done;
    }
  }
}
