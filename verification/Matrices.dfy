/** Matrix products over flat buffers. */
module Matrices {
  import opened Indexing

  /** The element at an address, read as 0 outside the buffer. */
  function At(m: seq<int>, i: int): int { if 0 <= i < |m| then m[i] else 0 }

  /** The first `n` terms of row `row` of A times column `col` of B, both row-major. */
  function Dot(a: seq<int>, b: seq<int>, colA: nat, colB: nat, row: nat, col: nat, n: nat): int {
    if n == 0 then 0 else
      Dot(a, b, colA, colB, row, col, n - 1) + At(a, row * colA + (n - 1)) * At(b, (n - 1) * colB + col)
  }

  /** The `k`-th element of A times B, counted row by row. */
  function ProductAt(a: seq<int>, b: seq<int>, colA: nat, colB: nat, k: nat): int {
    if colB == 0 then 0 else Dot(a, b, colA, colB, k / colB, k % colB, colA)
  }

  /** The matrix of `rows` times `cols` elements whose only one is at (p, q). */
  predicate IsUnit(m: seq<int>, rows: nat, cols: nat, p: nat, q: nat) {
    && p < rows
    && q < cols
    && |m| == rows * cols
    && forall i: nat :: i < |m| ==> m[i] == if i / cols == p && i % cols == q then 1 else 0
  }

  lemma UnitAt(m: seq<int>, rows: nat, cols: nat, p: nat, q: nat, row: nat, col: nat)
    requires IsUnit(m, rows, cols, p, q) && row < rows && col < cols
    ensures At(m, row * cols + col) == if row == p && col == q then 1 else 0
  {
    InMatrix(row, col, rows, cols);
    RowColOf(row, col, cols);
  }

  lemma {:induction false} UnitDot(a: seq<int>, b: seq<int>, rows: nat, cols: nat, p: nat, q: nat, row: nat, col: nat,
    n: nat)
    requires IsUnit(b, rows, cols, p, q) && col < cols && n <= rows
    ensures Dot(a, b, rows, cols, row, col, n) == if p < n && col == q then At(a, row * rows + p) else 0
  {
    if n > 0 {
      UnitDot(a, b, rows, cols, p, q, row, col, n - 1);
      UnitAt(b, rows, cols, p, q, n - 1, col);
    }
  }

  /** Times a matrix with a single one, at (p, q), column p of A becomes column q of the product. */
  lemma UnitMovesColumn(a: seq<int>, b: seq<int>, rows: nat, cols: nat, p: nat, q: nat, k: nat)
    requires IsUnit(b, rows, cols, p, q)
    ensures ProductAt(a, b, rows, cols, k) == if k % cols == q then At(a, k / cols * rows + p) else 0
  {
    UnitDot(a, b, rows, cols, p, q, k / cols, k % cols, rows);
  }
}
