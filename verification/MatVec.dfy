/** Matrix-vector multiplication on a matrix transposed at the granularity of 32-bit words (pairs of elements). */
module MatVec {
  import opened Indexing
  import opened Matrices
  import opened VectorUnit
  import opened AccessPatterns

  /** Where element `(i, j)` of an `m`-row matrix lies. */
  function WordTransposed(m: nat, i: nat, j: nat): nat { (j / 2) * (2 * m) + 2 * i + j % 2 }

  /** The first `n` terms of output `row`. */
  function RowDot(a: seq<int>, b: seq<int>, m: nat, row: nat, n: nat): int {
    if n == 0 then 0 else RowDot(a, b, m, row, n - 1) + Term(a, b, m, row, n - 1)
  }

  function Term(a: seq<int>, b: seq<int>, m: nat, row: nat, j: nat): int {
    At(a, WordTransposed(m, row, j)) * At(b, j)
  }

  // ----- the vector operations

  function FilterEven(v: seq<int>, r: nat): (w: seq<int>)
    requires |v| == 2 * r
    ensures |w| == r
  {
    seq(r, x requires 0 <= x < r => v[2 * x])
  }

  function FilterOdd(v: seq<int>, r: nat): (w: seq<int>)
    requires |v| == 2 * r
    ensures |w| == r
  {
    seq(r, x requires 0 <= x < r => v[2 * x + 1])
  }

  function Scaled(b: seq<int>, vs: seq<seq<int>>, i: nat, x: nat): int {
    if i < |vs| then At(vs[i], x) * At(b, i) else 0
  }

  /** Adds eight scaled vectors to an accumulator. */
  function Accumulate8(r: nat, acc: seq<int>, b: seq<int>, vs: seq<seq<int>>): (w: seq<int>)
    requires |acc| == r
    ensures |w| == r
  {
    seq(r, x requires 0 <= x < r =>
      acc[x] + Scaled(b, vs, 0, x) + Scaled(b, vs, 1, x) + Scaled(b, vs, 2, x) + Scaled(b, vs, 3, x)
             + Scaled(b, vs, 4, x) + Scaled(b, vs, 5, x) + Scaled(b, vs, 6, x) + Scaled(b, vs, 7, x))
  }

  // ----- one block of `r` rows and 8 columns

  /** Element `x` of the `w`-th pair of column vectors loaded at the walking pointer. */
  lemma PairElement(m: nat, row: nat, col: nat, x: nat, w: nat)
    requires col % 2 == 0
    ensures col * m + 2 * row + w * (2 * m) + 2 * x == WordTransposed(m, row + x, col + 2 * w)
    ensures col * m + 2 * row + w * (2 * m) + (2 * x + 1) == WordTransposed(m, row + x, col + 2 * w + 1)
  {
    var h := col / 2 + w;
    assert (col + 2 * w) / 2 == h && (col + 2 * w + 1) / 2 == h;
    assert h * (2 * m) == (col / 2) * (2 * m) + w * (2 * m);
    assert (col / 2) * (2 * m) == col * m;
  }

  /** Eight more terms of a row. */
  lemma EightTerms(a: seq<int>, b: seq<int>, m: nat, row: nat, col: nat)
    ensures RowDot(a, b, m, row, col + 8) == RowDot(a, b, m, row, col)
      + Term(a, b, m, row, col) + Term(a, b, m, row, col + 1) + Term(a, b, m, row, col + 2)
      + Term(a, b, m, row, col + 3) + Term(a, b, m, row, col + 4) + Term(a, b, m, row, col + 5)
      + Term(a, b, m, row, col + 6) + Term(a, b, m, row, col + 7)
  {
    hide Term;
    TwoTerms(a, b, m, row, col);
    TwoTerms(a, b, m, row, col + 2);
    TwoTerms(a, b, m, row, col + 4);
    TwoTerms(a, b, m, row, col + 6);
  }

  lemma TwoTerms(a: seq<int>, b: seq<int>, m: nat, row: nat, col: nat)
    ensures RowDot(a, b, m, row, col + 2)
      == RowDot(a, b, m, row, col) + Term(a, b, m, row, col) + Term(a, b, m, row, col + 1)
  {
    hide Term;
    assert RowDot(a, b, m, row, col + 1) == RowDot(a, b, m, row, col) + Term(a, b, m, row, col);
    assert RowDot(a, b, m, row, col + 2) == RowDot(a, b, m, row, col + 1) + Term(a, b, m, row, col + 1);
  }

  /** A vector holds rows `row .. row + r` of column `col`. */
  ghost predicate IsColumn(a: seq<int>, m: nat, r: nat, row: nat, col: nat, v: seq<int>) {
    |v| == r && forall x :: 0 <= x < r ==> v[x] == At(a, WordTransposed(m, row + x, col))
  }

  /** The vectors of one block are columns `col .. col + 8` of rows `row .. row + r`. */
  ghost predicate AreColumns(a: seq<int>, m: nat, r: nat, row: nat, col: nat, vs: seq<seq<int>>) {
    |vs| == 8 && forall i :: 0 <= i < 8 ==> IsColumn(a, m, r, row, col + i, vs[i])
  }

  /** The last word a block loads lies inside the matrix. */
  lemma BlockInside(m: nat, k: nat, r: nat, row: nat, col: nat)
    requires row + r <= m && col + 8 <= k
    ensures col * m + 2 * row + 3 * (2 * m) + 2 * r <= m * k
  {
    assert col * m + 8 * m == (col + 8) * m;
    MulMono(col + 8, k, m);
    assert k * m == m * k;
  }

  function PairOfColumns(a: seq<int>, p: nat, r: nat): (seq<int>, seq<int>)
    requires p + 2 * r <= |a|
  {
    (FilterEven(LoadV(a, p, 2 * r), r), FilterOdd(LoadV(a, p, 2 * r), r))
  }

  lemma PairIsColumns(a: seq<int>, m: nat, r: nat, row: nat, col: nat, p: nat, w: nat)
    requires col % 2 == 0 && p == col * m + 2 * row && p + w * (2 * m) + 2 * r <= |a|
    ensures IsColumn(a, m, r, row, col + 2 * w, PairOfColumns(a, p + w * (2 * m), r).0)
    ensures IsColumn(a, m, r, row, col + 2 * w + 1, PairOfColumns(a, p + w * (2 * m), r).1)
  {
    var q := p + w * (2 * m);
    var (even, odd) := PairOfColumns(a, q, r);
    forall x | 0 <= x < r
      ensures even[x] == At(a, WordTransposed(m, row + x, col + 2 * w))
      ensures odd[x] == At(a, WordTransposed(m, row + x, col + 2 * w + 1))
    {
      PairElement(m, row, col, x, w);
      assert even[x] == a[q + 2 * x] && odd[x] == a[q + (2 * x + 1)];
    }
  }

  method LoadColumns(a: array<int>, m: nat, k: nat, r: nat, p: nat, ghost row: nat, ghost col: nat)
    returns (vs: seq<seq<int>>)
    requires a.Length == m * k && col % 2 == 0 && p == col * m + 2 * row && row + r <= m && col + 8 <= k
    ensures AreColumns(a[..], m, r, row, col, vs)
  {
    hide PairOfColumns, IsColumn, WordTransposed;
    BlockInside(m, k, r, row, col);
    assert 2 * (2 * m) == 4 * m && 3 * (2 * m) == 6 * m;
    var (v00, v01) := PairOfColumns(a[..], p, r);
    var (v10, v11) := PairOfColumns(a[..], p + 2 * m, r);
    var (v20, v21) := PairOfColumns(a[..], p + 4 * m, r);
    var (v30, v31) := PairOfColumns(a[..], p + 6 * m, r);
    vs := [v00, v01, v10, v11, v20, v21, v30, v31];
    PairIsColumns(a[..], m, r, row, col, p, 0);
    PairIsColumns(a[..], m, r, row, col, p, 1);
    PairIsColumns(a[..], m, r, row, col, p, 2);
    PairIsColumns(a[..], m, r, row, col, p, 3);
  }

  lemma ScaledIsTerm(a: seq<int>, b: seq<int>, m: nat, r: nat, row: nat, col: nat, vs: seq<seq<int>>, i: nat, x: nat)
    requires AreColumns(a, m, r, row, col, vs) && col + 8 <= |b| && i < 8 && x < r
    ensures Scaled(b[col..col + 8], vs, i, x) == Term(a, b, m, row + x, col + i)
  {
    assert IsColumn(a, m, r, row, col + i, vs[i]);
  }

  /** The accumulation of one block: eight more terms for each of its rows. */
  lemma BlockAccumulates(a: seq<int>, b: seq<int>, m: nat, r: nat, row: nat, col: nat, acc: seq<int>, vs: seq<seq<int>>,
                         x: nat)
    requires AreColumns(a, m, r, row, col, vs) && |acc| == r && col + 8 <= |b| && x < r
    ensures Accumulate8(r, acc, b[col..col + 8], vs)[x] - acc[x]
         == RowDot(a, b, m, row + x, col + 8) - RowDot(a, b, m, row + x, col)
  {
    hide Term, Scaled, AreColumns;
    EightTerms(a, b, m, row + x, col);
    ScaledIsTerm(a, b, m, r, row, col, vs, 0, x);
    ScaledIsTerm(a, b, m, r, row, col, vs, 1, x);
    ScaledIsTerm(a, b, m, r, row, col, vs, 2, x);
    ScaledIsTerm(a, b, m, r, row, col, vs, 3, x);
    ScaledIsTerm(a, b, m, r, row, col, vs, 4, x);
    ScaledIsTerm(a, b, m, r, row, col, vs, 5, x);
    ScaledIsTerm(a, b, m, r, row, col, vs, 6, x);
    ScaledIsTerm(a, b, m, r, row, col, vs, 7, x);
  }

  // ----- the loops

  /** Rows before `row` have `col + 8` terms, the others `col`. */
  ghost predicate PartialSums(a: seq<int>, b: seq<int>, m: nat, c0: seq<int>, c: seq<int>, row: nat, col: nat) {
    |c| == |c0| && forall i :: 0 <= i < |c| ==> c[i] == c0[i] + RowDot(a, b, m, i, if i < row then col + 8 else col)
  }

  lemma BlockStored(a: seq<int>, b: seq<int>, m: nat, c0: seq<int>, c: seq<int>, row: nat, col: nat, v: seq<int>)
    requires PartialSums(a, b, m, c0, c, row, col) && row + |v| <= |c|
    requires forall x :: 0 <= x < |v| ==>
      v[x] - c[row + x] == RowDot(a, b, m, row + x, col + 8) - RowDot(a, b, m, row + x, col)
    ensures PartialSums(a, b, m, c0, Splice(c, row, v), row + |v|, col)
  {
    var c' := Splice(c, row, v);
    forall i | 0 <= i < |c'|
      ensures c'[i] == c0[i] + RowDot(a, b, m, i, if i < row + |v| then col + 8 else col)
    {
      if row <= i < row + |v| {
        assert c'[i] == v[i - row] && c[row + (i - row)] == c[i];
      }
    }
  }

  lemma ColumnsDone(a: seq<int>, b: seq<int>, m: nat, c0: seq<int>, c: seq<int>, col: nat)
    requires PartialSums(a, b, m, c0, c, m, col) && |c| == m
    ensures PartialSums(a, b, m, c0, c, 0, col + 8)
  {}

  /** One pass over all rows for eight columns; the pointer into A ends two columns of words further on. */
  method EightColumns(a: array<int>, b: array<int>, c: array<int>, m: nat, k: nat, r: nat, aPtr: nat, col: nat,
                      ghost c0: seq<int>) returns (aPtr': nat)
    requires a.Length == m * k && b.Length == k && c.Length == m && a != c && b != c
    requires r > 0 && m % r == 0 && col % 8 == 0 && col + 8 <= k && aPtr == col * m
    requires PartialSums(a[..], b[..], m, c0, c[..], 0, col)
    modifies c
    ensures PartialSums(a[..], b[..], m, c0, c[..], 0, col + 8)
    ensures aPtr' == col * m + 2 * m
  {
    ghost var sa, sb := a[..], b[..];
    var bVec := LoadV(b[..], col, 8);
    aPtr' := aPtr;
    hide PartialSums, AreColumns;
    var row := 0;
    while row < m
      invariant 0 <= row <= m && row % r == 0 && a[..] == sa && b[..] == sb
      invariant aPtr' == aPtr + 2 * row
      invariant PartialSums(sa, sb, m, c0, c[..], row, col)
    {
      RowsFit(m, r, row);
      var acc := LoadV(c[..], row, r);
      var vs := LoadColumns(a, m, k, r, aPtr', row, col);
      var v := BlockResult(sa, sb, m, r, row, col, acc, bVec, vs);
      assert forall x :: 0 <= x < r ==> acc[x] == c[..][row + x];
      BlockStored(sa, sb, m, c0, c[..], row, col, v);
      StoreV(c, row, v);
      aPtr' := aPtr' + 2 * r;
      row := row + r;
    }
    ColumnsDone(sa, sb, m, c0, c[..], col);
  }

  method BlockResult(ghost a: seq<int>, ghost b: seq<int>, ghost m: nat, r: nat, ghost row: nat, ghost col: nat,
                     acc: seq<int>, bVec: seq<int>, vs: seq<seq<int>>) returns (v: seq<int>)
    requires AreColumns(a, m, r, row, col, vs) && |acc| == r && col + 8 <= |b| && bVec == b[col..col + 8]
    ensures |v| == r
    ensures forall x :: 0 <= x < r ==>
      v[x] - acc[x] == RowDot(a, b, m, row + x, col + 8) - RowDot(a, b, m, row + x, col)
  {
    v := Accumulate8(r, acc, bVec, vs);
    forall x | 0 <= x < r
      ensures v[x] - acc[x] == RowDot(a, b, m, row + x, col + 8) - RowDot(a, b, m, row + x, col)
    {
      BlockAccumulates(a, b, m, r, row, col, acc, vs, x);
    }
  }

  lemma RowsFit(n: nat, step: nat, at: nat)
    requires step > 0 && n % step == 0 && at % step == 0 && at < n
    ensures at + step <= n && (at + step) % step == 0
  {
    assert n == (n / step) * step && at == (at / step) * step;
    if at / step + 1 > n / step {
      MulMono(n / step, at / step, step);
    }
    MulMono(at / step + 1, n / step, step);
    DivModUnique(at + step, step, at / step + 1, 0);
  }

  lemma SumsStart(a: seq<int>, b: seq<int>, m: nat, c0: seq<int>)
    ensures PartialSums(a, b, m, c0, c0, 0, 0)
  {
    assert forall i: nat :: RowDot(a, b, m, i, 0) == 0;
  }

  lemma SumsComplete(a: seq<int>, b: seq<int>, m: nat, c0: seq<int>, c: seq<int>, k: nat)
    requires PartialSums(a, b, m, c0, c, 0, k)
    ensures |c| == |c0| && forall i :: 0 <= i < |c| ==> c[i] == c0[i] + RowDot(a, b, m, i, k)
  {}

  /** The vector kernel: every output gains its row of the word-transposed matrix times b. */
  method MatvecVectorized(a: array<int>, b: array<int>, c: array<int>, m: nat, k: nat, r: nat) returns (aPtr: nat)
    requires a.Length == m * k && b.Length == k && c.Length == m && a != c && b != c
    requires r > 0 && m % r == 0 && k % 8 == 0
    modifies c
    ensures forall i :: 0 <= i < m ==> c[i] == old(c[i]) + RowDot(a[..], b[..], m, i, k)
    ensures aPtr == m * k
  {
    ghost var sa, sb, c0 := a[..], b[..], c[..];
    aPtr := 0;
    var col := 0;
    SumsStart(sa, sb, m, c0);
    hide PartialSums, RowDot;
    while col < k
      invariant 0 <= col <= k && col % 8 == 0 && a[..] == sa && b[..] == sb
      invariant aPtr == col * m
      invariant PartialSums(sa, sb, m, c0, c[..], 0, col)
    {
      aPtr := EightColumns(a, b, c, m, k, r, aPtr, col, c0);
      aPtr := aPtr + 6 * m;
      col := col + 8;
    }
    assert k * m == m * k;
    SumsComplete(sa, sb, m, c0, c[..], k);
    assert forall i :: 0 <= i < m ==> c[i] == c[..][i];
  }

  // ----- the scalar reference, and the layout

  method ScalarRow(a: array<int>, b: array<int>, m: nat, k: nat, row: nat) returns (sum: int)
    requires a.Length == m * k && b.Length == k && row < m
    ensures sum == Dot(a[..], b[..], k, 1, row, 0, k)
  {
    sum := 0;
    var i := 0;
    while i < k
      invariant 0 <= i <= k && sum == Dot(a[..], b[..], k, 1, row, 0, i)
    {
      InMatrix(row, i, m, k);
      sum := sum + a[row * k + i] * b[i];
      i := i + 1;
    }
  }

  method MatvecScalar(a: array<int>, b: array<int>, c: array<int>, m: nat, k: nat)
    requires a.Length == m * k && b.Length == k && c.Length == m && a != c && b != c
    modifies c
    ensures forall i :: 0 <= i < m ==> c[i] == old(c[i]) + Dot(a[..], b[..], k, 1, i, 0, k)
  {
    ghost var sa, sb, c0 := a[..], b[..], c[..];
    hide Dot;
    var row := 0;
    while row < m
      invariant 0 <= row <= m && a[..] == sa && b[..] == sb
      invariant forall i :: 0 <= i < m ==> c[i] == c0[i] + if i < row then Dot(sa, sb, k, 1, i, 0, k) else 0
    {
      var sum := ScalarRow(a, b, m, k, row);
      c[row] := c[row] + sum;
      row := row + 1;
    }
  }

  /** The same output, if `a` holds in word-transposed order what `rm` holds row by row. */
  lemma {:induction false} RowDotIsDot(a: seq<int>, rm: seq<int>, b: seq<int>, m: nat, k: nat, row: nat, n: nat)
    requires n <= k
    requires forall j: nat :: j < k ==> At(a, WordTransposed(m, row, j)) == At(rm, row * k + j)
    ensures RowDot(a, b, m, row, n) == Dot(rm, b, k, 1, row, 0, n)
  {
    if n > 0 {
      RowDotIsDot(a, rm, b, m, k, row, n - 1);
      assert At(a, WordTransposed(m, row, n - 1)) == At(rm, row * k + (n - 1));
    }
  }

  /** Word transposition is the access pattern over word columns, then rows, then the two halves of a word. */
  lemma WordTransposition(m: nat, k: nat, i: nat, j: nat)
    requires k % 2 == 0 && i < m && j < k
    ensures
      var addrs := Addresses([Dim(k / 2, 2)] + InTile(m, 2, k));
      && |addrs| == m * k
      && WordTransposed(m, i, j) < |addrs|
      && addrs[WordTransposed(m, i, j)] == i * k + j
  {
    InTileAt(m, 2, k, i, j % 2);
    AddressAt(Dim(k / 2, 2), InTile(m, 2, k), j / 2, i * 2 + j % 2);
    assert (k / 2) * (m * 2) == m * k;
    hide Addresses;
    assert WordTransposed(m, i, j) == (j / 2) * (m * 2) + (i * 2 + j % 2);
  }
}
