/** Nested size/stride access patterns, and the tiling calculators that produce them. */
module AccessPatterns {
  import opened Indexing

  /** One loop of a pattern: how often it runs, and how far it steps. */
  datatype Dim = Dim(size: nat, stride: int)

  function Shift(s: seq<int>, offset: int): seq<int> {
    seq(|s|, q requires 0 <= q < |s| => s[q] + offset)
  }

  /** `inner` repeated `n` times, each time `stride` further on. */
  function Repeat(n: nat, stride: int, inner: seq<int>): seq<int> {
    if n == 0 then [] else Repeat(n - 1, stride, inner) + Shift(inner, (n - 1) * stride)
  }

  /** The addresses touched by nested loops, outermost dimension first, in order. */
  function Addresses(dims: seq<Dim>): seq<int> {
    if dims == [] then [0] else Repeat(dims[0].size, dims[0].stride, Addresses(dims[1..]))
  }

  lemma {:induction false} RepeatLength(n: nat, stride: int, inner: seq<int>)
    ensures |Repeat(n, stride, inner)| == n * |inner|
  {
    if n > 0 {
      RepeatLength(n - 1, stride, inner);
    }
  }

  lemma {:induction false} RepeatAt(n: nat, stride: int, inner: seq<int>, i: nat, q: nat)
    requires i < n && q < |inner|
    ensures 0 <= i * |inner| + q < |Repeat(n, stride, inner)| == n * |inner|
    ensures Repeat(n, stride, inner)[i * |inner| + q] == i * stride + inner[q]
  {
    RepeatLength(n, stride, inner);
    RepeatLength(n - 1, stride, inner);
    InMatrix(i, q, n, |inner|);
    if i < n - 1 {
      RepeatAt(n - 1, stride, inner, i, q);
    }
  }

  /** Position `i` of the outer loop, then position `q` of the rest. */
  lemma AddressAt(d: Dim, rest: seq<Dim>, i: nat, q: nat)
    requires i < d.size && q < |Addresses(rest)|
    ensures |Addresses([d] + rest)| == d.size * |Addresses(rest)|
    ensures 0 <= i * |Addresses(rest)| + q < |Addresses([d] + rest)|
    ensures Addresses([d] + rest)[i * |Addresses(rest)| + q] == i * d.stride + Addresses(rest)[q]
  {
    assert ([d] + rest)[1..] == rest;
    RepeatAt(d.size, d.stride, Addresses(rest), i, q);
  }

  lemma AddressCount(d: Dim, rest: seq<Dim>)
    ensures |Addresses([d] + rest)| == d.size * |Addresses(rest)|
  {
    assert ([d] + rest)[1..] == rest;
    RepeatLength(d.size, d.stride, Addresses(rest));
  }

  // ----- the tiling calculators

  datatype Result<+T> = Ok(value: T) | ZeroDivisionError

  /** Loops over tile rows, tile columns, rows of a tile, columns of a tile. */
  function Tiled(nRows: nat, nCols: nat, tileRows: nat, tileCols: nat, cols: nat): seq<Dim> {
    [Dim(nRows, cols * tileRows)] + ([Dim(nCols, tileCols)] + ([Dim(tileRows, cols)] + ([Dim(tileCols, 1)] + [])))
  }

  /** The pattern for tiles of a given size. */
  function TileSizes(rows: nat, cols: nat, tileCols: nat, tileRows: nat): Result<seq<Dim>> {
    if tileRows == 0 || tileCols == 0 then ZeroDivisionError
    else Ok(Tiled(rows / tileRows, cols / tileCols, tileRows, tileCols, cols))
  }

  /** The pattern for a given number of tiles. */
  function NTiles(rows: nat, cols: nat, nRows: nat, nCols: nat): Result<seq<Dim>> {
    if nRows == 0 || nCols == 0 then ZeroDivisionError
    else Ok(Tiled(nRows, nCols, rows / nRows, cols / nCols, cols))
  }

  /** Where the pattern visits row `x` and column `y` of tile `(z, i)`. */
  function TilePosition(nCols: nat, tileRows: nat, tileCols: nat, z: nat, i: nat, x: nat, y: nat): nat {
    z * (nCols * (tileRows * tileCols)) + (i * (tileRows * tileCols) + (x * tileCols + y))
  }

  lemma TiledCount(nRows: nat, nCols: nat, tileRows: nat, tileCols: nat, cols: nat)
    ensures |Addresses(Tiled(nRows, nCols, tileRows, tileCols, cols))| == nRows * (nCols * (tileRows * tileCols))
  {
    AddressCount(Dim(tileCols, 1), []);
    AddressCount(Dim(tileRows, cols), [Dim(tileCols, 1)] + []);
    AddressCount(Dim(nCols, tileCols), [Dim(tileRows, cols)] + ([Dim(tileCols, 1)] + []));
    AddressCount(Dim(nRows, cols * tileRows),
      [Dim(nCols, tileCols)] + ([Dim(tileRows, cols)] + ([Dim(tileCols, 1)] + [])));
  }

  /** The loops inside a tile, and those inside a row of tiles. */
  function InTile(tileRows: nat, tileCols: nat, cols: nat): seq<Dim> {
    [Dim(tileRows, cols)] + ([Dim(tileCols, 1)] + [])
  }

  lemma InTileAt(tileRows: nat, tileCols: nat, cols: nat, x: nat, y: nat)
    requires x < tileRows && y < tileCols
    ensures |Addresses(InTile(tileRows, tileCols, cols))| == tileRows * tileCols
    ensures 0 <= x * tileCols + y < tileRows * tileCols
    ensures Addresses(InTile(tileRows, tileCols, cols))[x * tileCols + y] == x * cols + y
  {
    AddressAt(Dim(tileCols, 1), [], y, 0);
    AddressAt(Dim(tileRows, cols), [Dim(tileCols, 1)] + [], x, y);
  }

  /** There the pattern reads the row-major element in row `z * tileRows + x`, column `i * tileCols + y`. */
  lemma TiledAt(nRows: nat, nCols: nat, tileRows: nat, tileCols: nat, cols: nat, z: nat, i: nat, x: nat, y: nat)
    requires z < nRows && i < nCols && x < tileRows && y < tileCols
    ensures
      var addrs := Addresses(Tiled(nRows, nCols, tileRows, tileCols, cols));
      var p := TilePosition(nCols, tileRows, tileCols, z, i, x, y);
      && p < |addrs|
      && addrs[p]
         == (z * tileRows + x) * cols + (i * tileCols + y)
  {
    var inTile, inRow := InTile(tileRows, tileCols, cols), [Dim(nCols, tileCols)] + InTile(tileRows, tileCols, cols);
    InTileAt(tileRows, tileCols, cols, x, y);
    AddressAt(Dim(nCols, tileCols), inTile, i, x * tileCols + y);
    AddressAt(Dim(nRows, cols * tileRows), inRow, z, i * (tileRows * tileCols) + (x * tileCols + y));
    TiledAddress(tileRows, cols, z, x);
  }

  lemma TiledAddress(tileRows: nat, cols: nat, z: nat, x: nat)
    ensures z * (cols * tileRows) + x * cols == (z * tileRows + x) * cols
  {
    assert z * (cols * tileRows) == (z * tileRows) * cols;
  }

  /** The position of a row-major element in the tiled order. */
  function PositionOf(cols: nat, nCols: nat, tileRows: nat, tileCols: nat, v: nat): nat
    requires cols > 0 && tileRows > 0 && tileCols > 0
  {
    var row, col := Quot(v, cols), v % cols;
    TilePosition(nCols, tileRows, tileCols, Quot(row, tileRows), Quot(col, tileCols), row % tileRows, col % tileCols)
  }

  /** When tiles divide the matrix, every element is visited, at its position. */
  lemma EveryElementVisited(nRows: nat, nCols: nat, tileRows: nat, tileCols: nat, v: nat)
    requires tileRows > 0 && tileCols > 0
    requires v < (nRows * tileRows) * (nCols * tileCols)
    ensures nCols * tileCols > 0
    ensures
      var cols := nCols * tileCols;
      var addrs := Addresses(Tiled(nRows, nCols, tileRows, tileCols, cols));
      && PositionOf(cols, nCols, tileRows, tileCols, v) < |addrs|
      && addrs[PositionOf(cols, nCols, tileRows, tileCols, v)] == v
  {
    var cols := nCols * tileCols;
    RowColSplit(v, nRows * tileRows, cols);
    var row, col := v / cols, v % cols;
    RowColSplit(row, nRows, tileRows);
    RowColSplit(col, nCols, tileCols);
    TiledAt(nRows, nCols, tileRows, tileCols, cols, row / tileRows, col / tileCols, row % tileRows, col % tileCols);
  }

  /** And every position visits an element, exactly the one it is the position of: the pattern is a permutation. */
  lemma EveryPositionIsOne(nRows: nat, nCols: nat, tileRows: nat, tileCols: nat, p: nat)
    requires tileRows > 0 && tileCols > 0
    requires p < |Addresses(Tiled(nRows, nCols, tileRows, tileCols, nCols * tileCols))|
    ensures nCols * tileCols > 0
    ensures
      var cols := nCols * tileCols;
      var addr := Addresses(Tiled(nRows, nCols, tileRows, tileCols, cols))[p];
      && 0 <= addr < (nRows * tileRows) * cols
      && PositionOf(cols, nCols, tileRows, tileCols, addr) == p
  {
    hide Addresses, Tiled, PositionOf, TilePosition;
    var cols := nCols * tileCols;
    TiledCount(nRows, nCols, tileRows, tileCols, cols);
    var z, i, x, y := TileOf(nRows, nCols, tileRows, tileCols, p);
    TiledAt(nRows, nCols, tileRows, tileCols, cols, z, i, x, y);
    PositionIs(nRows, nCols, tileRows, tileCols, z, i, x, y);
  }

  /** The tile a position lies in, and the row and column inside it. */
  lemma TileOf(nRows: nat, nCols: nat, tileRows: nat, tileCols: nat, p: nat) returns (z: nat, i: nat, x: nat, y: nat)
    requires p < nRows * (nCols * (tileRows * tileCols))
    ensures z < nRows && i < nCols && x < tileRows && y < tileCols
    ensures p == TilePosition(nCols, tileRows, tileCols, z, i, x, y)
  {
    var inRow, inTile;
    z, inRow := RowAndColumn(p, nRows, nCols * (tileRows * tileCols));
    i, inTile := RowAndColumn(inRow, nCols, tileRows * tileCols);
    x, y := RowAndColumn(inTile, tileRows, tileCols);
  }

  lemma RowAndColumn(n: nat, rows: nat, cols: nat) returns (row: nat, col: nat)
    requires n < rows * cols
    ensures row < rows && col < cols && n == row * cols + col
  {
    RowColSplit(n, rows, cols);
    row, col := n / cols, n % cols;
  }

  lemma PositionIs(nRows: nat, nCols: nat, tileRows: nat, tileCols: nat, z: nat, i: nat, x: nat, y: nat)
    requires z < nRows && i < nCols && x < tileRows && y < tileCols
    ensures nCols * tileCols > 0
    ensures
      var cols := nCols * tileCols;
      var addr := (z * tileRows + x) * cols + (i * tileCols + y);
      && 0 <= addr < (nRows * tileRows) * cols
      && PositionOf(cols, nCols, tileRows, tileCols, addr) == TilePosition(nCols, tileRows, tileCols, z, i, x, y)
  {
    var cols := nCols * tileCols;
    InMatrix(z, x, nRows, tileRows);
    InMatrix(i, y, nCols, tileCols);
    InMatrix(z * tileRows + x, i * tileCols + y, nRows * tileRows, cols);
    RowColOf(z * tileRows + x, i * tileCols + y, cols);
    RowColOf(z, x, tileRows);
    RowColOf(i, y, tileCols);
  }

  /** The pattern for given tile sizes covers the matrix exactly when the tiles divide it. */
  lemma TileSizesCoverIff(rows: nat, cols: nat, tileCols: nat, tileRows: nat)
    requires tileRows > 0 && tileCols > 0 && rows > 0 && cols > 0
    ensures |Addresses(TileSizes(rows, cols, tileCols, tileRows).value)| <= rows * cols
    ensures |Addresses(TileSizes(rows, cols, tileCols, tileRows).value)| == rows * cols
       <==> rows % tileRows == 0 && cols % tileCols == 0
  {
    hide Addresses, Tiled;
    var n, m := rows / tileRows, cols / tileCols;
    TiledCount(n, m, tileRows, tileCols, cols);
    CoveredArea(n, m, tileRows, tileCols);
    assert rows == n * tileRows + rows % tileRows && cols == m * tileCols + cols % tileCols;
    StrictArea(n * tileRows, m * tileCols, rows, cols);
  }

  lemma CoveredArea(n: nat, m: nat, r: nat, c: nat)
    ensures n * (m * (r * c)) == (n * r) * (m * c)
  {
    assert m * (r * c) == r * (m * c);
    assert n * (r * (m * c)) == (n * r) * (m * c);
  }

  lemma StrictArea(a: nat, b: nat, a': nat, b': nat)
    requires a <= a' && b <= b' && a' > 0 && b' > 0
    ensures a * b <= a' * b' && (a * b == a' * b' <==> a == a' && b == b')
  {
    assert a' * b' == a * b + a * (b' - b) + (a' - a) * b';
    assert a * (b' - b) >= 0 && (a' - a) * b' >= 0;
    if a < a' {
      MulMono(1, a' - a, b');
    } else if b < b' {
      MulMono(1, b' - b, a');
    }
  }

  /** The pattern for a number of tiles is the one for the size those tiles have, when they divide the matrix. */
  lemma NTilesIsTileSizes(rows: nat, cols: nat, nRows: nat, nCols: nat)
    requires nRows > 0 && nCols > 0 && rows > 0 && cols > 0 && rows % nRows == 0 && cols % nCols == 0
    ensures rows / nRows > 0 && cols / nCols > 0
    ensures NTiles(rows, cols, nRows, nCols) == TileSizes(rows, cols, cols / nCols, rows / nRows)
  {
    assert rows == (rows / nRows) * nRows && cols == (cols / nCols) * nCols;
    DivModUnique(rows, rows / nRows, nRows, 0);
    DivModUnique(cols, cols / nCols, nCols, 0);
  }
}
