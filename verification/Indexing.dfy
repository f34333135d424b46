/** Row-major addressing and wrap-around arithmetic. */
module Indexing {

  lemma MulMono(a: nat, b: nat, c: nat)
    requires a <= b
    ensures a * c <= b * c
  {
    assert b * c == a * c + (b - a) * c;
    assert (b - a) * c >= 0;
  }

  /** Element `(r, c)` of a row-major matrix lies inside it. */
  lemma InMatrix(r: nat, c: nat, rows: nat, cols: nat)
    requires r < rows && c < cols
    ensures 0 <= r * cols + c < rows * cols
  {
    MulMono(r + 1, rows, cols);
  }

  lemma MultipleIsFar(k: int, d: nat)
    ensures k >= 1 ==> k * d >= d
    ensures k <= -1 ==> k * d <= -(d as int)
  {
    if k >= 1 {
      MulMono(1, k, d);
    } else if k <= -1 {
      MulMono(1, -k, d);
    }
  }

  /** Quotient and remainder of naturals. */
  function Quot(n: nat, d: nat): (q: nat)
    requires d > 0
    ensures q == n / d && n == q * d + n % d
  {
    MultipleIsFar(n / d, d);
    n / d
  }

  lemma DivModUnique(n: int, d: int, q: int, r: int)
    requires 0 <= r < d && n == q * d + r
    ensures n / d == q && n % d == r
  {
    var k := n / d - q;
    assert k * d == (n / d) * d - q * d;
    assert n == (n / d) * d + n % d;
    MultipleIsFar(k, d);
  }

  /** Row and column can be read back off a row-major address. */
  lemma RowColOf(r: nat, c: nat, cols: nat)
    requires c < cols
    ensures (r * cols + c) / cols == r && (r * cols + c) % cols == c
  {
    DivModUnique(r * cols + c, cols, r, c);
  }

  lemma RowColSplit(n: nat, rows: nat, cols: nat)
    requires n < rows * cols
    ensures cols > 0 && n / cols < rows && n % cols < cols && n == (n / cols) * cols + n % cols
  {
    assert cols == 0 ==> rows * cols == 0;
    if n / cols >= rows {
      MulMono(rows, n / cols, cols);
    }
  }

  // ----- signed wrap-around

  /** The value of `x` in a signed type with `2 * half` values. */
  function Wrap(half: int, x: int): (w: int)
    requires half > 0
    ensures -half <= w < half
  {
    (x + half) % (2 * half) - half
  }

  lemma WrapShifts(half: int, x: int, k: int)
    requires half > 0
    ensures Wrap(half, x + k * (2 * half)) == Wrap(half, x)
  {
    var m := 2 * half;
    var q, r := (x + half) / m, (x + half) % m;
    assert x + half == q * m + r;
    assert x + k * m + half == (q + k) * m + r;
    DivModUnique(x + k * m + half, m, q + k, r);
  }

  /** A wrapped value differs from the value by whole turns. */
  lemma WrapTurns(half: int, x: int) returns (k: int)
    requires half > 0
    ensures Wrap(half, x) == x + k * (2 * half)
  {
    var m := 2 * half;
    k := -((x + half) / m);
    assert x + half == ((x + half) / m) * m + (x + half) % m;
    assert k * m == -(((x + half) / m) * m);
  }

  /** Wrapping an operand first does not change a wrapped sum. */
  lemma WrapAdds(half: int, x: int, y: int)
    requires half > 0
    ensures Wrap(half, Wrap(half, x) + y) == Wrap(half, x + y)
    ensures Wrap(half, x + Wrap(half, y)) == Wrap(half, x + y)
  {
    var kx := WrapTurns(half, x);
    var ky := WrapTurns(half, y);
    WrapShifts(half, x + y, kx);
    WrapShifts(half, x + y, ky);
  }

  lemma WrapIsIdentity(half: int, x: int)
    requires half > 0 && -half <= x < half
    ensures Wrap(half, x) == x
  {
    DivModUnique(x + half, 2 * half, 0, x + half);
  }
}
