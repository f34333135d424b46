/** The vector operations the kernels use, on sequences. */
module VectorUnit {
  import opened Indexing
  import opened Matrices

  /** A vector of `n` elements at an address. */
  function LoadV(m: seq<int>, p: int, n: nat): seq<int>
    requires 0 <= p <= p + n <= |m|
  {
    m[p..p + n]
  }

  /** A buffer with a vector written at an address. */
  function Splice(m: seq<int>, p: int, v: seq<int>): seq<int>
    requires 0 <= p <= p + |v| <= |m|
  {
    m[..p] + v + m[p + |v|..]
  }

  method StoreV(m: array<int>, p: int, v: seq<int>)
    requires 0 <= p <= p + |v| <= m.Length
    modifies m
    ensures m[..] == Splice(old(m[..]), p, v)
  {
    forall e | 0 <= e < |v| {
      m[p + e] := v[e];
    }
  }

  lemma SpliceElsewhere(m: seq<int>, p: int, v: seq<int>, q: int, n: nat)
    requires 0 <= p <= p + |v| <= |m| && 0 <= q <= q + n <= |m|
    requires q + n <= p || p + |v| <= q
    ensures LoadV(Splice(m, p, v), q, n) == LoadV(m, q, n)
  {}

  lemma SpliceHere(m: seq<int>, p: int, v: seq<int>)
    requires 0 <= p <= p + |v| <= |m|
    ensures LoadV(Splice(m, p, v), p, |v|) == v
  {}

  /** Multiply-accumulate of an r x s tile and an s x t tile onto an r x t accumulator. */
  function Mac(r: nat, s: nat, t: nat, acc: seq<int>, a: seq<int>, b: seq<int>): (c: seq<int>)
    ensures |c| == r * t
  {
    seq(r * t, e requires 0 <= e < r * t => At(acc, e) + ProductAt(a, b, s, t, e))
  }

  /** A tile stored with `rows` rows of `cols` elements, read column by column. */
  function Transpose(v: seq<int>, rows: nat, cols: nat): (w: seq<int>)
    ensures |w| == rows * cols
  {
    seq(rows * cols, e requires 0 <= e < rows * cols =>
      if rows == 0 then 0 else At(v, (e % rows) * cols + e / rows))
  }
}
