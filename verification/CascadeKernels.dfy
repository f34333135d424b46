/** The three cascade kernels, each run on its own: a stream comes in, a stream goes out, or C is updated. */
module CascadeKernels {
  import opened Indexing
  import opened Matrices

  /** The shape of one core's operands, and half the range of the output type. */
  datatype Shape = Shape(rowA: nat, colA: nat, colB: nat, half: int) {
    ghost predicate Fits(a: seq<int>, b: seq<int>) {
      half > 0 && |a| == rowA * colA && |b| == colA * colB
    }

    function Count(): nat { rowA * colB }
  }

  /** What one core adds to output `k`, in the output type. */
  function Local(s: Shape, a: seq<int>, b: seq<int>, k: nat): int
    requires s.half > 0
  {
    Wrap(s.half, ProductAt(a, b, s.colA, s.colB, k))
  }

  /** The inner loop of all three kernels. */
  method RunningSum(s: Shape, a: array<int>, b: array<int>, row: nat, col: nat) returns (sum: int)
    requires s.Fits(a[..], b[..]) && row < s.rowA && col < s.colB
    ensures sum == Local(s, a[..], b[..], row * s.colB + col)
  {
    sum := 0;
    WrapIsIdentity(s.half, 0);
    var i := 0;
    while i < s.colA
      invariant 0 <= i <= s.colA
      invariant sum == Wrap(s.half, Dot(a[..], b[..], s.colA, s.colB, row, col, i))
    {
      InMatrix(row, i, s.rowA, s.colA);
      InMatrix(i, col, s.colA, s.colB);
      WrapAdds(s.half, Dot(a[..], b[..], s.colA, s.colB, row, col, i), a[row * s.colA + i] * b[i * s.colB + col]);
      sum := Wrap(s.half, sum + a[row * s.colA + i] * b[i * s.colB + col]);
      i := i + 1;
    }
    RowColOf(row, col, s.colB);
  }

  /** The stream written by the first core. */
  ghost predicate Emits(s: Shape, a: seq<int>, b: seq<int>, stream: seq<int>)
    requires s.half > 0
  {
    forall k :: 0 <= k < |stream| ==> stream[k] == Local(s, a, b, k)
  }

  method PutOnly(s: Shape, a: array<int>, b: array<int>) returns (stream: seq<int>)
    requires s.Fits(a[..], b[..])
    ensures |stream| == s.Count()
    ensures forall k :: 0 <= k < |stream| ==> stream[k] == Local(s, a[..], b[..], k)
  {
    stream := [];
    var row := 0;
    while row < s.rowA
      invariant 0 <= row <= s.rowA && |stream| == row * s.colB
      invariant Emits(s, a[..], b[..], stream)
    {
      var col := 0;
      while col < s.colB
        invariant 0 <= col <= s.colB && |stream| == row * s.colB + col
        invariant Emits(s, a[..], b[..], stream)
      {
        var sum := RunningSum(s, a, b, row, col);
        stream := stream + [sum];
        col := col + 1;
      }
      row := row + 1;
    }
  }

  /** The stream passed on by a core in the middle. */
  ghost predicate Relays(s: Shape, a: seq<int>, b: seq<int>, input: seq<int>, stream: seq<int>)
    requires s.half > 0 && |stream| <= |input|
  {
    forall k :: 0 <= k < |stream| ==> stream[k] == Wrap(s.half, Local(s, a, b, k) + input[k])
  }

  method PutGet(s: Shape, a: array<int>, b: array<int>, input: seq<int>) returns (stream: seq<int>)
    requires s.Fits(a[..], b[..]) && |input| == s.Count()
    ensures |stream| == s.Count()
    ensures forall k :: 0 <= k < |stream| ==> stream[k] == Wrap(s.half, Local(s, a[..], b[..], k) + input[k])
  {
    stream := [];
    var row := 0;
    while row < s.rowA
      invariant 0 <= row <= s.rowA && |stream| == row * s.colB <= |input|
      invariant Relays(s, a[..], b[..], input, stream)
    {
      var col := 0;
      MulMono(row + 1, s.rowA, s.colB);
      while col < s.colB
        invariant 0 <= col <= s.colB && |stream| == row * s.colB + col <= |input|
        invariant Relays(s, a[..], b[..], input, stream)
      {
        var sum := RunningSum(s, a, b, row, col);
        InMatrix(row, col, s.rowA, s.colB);
        sum := Wrap(s.half, sum + input[|stream|]);
        stream := stream + [sum];
        col := col + 1;
      }
      row := row + 1;
    }
  }

  /** The first `n` outputs have been accumulated into C, the rest is untouched. */
  ghost predicate Accumulated(s: Shape, a: seq<int>, b: seq<int>, input: seq<int>, c0: seq<int>, c: seq<int>, n: nat)
    requires s.half > 0 && |input| == |c0| == |c| && n <= |c|
  {
    forall k :: 0 <= k < |c| ==>
      c[k] == if k < n then Wrap(s.half, c0[k] + Wrap(s.half, Local(s, a, b, k) + input[k])) else c0[k]
  }

  lemma AccumulatesNext(s: Shape, a: seq<int>, b: seq<int>, input: seq<int>, c0: seq<int>, c: seq<int>, n: nat)
    requires s.half > 0 && |input| == |c0| == |c| && n < |c|
    requires Accumulated(s, a, b, input, c0, c, n)
    ensures Accumulated(s, a, b, input, c0,
      c[n := Wrap(s.half, c[n] + Wrap(s.half, Local(s, a, b, n) + input[n]))], n + 1)
  {}

  method GetOnly(s: Shape, a: array<int>, b: array<int>, input: seq<int>, c: array<int>)
    requires s.Fits(a[..], b[..]) && |input| == s.Count() == c.Length
    requires a != c && b != c
    modifies c
    ensures Accumulated(s, a[..], b[..], input, old(c[..]), c[..], s.Count())
  {
    ghost var c0, sa, sb := c[..], a[..], b[..];
    assert Accumulated(s, sa, sb, input, c0, c[..], 0);
    hide Accumulated, Local;
    var row := 0;
    while row < s.rowA
      invariant 0 <= row <= s.rowA && row * s.colB <= c.Length
      invariant a[..] == sa && b[..] == sb
      invariant Accumulated(s, sa, sb, input, c0, c[..], row * s.colB)
    {
      var col := 0;
      MulMono(row + 1, s.rowA, s.colB);
      while col < s.colB
        invariant 0 <= col <= s.colB && row * s.colB + s.colB <= c.Length
        invariant a[..] == sa && b[..] == sb
        invariant Accumulated(s, sa, sb, input, c0, c[..], row * s.colB + col)
      {
        var sum := RunningSum(s, a, b, row, col);
        var k := row * s.colB + col;
        sum := Wrap(s.half, sum + input[k]);
        AccumulatesNext(s, sa, sb, input, c0, c[..], k);
        ghost var next := c[..][k := Wrap(s.half, c[..][k] + sum)];
        c[k] := Wrap(s.half, c[k] + sum);
        assert c[..] == next;
        col := col + 1;
      }
      row := row + 1;
    }
  }
}
