/**
 * Dense tensors of rank at most three, as nested sequences indexed
 * `t[b][i][k]`, with the shape stated by a predicate, and the integer and
 * real dot products the kernels are specified by.
 */
module Tensors {

  /** `m` is a `rows` by `cols` matrix. */
  ghost predicate IsMatrix<T>(m: seq<seq<T>>, rows: nat, cols: nat)
  {
    |m| == rows && forall i :: 0 <= i < rows ==> |m[i]| == cols
  }

  /** `t` has shape `[d0, d1, d2]`. */
  ghost predicate IsTensor3<T>(t: seq<seq<seq<T>>>, d0: nat, d1: nat, d2: nat)
  {
    |t| == d0 && forall b :: 0 <= b < d0 ==> IsMatrix(t[b], d1, d2)
  }

  /** Column `j` of a matrix whose rows all have more than `j` entries. */
  function Column<T>(m: seq<seq<T>>, j: nat): (c: seq<T>)
    requires forall k :: 0 <= k < |m| ==> j < |m[k]|
    ensures |c| == |m|
    ensures forall k :: 0 <= k < |m| ==> c[k] == m[k][j]
  {
    seq(|m|, k requires 0 <= k < |m| => m[k][j])
  }

  /** The transpose of a `rows` by `cols` matrix (`.T` on a 2-D tensor). */
  function Transpose<T>(m: seq<seq<T>>, rows: nat, cols: nat): (t: seq<seq<T>>)
    requires IsMatrix(m, rows, cols)
    ensures IsMatrix(t, cols, rows)
    ensures forall j, i :: 0 <= j < cols && 0 <= i < rows ==> t[j][i] == m[i][j]
  {
    seq(cols, j requires 0 <= j < cols => seq(rows, i requires 0 <= i < rows => m[i][j]))
  }

  /** Transposing twice gives back the matrix. */
  lemma TransposeTwice<T>(m: seq<seq<T>>, rows: nat, cols: nat)
    requires IsMatrix(m, rows, cols)
    ensures Transpose(Transpose(m, rows, cols), cols, rows) == m
  {
    var tt := Transpose(Transpose(m, rows, cols), cols, rows);
    forall i | 0 <= i < rows
      ensures tt[i] == m[i]
    {
      assert |tt[i]| == cols == |m[i]|;
    }
  }

  /** Column `j` of a matrix is row `j` of its transpose. */
  lemma ColumnOfTranspose<T>(m: seq<seq<T>>, rows: nat, cols: nat, j: nat)
    requires IsMatrix(m, rows, cols) && j < cols
    ensures Column(m, j) == Transpose(m, rows, cols)[j]
  {
    assert |Column(m, j)| == rows == |Transpose(m, rows, cols)[j]|;
  }

  /** Integer dot product, accumulated from the front as a loop over `k` does. */
  function Dot(a: seq<int>, w: seq<int>): int
    requires |a| == |w|
    decreases |a|
  {
    if |a| == 0 then 0
    else Dot(a[..|a| - 1], w[..|w| - 1]) + a[|a| - 1] * w[|w| - 1]
  }

  /** Real dot product, with the same order of accumulation. */
  function RealDot(x: seq<real>, y: seq<real>): real
    requires |x| == |y|
    decreases |x|
  {
    if |x| == 0 then 0.0
    else RealDot(x[..|x| - 1], y[..|y| - 1]) + x[|x| - 1] * y[|y| - 1]
  }

  /**
   * Dequantizing both operands of a dot product and then multiplying is the
   * same as multiplying the codes and dividing once by the product of the
   * two scales: the identity that lets the kernels work on integer codes.
   */
  lemma {:induction false} RealDotOfDequantized(x: seq<real>, y: seq<real>, a: seq<int>, w: seq<int>, sa: real, sw: real)
    requires |x| == |y| == |a| == |w|
    requires sa != 0.0 && sw != 0.0
    requires forall k :: 0 <= k < |x| ==> x[k] == a[k] as real / sa
    requires forall k :: 0 <= k < |y| ==> y[k] == w[k] as real / sw
    ensures RealDot(x, y) == Dot(a, w) as real / (sa * sw)
    decreases |x|
  {
    if |x| > 0 {
      var n := |x| - 1;
      RealDotOfDequantized(x[..n], y[..n], a[..n], w[..n], sa, sw);
      QuotientProduct(a[n] as real, w[n] as real, sa, sw);
      QuotientSum(Dot(a[..n], w[..n]) as real, (a[n] * w[n]) as real, sa * sw);
    }
  }

  lemma QuotientProduct(p: real, q: real, sa: real, sw: real)
    requires sa != 0.0 && sw != 0.0
    ensures (p / sa) * (q / sw) == (p * q) / (sa * sw)
  {
  }

  /** Integer codes divided by their scale: scaling a value back gives its code. */
  function Dequantize(codes: seq<int>, s: real): (r: seq<real>)
    requires s != 0.0
    ensures |r| == |codes|
    ensures forall k :: 0 <= k < |r| ==> r[k] * s == codes[k] as real
    ensures forall k :: 0 <= k < |r| ==> r[k] == codes[k] as real / s
  {
    seq(|codes|, k requires 0 <= k < |codes| => codes[k] as real / s)
  }

  lemma ProductNonzero(a: real, b: real)
    requires a != 0.0 && b != 0.0
    ensures a * b != 0.0
  {
  }

  /** Dividing by two scales in turn is dividing by their product. */
  lemma QuotientTwice(x: real, a: real, b: real)
    requires a != 0.0 && b != 0.0
    ensures a * b != 0.0 && x / a / b == x / (a * b)
  {
    ProductNonzero(a, b);
    var q := x / a / b;
    assert q * b == x / a;
    assert q * b * a == x;
    assert q * (a * b) == x;
  }

  lemma QuotientSum(p: real, q: real, d: real)
    requires d != 0.0
    ensures p / d + q / d == (p + q) / d
  {
  }
}
