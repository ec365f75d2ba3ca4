/**
 * The weight and activation quantizers of torch/utils_quant.py: the
 * "true" forms that return integer codes with their scale, and the
 * "fake" forms that return the codes already divided by the scale.
 * Tensor elements are reals; IEEE rounding error is not modelled.
 */
module Quantizer {
  import opened Tensors

  /** The lower bound the mean or maximum magnitude is clamped to before it divides (`clamp(min=1e-5)`). */
  const Eps: real := 0.00001

  function Abs(x: real): real
  {
    if x < 0.0 then -x else x
  }

  function MaxReal(x: real, y: real): real
  {
    if x >= y then x else y
  }

  /**
   * `torch.round`: the nearest integer, ties going to the even neighbour.
   */
  function Round(x: real): (n: int)
    ensures -0.5 <= n as real - x <= 0.5
    ensures (n as real - x == 0.5 || x - n as real == 0.5) ==> n % 2 == 0
    ensures x == x.Floor as real ==> n == x.Floor
  {
    var f := x.Floor;
    var d := x - f as real;
    if d < 0.5 then f
    else if d > 0.5 then f + 1
    else if f % 2 == 0 then f
    else f + 1
  }

  /** `clamp(lo, hi)` on an integer-valued tensor element. */
  function Clamp(v: int, lo: int, hi: int): (r: int)
    requires lo <= hi
    ensures lo <= r <= hi
    ensures lo <= v <= hi ==> r == v
  {
    if v < lo then lo else if v > hi then hi else v
  }

  /** An element scaled by its quantization scale, `x * s`. */
  function ScaleBy(x: real, s: real): real
  {
    x * s
  }

  function Pow2(n: nat): (p: nat)
    ensures p >= 1
  {
    if n == 0 then 1 else 2 * Pow2(n - 1)
  }

  /** The most negative code, `-2 ** (num_bits - 1)`. */
  function Qn(numBits: nat): int
    requires numBits >= 1
  {
    -(Pow2(numBits - 1) as int)
  }

  /** The most positive code, `2 ** (num_bits - 1) - 1`. */
  function Qp(numBits: nat): int
    requires numBits >= 1
  {
    Pow2(numBits - 1) - 1
  }

  // ---------------------------------------------------------------------
  // Weights: ternary codes, one scale for the whole tensor

  function SumAbsRow(row: seq<real>): (r: real)
    ensures r >= 0.0
    decreases |row|
  {
    if |row| == 0 then 0.0 else SumAbsRow(row[..|row| - 1]) + Abs(row[|row| - 1])
  }

  function SumAbs(w: seq<seq<real>>): (r: real)
    ensures r >= 0.0
    decreases |w|
  {
    if |w| == 0 then 0.0 else SumAbs(w[..|w| - 1]) + SumAbsRow(w[|w| - 1])
  }

  /** The sum of magnitudes is zero exactly when every element is zero. */
  lemma {:induction false} SumAbsRowZero(row: seq<real>)
    ensures SumAbsRow(row) == 0.0 <==> forall k :: 0 <= k < |row| ==> row[k] == 0.0
    decreases |row|
  {
    if |row| > 0 {
      var n := |row| - 1;
      SumAbsRowZero(row[..n]);
      assert forall k :: 0 <= k < n ==> row[..n][k] == row[k];
    }
  }

  lemma {:induction false} SumAbsZero(w: seq<seq<real>>)
    ensures SumAbs(w) == 0.0 <==> forall i, j :: 0 <= i < |w| && 0 <= j < |w[i]| ==> w[i][j] == 0.0
    decreases |w|
  {
    if |w| > 0 {
      var n := |w| - 1;
      SumAbsZero(w[..n]);
      SumAbsRowZero(w[n]);
      assert forall i :: 0 <= i < n ==> w[..n][i] == w[i];
    }
  }

  /** `weight.abs().mean()` over a non-empty `rows` by `cols` weight. */
  function MeanAbs(w: seq<seq<real>>, rows: nat, cols: nat): real
    requires IsMatrix(w, rows, cols) && rows > 0 && cols > 0
  {
    SumAbs(w) / (rows * cols) as real
  }

  /** `1 / weight.abs().mean().clamp(min=1e-5)`. */
  function WeightScale(w: seq<seq<real>>, rows: nat, cols: nat): (s: real)
    requires IsMatrix(w, rows, cols) && rows > 0 && cols > 0
    ensures 0.0 < s <= 100000.0
  {
    1.0 / MaxReal(MeanAbs(w, rows, cols), Eps)
  }

  /**
   * `round().clamp(-1, 1)` on one scaled weight `y`: 1 exactly above one
   * half, -1 exactly below minus one half, 0 in between (both ties round
   * to the even neighbour 0).
   */
  function TernaryCode(y: real): (c: int)
    ensures c in {-1, 0, 1}
    ensures c == 1 <==> y > 0.5
    ensures c == -1 <==> y < -0.5
  {
    Clamp(Round(y), -1, 1)
  }

  /**
   * `(weight * s).round().clamp(-1, 1)` over a whole matrix: every code is
   * ternary, 1 exactly where the scaled weight exceeds one half and -1
   * exactly where it is below minus one half.
   */
  function TernaryCodes(w: seq<seq<real>>, rows: nat, cols: nat, s: real): (c: seq<seq<int>>)
    requires IsMatrix(w, rows, cols)
    ensures IsMatrix(c, rows, cols)
    ensures forall i, j :: 0 <= i < rows && 0 <= j < cols ==> c[i][j] in {-1, 0, 1}
    ensures forall i, j :: 0 <= i < rows && 0 <= j < cols ==> (c[i][j] == 1 <==> ScaleBy(w[i][j], s) > 0.5)
    ensures forall i, j :: 0 <= i < rows && 0 <= j < cols ==> (c[i][j] == -1 <==> ScaleBy(w[i][j], s) < -0.5)
    ensures forall i, j :: 0 <= i < rows && 0 <= j < cols ==> c[i][j] == TernaryCode(ScaleBy(w[i][j], s))
  {
    seq(rows, i requires 0 <= i < rows =>
      seq(cols, j requires 0 <= j < cols => TernaryCode(ScaleBy(w[i][j], s))))
  }

  datatype QuantizedWeight = QuantizedWeight(codes: seq<seq<int>>, scale: real)

  /**
   * `weight_quant_true`: ternary codes and one positive scale. A code is 1
   * exactly when the scaled weight exceeds one half, -1 exactly when it is
   * below minus one half, and 0 otherwise (a tie at plus or minus one half
   * rounds to the even neighbour 0). `num_bits` is accepted and ignored,
   * as in the source.
   */
  function WeightQuantTrue(w: seq<seq<real>>, rows: nat, cols: nat, numBits: int): (q: QuantizedWeight)
    requires IsMatrix(w, rows, cols) && rows > 0 && cols > 0
    ensures IsMatrix(q.codes, rows, cols)
    ensures 0.0 < q.scale <= 100000.0
    ensures forall i, j :: 0 <= i < rows && 0 <= j < cols ==> q.codes[i][j] in {-1, 0, 1}
    ensures forall i, j :: 0 <= i < rows && 0 <= j < cols ==> (q.codes[i][j] == 1 <==> ScaleBy(w[i][j], q.scale) > 0.5)
    ensures forall i, j :: 0 <= i < rows && 0 <= j < cols ==> (q.codes[i][j] == -1 <==> ScaleBy(w[i][j], q.scale) < -0.5)
  {
    var s := WeightScale(w, rows, cols);
    QuantizedWeight(TernaryCodes(w, rows, cols, s), s)
  }

  /** `weight_quant`: the same quantization, returned divided by the scale. */
  function WeightQuant(w: seq<seq<real>>, rows: nat, cols: nat, numBits: int): (r: seq<seq<real>>)
    requires IsMatrix(w, rows, cols) && rows > 0 && cols > 0
    ensures IsMatrix(r, rows, cols)
  {
    var s := WeightScale(w, rows, cols);
    seq(rows, i requires 0 <= i < rows =>
      seq(cols, j requires 0 <= j < cols => TernaryCode(ScaleBy(w[i][j], s)) as real / s))
  }

  /** Codes divided by their scale. */
  function DequantizeWeight(q: QuantizedWeight, rows: nat, cols: nat): (r: seq<seq<real>>)
    requires IsMatrix(q.codes, rows, cols) && q.scale != 0.0
    ensures IsMatrix(r, rows, cols)
    ensures forall i, j :: 0 <= i < rows && 0 <= j < cols ==> r[i][j] * q.scale == q.codes[i][j] as real
  {
    seq(rows, i requires 0 <= i < rows =>
      seq(cols, j requires 0 <= j < cols => q.codes[i][j] as real / q.scale))
  }

  /** The fake quantizer is the true quantizer followed by dequantization. */
  lemma WeightQuantIsDequantizedTrue(w: seq<seq<real>>, rows: nat, cols: nat, numBits: int)
    requires IsMatrix(w, rows, cols) && rows > 0 && cols > 0
    ensures WeightQuant(w, rows, cols, numBits) == DequantizeWeight(WeightQuantTrue(w, rows, cols, numBits), rows, cols)
  {
    var fake := WeightQuant(w, rows, cols, numBits);
    var deq := DequantizeWeight(WeightQuantTrue(w, rows, cols, numBits), rows, cols);
    forall i | 0 <= i < rows
      ensures fake[i] == deq[i]
    {
    }
  }

  /**
   * An all-zero weight does not divide by zero: its mean is clamped to
   * 1e-5, so the scale is 1e5 and every code is 0.
   */
  lemma WeightQuantOfZero(w: seq<seq<real>>, rows: nat, cols: nat, numBits: int)
    requires IsMatrix(w, rows, cols) && rows > 0 && cols > 0
    requires forall i, j :: 0 <= i < rows && 0 <= j < cols ==> w[i][j] == 0.0
    ensures WeightQuantTrue(w, rows, cols, numBits).scale == 100000.0
    ensures forall i, j :: 0 <= i < rows && 0 <= j < cols ==> WeightQuantTrue(w, rows, cols, numBits).codes[i][j] == 0
  {
    SumAbsZero(w);
  }

  // ---------------------------------------------------------------------
  // Activations: signed codes, one scale per row of the last dimension

  /** `x.abs().max(dim=-1)` for one row: bounds every magnitude and is attained. */
  function MaxAbs(row: seq<real>): (m: real)
    requires |row| > 0
    ensures forall k :: 0 <= k < |row| ==> Abs(row[k]) <= m
    ensures exists k :: 0 <= k < |row| && Abs(row[k]) == m
    decreases |row|
  {
    if |row| == 1 then Abs(row[0])
    else
      var n := |row| - 1;
      assert forall k :: 0 <= k < n ==> row[..n][k] == row[k];
      MaxReal(MaxAbs(row[..n]), Abs(row[n]))
  }

  /** `Qp / x.abs().max(dim=-1, keepdim=True).values.clamp(min=1e-5)` for one row. */
  function RowScale(row: seq<real>, numBits: nat): (s: real)
    requires |row| > 0 && numBits >= 1
    ensures s >= 0.0
    ensures numBits >= 2 ==> s > 0.0
  {
    Qp(numBits) as real / MaxReal(MaxAbs(row), Eps)
  }

  /**
   * `(x * s).round().clamp(Qn, Qp)` for one row: every code lies in
   * `[Qn, Qp]`, and a rounded value already in that range is kept as it is.
   */
  function RowCodes(row: seq<real>, s: real, numBits: nat): (c: seq<int>)
    requires numBits >= 1
    ensures |c| == |row|
    ensures forall k :: 0 <= k < |row| ==> Qn(numBits) <= c[k] <= Qp(numBits)
    ensures forall k :: 0 <= k < |row| && Qn(numBits) <= Round(ScaleBy(row[k], s)) <= Qp(numBits) ==>
      c[k] == Round(ScaleBy(row[k], s))
    ensures forall k :: 0 <= k < |row| ==> c[k] == Clamp(Round(ScaleBy(row[k], s)), Qn(numBits), Qp(numBits))
  {
    seq(|row|, k requires 0 <= k < |row| => Clamp(Round(ScaleBy(row[k], s)), Qn(numBits), Qp(numBits)))
  }

  lemma {:induction false} Pow2Monotone(n: nat, m: nat)
    requires n <= m
    ensures Pow2(n) <= Pow2(m)
    decreases m
  {
    if n < m {
      Pow2Monotone(n, m - 1);
    }
  }

  datatype QuantizedActivation = QuantizedActivation(codes: seq<seq<seq<int>>>, scale: seq<seq<seq<real>>>)

  /**
   * `activation_quant_true` on a `[batch, len, dim]` tensor: every code lies
   * in `[Qn, Qp]` and so fits int8 for `num_bits <= 8`; the scale has shape
   * `[batch, len, 1]` and its entry for a row is computed from that row alone.
   */
  function ActivationQuantTrue(x: seq<seq<seq<real>>>, batch: nat, len: nat, dim: nat, numBits: nat): (q: QuantizedActivation)
    requires IsTensor3(x, batch, len, dim) && dim > 0 && 1 <= numBits <= 8
    ensures IsTensor3(q.codes, batch, len, dim) && IsTensor3(q.scale, batch, len, 1)
    ensures forall b, i, k :: 0 <= b < batch && 0 <= i < len && 0 <= k < dim ==>
      Qn(numBits) <= q.codes[b][i][k] <= Qp(numBits) && -128 <= q.codes[b][i][k] <= 127
    ensures forall b, i :: 0 <= b < batch && 0 <= i < len ==> q.scale[b][i][0] == RowScale(x[b][i], numBits)
    ensures forall b, i :: 0 <= b < batch && 0 <= i < len ==> q.codes[b][i] == RowCodes(x[b][i], RowScale(x[b][i], numBits), numBits)
  {
    Pow2Monotone(numBits - 1, 7);
    assert Pow2(7) == 128;
    QuantizedActivation(
      seq(batch, b requires 0 <= b < batch =>
        seq(len, i requires 0 <= i < len => RowCodes(x[b][i], RowScale(x[b][i], numBits), numBits))),
      seq(batch, b requires 0 <= b < batch =>
        seq(len, i requires 0 <= i < len => [RowScale(x[b][i], numBits)])))
  }

  /** `activation_quant` for one row: the codes, divided by the row's scale. */
  function ActivationQuantRow(row: seq<real>, numBits: nat): (r: seq<real>)
    requires |row| > 0 && numBits >= 2
    ensures |r| == |row|
  {
    var s := RowScale(row, numBits);
    var c := RowCodes(row, s, numBits);
    seq(|row|, k requires 0 <= k < |row| => c[k] as real / s)
  }

  /** `activation_quant` on a `[batch, len, dim]` tensor. */
  function ActivationQuant(x: seq<seq<seq<real>>>, batch: nat, len: nat, dim: nat, numBits: nat): (r: seq<seq<seq<real>>>)
    requires IsTensor3(x, batch, len, dim) && dim > 0 && numBits >= 2
    ensures IsTensor3(r, batch, len, dim)
  {
    seq(batch, b requires 0 <= b < batch =>
      seq(len, i requires 0 <= i < len => ActivationQuantRow(x[b][i], numBits)))
  }

  /** The fake quantizer is the true quantizer followed by dequantization. */
  lemma ActivationQuantIsDequantizedTrue(x: seq<seq<seq<real>>>, batch: nat, len: nat, dim: nat, numBits: nat)
    requires IsTensor3(x, batch, len, dim) && dim > 0 && 2 <= numBits <= 8
    ensures forall b, i, k :: 0 <= b < batch && 0 <= i < len && 0 <= k < dim ==>
      ActivationQuant(x, batch, len, dim, numBits)[b][i][k]
        == ActivationQuantTrue(x, batch, len, dim, numBits).codes[b][i][k] as real
           / ActivationQuantTrue(x, batch, len, dim, numBits).scale[b][i][0]
  {
  }

  /** A magnitude no larger than `d`, scaled by `qp / d`, is no larger than `qp`. */
  lemma ScaledWithinRange(x: real, d: real, qp: real)
    requires d > 0.0 && qp >= 0.0 && Abs(x) <= d
    ensures -qp <= ScaleBy(x, qp / d) <= qp
  {
    var t := x / d;
    assert t * d == x;
    assert ScaleBy(x, qp / d) == t * qp;
  }

  /** The largest magnitude, scaled by `qp` over itself, lands on `qp` or `-qp`. */
  lemma ScaledMaximum(x: real, qp: real)
    requires x != 0.0
    ensures ScaleBy(x, qp / Abs(x)) == if x >= 0.0 then qp else -qp
  {
  }

  /**
   * Within a row no code is clipped: the largest magnitude maps to at most
   * `Qp`, so rounding alone decides each code and it lies in `[-Qp, Qp]`.
   */
  lemma RowCodesUnclipped(row: seq<real>, numBits: nat, k: nat)
    requires |row| > 0 && numBits >= 1 && k < |row|
    ensures var s := RowScale(row, numBits);
      RowCodes(row, s, numBits)[k] == Round(ScaleBy(row[k], s)) &&
      -Qp(numBits) <= RowCodes(row, s, numBits)[k] <= Qp(numBits)
  {
    ScaledWithinRange(row[k], MaxReal(MaxAbs(row), Eps), Qp(numBits) as real);
  }

  /**
   * When a row's largest magnitude is at least 1e-5, the element that
   * attains it is coded as `Qp` or `-Qp`: the row uses the full code range.
   */
  lemma RowCodesReachQp(row: seq<real>, numBits: nat, k: nat)
    requires |row| > 0 && numBits >= 1 && k < |row|
    requires MaxAbs(row) >= Eps && Abs(row[k]) == MaxAbs(row)
    ensures var c := RowCodes(row, RowScale(row, numBits), numBits)[k];
      c == Qp(numBits) || c == -Qp(numBits)
  {
    ScaledMaximum(row[k], Qp(numBits) as real);
    RowCodesUnclipped(row, numBits, k);
  }

  /**
   * Each dequantized value of a row is a code divided by the row's scale, so
   * it scales back to that code exactly, and its magnitude is bounded by the
   * clamped maximum the scale was computed from.
   */
  lemma DequantizedRowOnGrid(row: seq<real>, numBits: nat, k: nat)
    requires |row| > 0 && numBits >= 2 && k < |row|
    ensures var s := RowScale(row, numBits);
      var y := ActivationQuantRow(row, numBits);
      ScaleBy(y[k], s) == RowCodes(row, s, numBits)[k] as real &&
      Abs(y[k]) <= MaxReal(MaxAbs(row), Eps) &&
      (Abs(RowCodes(row, s, numBits)[k] as real) == Qp(numBits) as real ==> Abs(y[k]) == MaxReal(MaxAbs(row), Eps))
  {
    var d := MaxReal(MaxAbs(row), Eps);
    var qp := Qp(numBits) as real;
    var s := qp / d;
    assert s == RowScale(row, numBits);
    var c := RowCodes(row, s, numBits)[k] as real;
    assert ActivationQuantRow(row, numBits)[k] == c / s;
    RowCodesUnclipped(row, numBits, k);
    QuotientBound(c, qp, d);
  }

  lemma QuotientBound(c: real, qp: real, d: real)
    requires d > 0.0 && qp > 0.0 && Abs(c) <= qp
    ensures ScaleBy(c / (qp / d), qp / d) == c
    ensures Abs(c / (qp / d)) <= d
    ensures Abs(c) == qp ==> Abs(c / (qp / d)) == d
  {
    var s := qp / d;
    assert c / s == c * d / qp;
    assert Abs(c) * d <= qp * d;
  }

  /** Quantizing a row leaves its scale unchanged. */
  lemma DequantizedRowKeepsScale(row: seq<real>, numBits: nat)
    requires |row| > 0 && numBits >= 2
    ensures RowScale(ActivationQuantRow(row, numBits), numBits) == RowScale(row, numBits)
  {
    var y := ActivationQuantRow(row, numBits);
    var d := MaxReal(MaxAbs(row), Eps);
    forall k | 0 <= k < |row|
      ensures Abs(y[k]) <= d
    {
      DequantizedRowOnGrid(row, numBits, k);
    }
    var ky :| 0 <= ky < |y| && Abs(y[ky]) == MaxAbs(y);
    assert MaxAbs(y) <= d;
    if MaxAbs(row) >= Eps {
      var km :| 0 <= km < |row| && Abs(row[km]) == MaxAbs(row);
      RowCodesReachQp(row, numBits, km);
      DequantizedRowOnGrid(row, numBits, km);
      assert Abs(y[km]) == d;
      assert MaxAbs(y) == d;
    }
    assert MaxReal(MaxAbs(y), Eps) == d;
  }

  /**
   * Activation fake quantization is idempotent: quantizing an
   * already-quantized row again reproduces it, because the row keeps its
   * scale and its values already lie on the quantization grid.
   */
  lemma ActivationQuantRowIdempotent(row: seq<real>, numBits: nat)
    requires |row| > 0 && numBits >= 2
    ensures ActivationQuantRow(ActivationQuantRow(row, numBits), numBits) == ActivationQuantRow(row, numBits)
  {
    var s := RowScale(row, numBits);
    var c := RowCodes(row, s, numBits);
    var y := ActivationQuantRow(row, numBits);
    DequantizedRowKeepsScale(row, numBits);
    var c2 := RowCodes(y, s, numBits);
    forall k | 0 <= k < |row|
      ensures c2[k] == c[k]
    {
      DequantizedRowOnGrid(row, numBits, k);
      RowCodesUnclipped(row, numBits, k);
    }
  }

  /** Activation fake quantization of a whole tensor is idempotent. */
  lemma ActivationQuantIdempotent(x: seq<seq<seq<real>>>, batch: nat, len: nat, dim: nat, numBits: nat)
    requires IsTensor3(x, batch, len, dim) && dim > 0 && numBits >= 2
    ensures ActivationQuant(ActivationQuant(x, batch, len, dim, numBits), batch, len, dim, numBits)
         == ActivationQuant(x, batch, len, dim, numBits)
  {
    var y := ActivationQuant(x, batch, len, dim, numBits);
    var z := ActivationQuant(y, batch, len, dim, numBits);
    forall b | 0 <= b < batch
      ensures z[b] == y[b]
    {
      forall i | 0 <= i < len
        ensures z[b][i] == y[b][i]
      {
        ActivationQuantRowIdempotent(x[b][i], numBits);
      }
    }
  }

  /**
   * Each fake-quantized activation differs from the original by at most
   * half a quantization step, `0.5 / s`: no activation is ever clipped,
   * because the scale maps the row's largest magnitude to at most `Qp`.
   */
  lemma ActivationQuantError(row: seq<real>, numBits: nat, k: nat)
    requires |row| > 0 && numBits >= 2 && k < |row|
    ensures Abs(ActivationQuantRow(row, numBits)[k] - row[k]) <= 0.5 / RowScale(row, numBits)
  {
    var s := RowScale(row, numBits);
    var c := RowCodes(row, s, numBits)[k];
    RowCodesUnclipped(row, numBits, k);
    assert ActivationQuantRow(row, numBits)[k] == c as real / s;
    RoundingErrorScaled(c as real, row[k], s);
  }

  lemma RoundingErrorScaled(c: real, x: real, s: real)
    requires s > 0.0 && Abs(c - ScaleBy(x, s)) <= 0.5
    ensures Abs(c / s - x) <= 0.5 / s
  {
    var e := c - x * s;
    assert c / s - x == e / s;
    assert Abs(e / s) == Abs(e) / s;
    assert Abs(e) / s <= 0.5 / s;
  }
}
