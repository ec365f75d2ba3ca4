/**
 * The two low-bit GEMM kernels of torch/utils_quant.py. Both take
 * activation codes `[batch, len, dim]` with per-row scales
 * `[batch, len, 1]` and weight codes `[batch, dim, out]` with one scalar
 * scale, and return `codes_a @ codes_w / (scale_a * scale_w)`. The fast
 * kernel multiplies; the multiplication-free kernel adds or subtracts an
 * activation according to a ternary weight code.
 */
module LowBitGemm {
  import opened Tensors
  import opened Wrappers

  ghost predicate NonzeroRowScales(actS: seq<seq<seq<real>>>, batch: nat, len: nat)
    requires IsTensor3(actS, batch, len, 1)
  {
    forall b, i :: 0 <= b < batch && 0 <= i < len ==> actS[b][i][0] != 0.0
  }

  /** Every code of the matrix is -1, 0 or 1. */
  ghost predicate IsTernaryMatrix(w: seq<seq<int>>)
  {
    forall k, j :: 0 <= k < |w| && 0 <= j < |w[k]| ==> w[k][j] in {-1, 0, 1}
  }

  ghost predicate IsTernary(w: seq<int>)
  {
    forall k :: 0 <= k < |w| ==> w[k] in {-1, 0, 1}
  }

  /** One output element of the fast kernel: the integer dot product over both scales. */
  function GemmCell(a: seq<int>, col: seq<int>, actScale: real, weightS: real): real
    requires |a| == |col| && actScale != 0.0 && weightS != 0.0
  {
    ProductNonzero(actScale, weightS);
    Dot(a, col) as real / (actScale * weightS)
  }

  /**
   * `batched_low_bit_gemm`: `torch.bmm(act, weight) / (act_s * weight_s)`.
   * `torch.bmm` does not broadcast, so both operands have the same batch.
   */
  function BatchedLowBitGemm(act: seq<seq<seq<int>>>, actS: seq<seq<seq<real>>>, weight: seq<seq<seq<int>>>, weightS: real,
                             batch: nat, len: nat, dim: nat, out: nat): (r: seq<seq<seq<real>>>)
    requires IsTensor3(act, batch, len, dim) && IsTensor3(actS, batch, len, 1) && IsTensor3(weight, batch, dim, out)
    requires NonzeroRowScales(actS, batch, len) && weightS != 0.0
    ensures IsTensor3(r, batch, len, out)
    ensures forall b, i, j :: 0 <= b < batch && 0 <= i < len && 0 <= j < out ==>
      r[b][i][j] == GemmCell(act[b][i], Column(weight[b], j), actS[b][i][0], weightS)
  {
    seq(batch, b requires 0 <= b < batch =>
      seq(len, i requires 0 <= i < len =>
        seq(out, j requires 0 <= j < out => GemmCell(act[b][i], Column(weight[b], j), actS[b][i][0], weightS))))
  }

  /** `torch.bmm` on real tensors. */
  function RealBmm(x: seq<seq<seq<real>>>, y: seq<seq<seq<real>>>, batch: nat, len: nat, dim: nat, out: nat): (r: seq<seq<seq<real>>>)
    requires IsTensor3(x, batch, len, dim) && IsTensor3(y, batch, dim, out)
    ensures IsTensor3(r, batch, len, out)
    ensures forall b, i, j :: 0 <= b < batch && 0 <= i < len && 0 <= j < out ==>
      r[b][i][j] == RealDot(x[b][i], Column(y[b], j))
  {
    seq(batch, b requires 0 <= b < batch =>
      seq(len, i requires 0 <= i < len =>
        seq(out, j requires 0 <= j < out => RealDot(x[b][i], Column(y[b], j)))))
  }

  /** Activation codes divided by their row's scale. */
  function DequantizeActivation(act: seq<seq<seq<int>>>, actS: seq<seq<seq<real>>>, batch: nat, len: nat, dim: nat): (r: seq<seq<seq<real>>>)
    requires IsTensor3(act, batch, len, dim) && IsTensor3(actS, batch, len, 1) && NonzeroRowScales(actS, batch, len)
    ensures IsTensor3(r, batch, len, dim)
    ensures forall b, i, k :: 0 <= b < batch && 0 <= i < len && 0 <= k < dim ==>
      r[b][i][k] == act[b][i][k] as real / actS[b][i][0]
  {
    seq(batch, b requires 0 <= b < batch =>
      seq(len, i requires 0 <= i < len =>
        seq(dim, k requires 0 <= k < dim => act[b][i][k] as real / actS[b][i][0])))
  }

  /** Weight codes divided by the weight scale. */
  function DequantizeWeights(weight: seq<seq<seq<int>>>, weightS: real, batch: nat, dim: nat, out: nat): (r: seq<seq<seq<real>>>)
    requires IsTensor3(weight, batch, dim, out) && weightS != 0.0
    ensures IsTensor3(r, batch, dim, out)
    ensures forall b, k, j :: 0 <= b < batch && 0 <= k < dim && 0 <= j < out ==>
      r[b][k][j] == weight[b][k][j] as real / weightS
  {
    seq(batch, b requires 0 <= b < batch =>
      seq(dim, k requires 0 <= k < dim =>
        seq(out, j requires 0 <= j < out => weight[b][k][j] as real / weightS)))
  }

  /**
   * The fast kernel loses nothing by working on codes: multiplying the
   * codes and rescaling once equals multiplying the dequantized tensors.
   */
  lemma BatchedLowBitGemmIsDequantizedBmm(act: seq<seq<seq<int>>>, actS: seq<seq<seq<real>>>, weight: seq<seq<seq<int>>>, weightS: real,
                                          batch: nat, len: nat, dim: nat, out: nat)
    requires IsTensor3(act, batch, len, dim) && IsTensor3(actS, batch, len, 1) && IsTensor3(weight, batch, dim, out)
    requires NonzeroRowScales(actS, batch, len) && weightS != 0.0
    ensures BatchedLowBitGemm(act, actS, weight, weightS, batch, len, dim, out)
         == RealBmm(DequantizeActivation(act, actS, batch, len, dim), DequantizeWeights(weight, weightS, batch, dim, out), batch, len, dim, out)
  {
    var g := BatchedLowBitGemm(act, actS, weight, weightS, batch, len, dim, out);
    var x := DequantizeActivation(act, actS, batch, len, dim);
    var y := DequantizeWeights(weight, weightS, batch, dim, out);
    var r := RealBmm(x, y, batch, len, dim, out);
    forall b | 0 <= b < batch
      ensures g[b] == r[b]
    {
      forall i | 0 <= i < len
        ensures g[b][i] == r[b][i]
      {
        forall j | 0 <= j < out
          ensures g[b][i][j] == r[b][i][j]
        {
          assert x[b][i] == Dequantize(act[b][i], actS[b][i][0]);
          assert Column(y[b], j) == Dequantize(Column(weight[b], j), weightS);
          GemmCellIsDequantizedDot(act[b][i], Column(weight[b], j), actS[b][i][0], weightS);
        }
      }
    }
  }

  /** One element of `BatchedLowBitGemmIsDequantizedBmm`: a dot product of codes over both scales. */
  lemma GemmCellIsDequantizedDot(a: seq<int>, col: seq<int>, actScale: real, weightS: real)
    requires |a| == |col| && actScale != 0.0 && weightS != 0.0
    ensures GemmCell(a, col, actScale, weightS) == RealDot(Dequantize(a, actScale), Dequantize(col, weightS))
  {
    RealDotOfDequantized(Dequantize(a, actScale), Dequantize(col, weightS), a, col, actScale, weightS);
  }

  // ---------------------------------------------------------------------
  // The multiplication-free kernel

  /** One step of the multiplication-free accumulation: add on 1, subtract on -1, otherwise unchanged. */
  function MulFreeStep(acc: int, a: int, w: int): int
  {
    if w == 1 then acc + a
    else if w == -1 then acc - a
    else acc
  }

  /** The multiplication-free accumulation of `a` against the weight codes `w`, from the front. */
  function MulFreeSum(a: seq<int>, w: seq<int>): int
    requires |a| == |w|
    decreases |a|
  {
    if |a| == 0 then 0
    else MulFreeStep(MulFreeSum(a[..|a| - 1], w[..|w| - 1]), a[|a| - 1], w[|w| - 1])
  }

  /** On ternary codes the conditional add/subtract is exactly multiply-accumulate. */
  lemma {:induction false} MulFreeSumIsDot(a: seq<int>, w: seq<int>)
    requires |a| == |w| && IsTernary(w)
    ensures MulFreeSum(a, w) == Dot(a, w)
    decreases |a|
  {
    if |a| > 0 {
      var n := |a| - 1;
      assert IsTernary(w[..n]) by {
        assert forall k :: 0 <= k < n ==> w[..n][k] == w[k];
      }
      MulFreeSumIsDot(a[..n], w[..n]);
    }
  }

  /** The row `u` is zero everywhere except possibly at index `k`. */
  ghost predicate ZeroExcept(u: seq<int>, k: nat)
  {
    forall i :: 0 <= i < |u| && i != k ==> u[i] == 0
  }

  /** Against a row that is zero except at `k`, both accumulations see only the code at `k`. */
  lemma {:induction false} SumsOfSingleEntry(u: seq<int>, w: seq<int>, k: nat)
    requires |u| == |w| && ZeroExcept(u, k)
    ensures Dot(u, w) == if k < |u| then u[k] * w[k] else 0
    ensures MulFreeSum(u, w) == if k < |u| then MulFreeStep(0, u[k], w[k]) else 0
    decreases |u|
  {
    if |u| > 0 {
      var n := |u| - 1;
      assert ZeroExcept(u[..n], k) by {
        assert forall i :: 0 <= i < n ==> u[..n][i] == u[i];
      }
      SumsOfSingleEntry(u[..n], w[..n], k);
      if k < n {
        assert u[..n][k] == u[k] && w[..n][k] == w[k];
      }
    }
  }

  /**
   * The multiplication-free accumulation agrees with the dot product for
   * every activation row exactly when the weight codes are ternary; a code
   * outside {-1, 0, 1} is silently skipped.
   */
  lemma MulFreeSumAgreesIffTernary(w: seq<int>)
    ensures (forall a :: |a| == |w| ==> MulFreeSum(a, w) == Dot(a, w)) <==> IsTernary(w)
  {
    if IsTernary(w) {
      forall a | |a| == |w|
        ensures MulFreeSum(a, w) == Dot(a, w)
      {
        MulFreeSumIsDot(a, w);
      }
    } else {
      var k :| 0 <= k < |w| && w[k] !in {-1, 0, 1};
      var u := seq(|w|, i requires 0 <= i < |w| => if i == k then 1 else 0);
      SumsOfSingleEntry(u, w, k);
      assert MulFreeSum(u, w) != Dot(u, w);
    }
  }

  /** One output element of the multiplication-free kernel: the accumulation divided by each scale in turn. */
  function MulFreeCell(a: seq<int>, col: seq<int>, actScale: real, weightS: real): real
    requires |a| == |col| && actScale != 0.0 && weightS != 0.0
  {
    MulFreeSum(a, col) as real / actScale / weightS
  }

  /**
   * `batched_low_bit_gemm_mul_free_cpu`, with the output allocated with
   * `weight.shape[2]` columns (the source allocates `weight.shape[1]`; see
   * MulFreeGemmAsWritten). The batch must be 1, and only `weight[0]` is read.
   * Each element is the conditional add/subtract accumulation over its
   * scales, and on ternary weight codes it equals the fast kernel's element.
   */
  method MulFreeGemm(act: seq<seq<seq<int>>>, actS: seq<seq<seq<real>>>, weight: seq<seq<seq<int>>>, weightS: real,
                     len: nat, dim: nat, out: nat) returns (result: array3<real>)
    requires IsTensor3(act, 1, len, dim) && IsTensor3(actS, 1, len, 1)
    requires |weight| >= 1 && IsMatrix(weight[0], dim, out)
    requires NonzeroRowScales(actS, 1, len) && weightS != 0.0
    ensures fresh(result)
    ensures result.Length0 == 1 && result.Length1 == len && result.Length2 == out
    ensures forall i, j :: 0 <= i < len && 0 <= j < out ==>
      result[0, i, j] == MulFreeCell(act[0][i], Column(weight[0], j), actS[0][i][0], weightS)
    ensures IsTernaryMatrix(weight[0]) ==> forall i, j :: 0 <= i < len && 0 <= j < out ==>
      result[0, i, j] == BatchedLowBitGemm(act, actS, [weight[0]], weightS, 1, len, dim, out)[0][i][j]
  {
    result := new real[1, len, out]((_, _, _) => 0.0);
    for i := 0 to len
      invariant forall i', j' :: 0 <= i' < i && 0 <= j' < out ==>
        result[0, i', j'] == MulFreeCell(act[0][i'], Column(weight[0], j'), actS[0][i'][0], weightS)
      invariant forall i', j' :: i <= i' < len && 0 <= j' < out ==> result[0, i', j'] == 0.0
    {
      for j := 0 to out
        invariant forall i', j' :: 0 <= i' < i && 0 <= j' < out ==>
          result[0, i', j'] == MulFreeCell(act[0][i'], Column(weight[0], j'), actS[0][i'][0], weightS)
        invariant forall j' :: 0 <= j' < j ==>
          result[0, i, j'] == MulFreeCell(act[0][i], Column(weight[0], j'), actS[0][i][0], weightS)
        invariant forall i', j' :: i <= i' < len && 0 <= j' < out && (i' > i || j' >= j) ==> result[0, i', j'] == 0.0
      {
        AccumulateCell(result, i, j, act[0][i], Column(weight[0], j));
        result[0, i, j] := result[0, i, j] / actS[0][i][0] / weightS;
      }
    }
    if IsTernaryMatrix(weight[0]) {
      forall i, j | 0 <= i < len && 0 <= j < out
        ensures result[0, i, j] == BatchedLowBitGemm(act, actS, [weight[0]], weightS, 1, len, dim, out)[0][i][j]
      {
        MulFreeCellIsGemmCell(act[0][i], Column(weight[0], j), actS[0][i][0], weightS);
      }
    }
  }

  /**
   * The `k` loop of the multiplication-free kernel: output element `(i, j)`,
   * starting from 0, gains every activation whose weight is 1 and loses
   * every one whose weight is -1; no other element changes.
   */
  method AccumulateCell(result: array3<real>, i: nat, j: nat, a: seq<int>, col: seq<int>)
    requires result.Length0 == 1 && i < result.Length1 && j < result.Length2 && |a| == |col|
    requires result[0, i, j] == 0.0
    modifies result
    ensures result[0, i, j] == MulFreeSum(a, col) as real
    ensures forall i', j' :: 0 <= i' < result.Length1 && 0 <= j' < result.Length2 && (i' != i || j' != j) ==>
      result[0, i', j'] == old(result[0, i', j'])
  {
    for k := 0 to |a|
      invariant result[0, i, j] == MulFreeSum(a[..k], col[..k]) as real
      invariant forall i', j' :: 0 <= i' < result.Length1 && 0 <= j' < result.Length2 && (i' != i || j' != j) ==>
        result[0, i', j'] == old(result[0, i', j'])
    {
      assert a[..k + 1][..k] == a[..k] && col[..k + 1][..k] == col[..k];
      var w := col[k];
      if w == 1 {
        result[0, i, j] := result[0, i, j] + a[k] as real;
      } else if w == -1 {
        result[0, i, j] := result[0, i, j] - a[k] as real;
      }
    }
    assert a[..|a|] == a && col[..|a|] == col;
  }

  /** On a ternary column, an element of the multiplication-free kernel equals the fast kernel's. */
  lemma MulFreeCellIsGemmCell(a: seq<int>, col: seq<int>, actScale: real, weightS: real)
    requires |a| == |col| && IsTernary(col) && actScale != 0.0 && weightS != 0.0
    ensures MulFreeCell(a, col, actScale, weightS) == GemmCell(a, col, actScale, weightS)
  {
    MulFreeSumIsDot(a, col);
    QuotientTwice(Dot(a, col) as real, actScale, weightS);
  }

  datatype KernelError = IndexOutOfRange

  /**
   * The result of `batched_low_bit_gemm_mul_free_cpu` as written: the output
   * is allocated with `weight.shape[1]` (= `dim`) columns while `j` runs over
   * `weight.shape[2]` (= `out`). With more output columns than input
   * features the first store past the allocation raises; with fewer, the
   * extra columns stay 0.
   */
  function MulFreeGemmAsWritten(act: seq<seq<seq<int>>>, actS: seq<seq<seq<real>>>, weight: seq<seq<seq<int>>>, weightS: real,
                                len: nat, dim: nat, out: nat): (r: Result<seq<seq<seq<real>>>, KernelError>)
    requires IsTensor3(act, 1, len, dim) && IsTensor3(actS, 1, len, 1)
    requires |weight| >= 1 && IsMatrix(weight[0], dim, out)
    requires NonzeroRowScales(actS, 1, len) && weightS != 0.0
    ensures r.Ok? <==> len == 0 || out <= dim
    ensures r.Ok? ==> IsTensor3(r.value, 1, len, dim)
  {
    if len > 0 && out > dim then Err(IndexOutOfRange)
    else
      Ok([seq(len, i requires 0 <= i < len =>
        seq(dim, j requires 0 <= j < dim =>
          if j < out then MulFreeCell(act[0][i], Column(weight[0], j), actS[0][i][0], weightS) else 0.0))])
  }

  /**
   * As written, the multiplication-free kernel reproduces the fast kernel
   * (on ternary codes, for a non-empty sequence) exactly when the layer is
   * square: otherwise it raises or returns the wrong number of columns.
   */
  lemma MulFreeGemmAsWrittenAgreesOnlyWhenSquare(act: seq<seq<seq<int>>>, actS: seq<seq<seq<real>>>, weight: seq<seq<seq<int>>>, weightS: real,
                                                 len: nat, dim: nat, out: nat)
    requires IsTensor3(act, 1, len, dim) && IsTensor3(actS, 1, len, 1)
    requires |weight| >= 1 && IsMatrix(weight[0], dim, out) && IsTernaryMatrix(weight[0])
    requires NonzeroRowScales(actS, 1, len) && weightS != 0.0
    requires len > 0
    ensures (MulFreeGemmAsWritten(act, actS, weight, weightS, len, dim, out)
             == Ok(BatchedLowBitGemm(act, actS, [weight[0]], weightS, 1, len, dim, out)))
            <==> dim == out
  {
    var fast := BatchedLowBitGemm(act, actS, [weight[0]], weightS, 1, len, dim, out);
    var r := MulFreeGemmAsWritten(act, actS, weight, weightS, len, dim, out);
    if dim == out {
      forall i | 0 <= i < len
        ensures r.value[0][i] == fast[0][i]
      {
        forall j | 0 <= j < out
          ensures r.value[0][i][j] == fast[0][i][j]
        {
          MulFreeCellIsGemmCell(act[0][i], Column(weight[0], j), actS[0][i][0], weightS);
        }
      }
      assert r.value[0] == fast[0];
      assert r.value == fast;
    } else if out < dim {
      assert |r.value[0][0]| != |fast[0][0]|;
    }
  }
}
