/**
 * `BitLinear.forward` of torch/utils_quant.py: quantize the input per row
 * and the stored weight as a whole, run the low-bit GEMM on the codes with
 * the weight transposed to `[1, in, out]`, and add the bias, if any, to
 * every output row.
 */
module BitLinearLayer {
  import opened Wrappers
  import opened Tensors
  import opened Quantizer
  import opened LowBitGemm

  /**
   * The layer's state: the `nn.Linear` weight `[outFeatures, inFeatures]`,
   * an optional bias `[outFeatures]`, and the two bit widths. Nothing in it
   * changes during a forward call, and no quantized weight is kept.
   */
  datatype BitLinear = BitLinear(
    weight: seq<seq<real>>,
    bias: Option<seq<real>>,
    inFeatures: nat,
    outFeatures: nat,
    weightBits: int,
    inputBits: nat)
  {
    ghost predicate Valid()
    {
      && IsMatrix(weight, outFeatures, inFeatures)
      && inFeatures > 0 && outFeatures > 0
      && (bias.Some? ==> |bias.value| == outFeatures)
      && 2 <= inputBits <= 8
    }
  }

  /** The bias term added at output column `j`: `bias[j]`, or nothing without a bias. */
  function BiasAt(bias: Option<seq<real>>, j: nat): real
    requires bias.Some? ==> j < |bias.value|
  {
    if bias.Some? then bias.value[j] else 0.0
  }

  /**
   * The GEMM part of the forward pass on the true quantizations: activation
   * codes and scales, weight codes transposed to `[1, in, out]`, weight scale.
   */
  function QuantizedLinear(layer: BitLinear, input: seq<seq<seq<real>>>, len: nat): (r: seq<seq<seq<real>>>)
    requires layer.Valid() && IsTensor3(input, 1, len, layer.inFeatures)
    ensures IsTensor3(r, 1, len, layer.outFeatures)
  {
    var q := ActivationQuantTrue(input, 1, len, layer.inFeatures, layer.inputBits);
    var wq := WeightQuantTrue(layer.weight, layer.outFeatures, layer.inFeatures, layer.weightBits);
    BatchedLowBitGemm(q.codes, q.scale, [Transpose(wq.codes, layer.outFeatures, layer.inFeatures)], wq.scale,
                      1, len, layer.inFeatures, layer.outFeatures)
  }

  /**
   * `out += bias.view(1, -1).expand_as(out)`: every row of the output gains
   * the bias at its column; nothing else changes.
   */
  method AddBias(out: array3<real>, bias: seq<real>)
    requires |bias| == out.Length2
    modifies out
    ensures forall b, i, j :: 0 <= b < out.Length0 && 0 <= i < out.Length1 && 0 <= j < out.Length2 ==>
      out[b, i, j] == old(out[b, i, j]) + bias[j]
  {
    forall b, i, j | 0 <= b < out.Length0 && 0 <= i < out.Length1 && 0 <= j < out.Length2 {
      out[b, i, j] := out[b, i, j] + bias[j];
    }
  }

  /**
   * `BitLinear.forward` on a `[1, len, inFeatures]` input (`torch.bmm` with a
   * weight of batch 1 admits only batch 1): each output element is the fast
   * kernel's element plus the bias at its column.
   */
  method Forward(layer: BitLinear, input: seq<seq<seq<real>>>, len: nat) returns (out: array3<real>)
    requires layer.Valid() && IsTensor3(input, 1, len, layer.inFeatures)
    ensures fresh(out)
    ensures out.Length0 == 1 && out.Length1 == len && out.Length2 == layer.outFeatures
    ensures forall i, j :: 0 <= i < len && 0 <= j < layer.outFeatures ==>
      out[0, i, j] == QuantizedLinear(layer, input, len)[0][i][j] + BiasAt(layer.bias, j)
  {
    var q := ActivationQuantTrue(input, 1, len, layer.inFeatures, layer.inputBits);
    var wq := WeightQuantTrue(layer.weight, layer.outFeatures, layer.inFeatures, layer.weightBits);
    var weightT := [Transpose(wq.codes, layer.outFeatures, layer.inFeatures)];
    var g := BatchedLowBitGemm(q.codes, q.scale, weightT, wq.scale, 1, len, layer.inFeatures, layer.outFeatures);
    out := new real[1, len, layer.outFeatures]((b: nat, i: nat, j: nat) requires b < 1 && i < len && j < layer.outFeatures => g[b][i][j]);
    if layer.bias.Some? {
      AddBias(out, layer.bias.value);
    }
  }

  /**
   * The forward pass on codes equals the fake-quantized linear layer:
   * `bmm(activation_quant(input), weight_quant(weight).T.unsqueeze(0))`.
   * Quantizing to integer codes and rescaling once after the GEMM gives
   * exactly the product of the dequantized tensors.
   */
  lemma QuantizedLinearIsFakeQuantLinear(layer: BitLinear, input: seq<seq<seq<real>>>, len: nat)
    requires layer.Valid() && IsTensor3(input, 1, len, layer.inFeatures)
    ensures QuantizedLinear(layer, input, len)
         == RealBmm(ActivationQuant(input, 1, len, layer.inFeatures, layer.inputBits),
                    [Transpose(WeightQuant(layer.weight, layer.outFeatures, layer.inFeatures, layer.weightBits), layer.outFeatures, layer.inFeatures)],
                    1, len, layer.inFeatures, layer.outFeatures)
  {
    var inF, outF := layer.inFeatures, layer.outFeatures;
    var q := ActivationQuantTrue(input, 1, len, inF, layer.inputBits);
    var wq := WeightQuantTrue(layer.weight, outF, inF, layer.weightBits);
    var weightT := [Transpose(wq.codes, outF, inF)];
    BatchedLowBitGemmIsDequantizedBmm(q.codes, q.scale, weightT, wq.scale, 1, len, inF, outF);

    var xq := ActivationQuant(input, 1, len, inF, layer.inputBits);
    var xd := DequantizeActivation(q.codes, q.scale, 1, len, inF);
    ActivationQuantIsDequantizedTrue(input, 1, len, inF, layer.inputBits);
    forall i | 0 <= i < len
      ensures xd[0][i] == xq[0][i]
    {
    }
    assert xd[0] == xq[0];
    assert xd == xq;

    var wf := [Transpose(WeightQuant(layer.weight, outF, inF, layer.weightBits), outF, inF)];
    var wd := DequantizeWeights(weightT, wq.scale, 1, inF, outF);
    WeightQuantIsDequantizedTrue(layer.weight, outF, inF, layer.weightBits);
    var deq := DequantizeWeight(wq, outF, inF);
    forall k | 0 <= k < inF
      ensures wd[0][k] == wf[0][k]
    {
      forall j | 0 <= j < outF
        ensures wd[0][k][j] == wf[0][k][j]
      {
        assert wf[0][k][j] == deq[j][k];
      }
    }
    assert wd[0] == wf[0];
    assert wd == wf;
  }

  /**
   * The weight the forward pass hands to the kernels holds ternary codes
   * only, so on it the multiplication-free kernel (`MulFreeGemm`) agrees with
   * the fast one element by element.
   */
  lemma ForwardWeightIsTernary(layer: BitLinear)
    requires layer.Valid()
    ensures IsTernaryMatrix(Transpose(WeightQuantTrue(layer.weight, layer.outFeatures, layer.inFeatures, layer.weightBits).codes,
                                      layer.outFeatures, layer.inFeatures))
  {
    var wq := WeightQuantTrue(layer.weight, layer.outFeatures, layer.inFeatures, layer.weightBits);
    var t := Transpose(wq.codes, layer.outFeatures, layer.inFeatures);
    forall k, j | 0 <= k < |t| && 0 <= j < |t[k]|
      ensures t[k][j] in {-1, 0, 1}
    {
      assert t[k][j] == wq.codes[j][k];
    }
  }
}
