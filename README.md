# BitNet low-bit linear layer and checkpoint reader, in Dafny

This project models two parts of a small BitNet end-to-end pipeline.

**The quantized linear primitive** (`torch/utils_quant.py`):

- the weight quantizer, which gives ternary codes and one scale per tensor;
- the activation quantizer, which gives signed `num_bits` codes and one scale per row;
- their "fake" forms, which return the codes already divided by the scale;
- the two GEMM kernels that multiply codes and rescale. One kernel multiplies; the other adds or subtracts activations according to the ternary code;
- `BitLinear.forward`, which connects these and adds an optional bias.

**The checkpoint reader** (`test.py`, `read_model_from_bin`). It decodes a stream of length-prefixed records into two dictionaries. The first holds float parameters. The second holds quantized parameters (a scale plus packed bytes). The layout of a record is chosen by a substring rule on its name.

Modules:

- `Wrappers`: `Option` and `Result`.
- `Tensors`: shapes, columns, transposition, integer and real dot products, and dequantization.
- `Quantizer`: the weight and activation quantizers. `torch.round` is modelled exactly: nearest integer, ties to even.
- `LowBitGemm`: both kernels. The fast kernel is a function over sequences. The multiplication-free kernel is a method with the source's triple loop, updating a 3-D array in place.
- `BitLinearLayer`: the layer as a datatype. `Forward` is a method that builds the output array and adds the bias in place.
- `Checkpoint`: the byte-level parser.
  - `ParseFrom` and `ReadModel` are the specification functions.
  - `ReadModelFromBin` is the imperative loop: a cursor plus two maps updated by assignment, proved equal to `ReadModel`.
  - A writer `Encode` is included, with a proved round trip.

Tensor elements and scales are mathematical reals. Codes are unbounded integers, with their int8 range proved. Bytes are integers in `[0, 256)`.

## Model

| member | source | states |
|---|---|---|
| `Quantizer.Round` | torch/utils_quant.py:19 | `round` gives an integer within 1/2 of its argument; a tie goes to the even neighbour; an integer is left unchanged |
| `Quantizer.WeightScale` | torch/utils_quant.py:18 | the weight scale `1 / max(mean abs w, 1e-5)` is strictly positive and at most 1e5 |
| `Quantizer.SumAbsZero` | torch/utils_quant.py:18 | the sum of magnitudes is zero if and only if every weight is zero (the clamp is what keeps the all-zero weight from dividing by zero) |
| `Quantizer.TernaryCode` | torch/utils_quant.py:19 | `round(y).clamp(-1, 1)` is in {-1, 0, 1}; it is 1 exactly when y > 1/2 and -1 exactly when y < -1/2 |
| `Quantizer.TernaryCodes` | torch/utils_quant.py:19 | over the whole matrix, every code is in {-1, 0, 1}; it is 1 exactly where the scaled weight exceeds 1/2 and -1 exactly where it is below -1/2 |
| `Quantizer.WeightQuantTrue` | torch/utils_quant.py:15-20 | `weight_quant_true` returns a code matrix of the weight's shape with every code in {-1, 0, 1}, the threshold rule for 1 and -1 in both directions, and a scale in (0, 1e5] |
| `Quantizer.WeightQuantOfZero` | torch/utils_quant.py:18-19 | an all-zero weight gets scale 1e5 and all-zero codes, with no division fault |
| `Quantizer.DequantizeWeight` | torch/utils_quant.py:12 | each dequantized weight times the scale gives back its code |
| `Quantizer.SumAbsRowZero` | torch/utils_quant.py:18 | a row's sum of magnitudes is zero if and only if every element of the row is zero |
| `Quantizer.WeightQuant` | torch/utils_quant.py:6-13 | `weight_quant` returns a matrix of the weight's shape; `WeightQuantIsDequantizedTrue` gives its values |
| `Quantizer.WeightQuantIsDequantizedTrue` | torch/utils_quant.py:6-20 | `weight_quant(w)` equals `weight_quant_true(w)`'s codes divided by its scale |
| `Quantizer.MaxAbs` | torch/utils_quant.py:39 | the row maximum of magnitudes bounds every element's magnitude and is attained by some element |
| `Quantizer.RowScale` | torch/utils_quant.py:37-39 | the row scale `Qp / max(max abs x, 1e-5)` is non-negative, and positive once `num_bits >= 2` |
| `Quantizer.Clamp` | torch/utils_quant.py:40 | `clamp(lo, hi)` stays in `[lo, hi]` and leaves a value already in range unchanged |
| `Quantizer.RowCodes` | torch/utils_quant.py:40 | every code of a row lies in `[Qn, Qp]`, and a rounded scaled value already in that range is kept unchanged by the clamp |
| `Quantizer.ActivationQuantTrue` | torch/utils_quant.py:34-42 | `activation_quant_true` returns codes of the input's shape in `[Qn, Qp]`, hence in int8 for `num_bits <= 8`; the scale has shape `[batch, len, 1]`, and each row's scale and codes depend on that row alone |
| `Quantizer.Pow2Monotone` | torch/utils_quant.py:37-38 | `2^n` grows with `n`; this is the step that puts `Qn` and `Qp` for `num_bits <= 8` inside `[-128, 127]` |
| `Quantizer.ActivationQuantRow` | torch/utils_quant.py:28-30 | `activation_quant` on one row returns one value per element |
| `Quantizer.ActivationQuant` | torch/utils_quant.py:23-32 | `activation_quant` returns a tensor of the input's shape; `ActivationQuantIsDequantizedTrue` gives its values |
| `Quantizer.ActivationQuantIsDequantizedTrue` | torch/utils_quant.py:23-42 | `activation_quant(x)` equals `activation_quant_true(x)`'s codes divided by each row's scale |
| `Quantizer.ScaledWithinRange` | torch/utils_quant.py:39-40 | a magnitude no larger than the clamped row maximum, once scaled, is no larger than `Qp` |
| `Quantizer.ScaledMaximum` | torch/utils_quant.py:39-40 | the element of largest magnitude scales exactly to `Qp` or `-Qp` |
| `Quantizer.RowCodesUnclipped` | torch/utils_quant.py:37-40 | the clamp never cuts an activation code: each code is the plain rounded value, and it lies in `[-Qp, Qp]` |
| `Quantizer.RowCodesReachQp` | torch/utils_quant.py:39-40 | when the row maximum is at least 1e-5, the element that attains it is coded `Qp` or `-Qp` |
| `Quantizer.DequantizedRowOnGrid` | torch/utils_quant.py:28-30 | each fake-quantized activation, scaled again, is its code exactly; its magnitude stays within the clamped row maximum, and equals it at the maximum |
| `Quantizer.QuotientBound` | torch/utils_quant.py:28-30 | dividing a code by the row scale and scaling again gives back the code, and keeps it within the clamped maximum |
| `Quantizer.DequantizedRowKeepsScale` | torch/utils_quant.py:28-30 | quantizing a row leaves its scale unchanged |
| `Quantizer.ActivationQuantRowIdempotent` | torch/utils_quant.py:23-32 | activation fake quantization of a row is idempotent |
| `Quantizer.ActivationQuantIdempotent` | torch/utils_quant.py:23-32 | activation fake quantization of a whole tensor is idempotent |
| `Quantizer.ActivationQuantError` | torch/utils_quant.py:28-30 | each fake-quantized activation is within half a step, `0.5 / s`, of the original |
| `Quantizer.RoundingErrorScaled` | torch/utils_quant.py:29-30 | a value rounded on the scaled grid and divided back is within `0.5 / s` of the original |
| `Tensors.TransposeTwice` | torch/utils_quant.py:145 | `.T` is an involution: transposing the `[out, in]` weight and transposing back gives the original matrix |
| `Tensors.ColumnOfTranspose` | torch/utils_quant.py:145 | column `j` of a matrix, as a kernel reads it, is row `j` of its transpose, for every `j` below the column count |
| `Tensors.Dequantize` | torch/utils_quant.py:12 | a dequantized vector has one value per code, and each value times the scale gives back its code |
| `Tensors.RealDotOfDequantized` | torch/utils_quant.py:65-71 | the dot product of two dequantized vectors equals the integer dot product of their codes over the product of the scales |
| `Tensors.QuotientTwice` | torch/utils_quant.py:105 | dividing by one scale and then the other equals dividing once by their product |
| `LowBitGemm.BatchedLowBitGemm` | torch/utils_quant.py:46-73 | `batched_low_bit_gemm` has shape `[batch, len, out]`; element `[b][i][j]` is the integer dot product of activation row `i` and weight column `j`, over `act_s[b][i] * weight_s` |
| `LowBitGemm.BatchedLowBitGemmIsDequantizedBmm` | torch/utils_quant.py:63-71 | the fast kernel equals `bmm` of the dequantized activations and dequantized weights |
| `LowBitGemm.GemmCellIsDequantizedDot` | torch/utils_quant.py:65-71 | one element of the fast kernel equals the real dot product of the dequantized row and column |
| `LowBitGemm.MulFreeSumIsDot` | torch/utils_quant.py:98-103 | on ternary codes, accumulating by add on 1, subtract on -1 and skip on 0 gives the integer dot product |
| `LowBitGemm.SumsOfSingleEntry` | torch/utils_quant.py:98-103 | against a row that is zero except at one index, both accumulations see only that index |
| `LowBitGemm.MulFreeSumAgreesIffTernary` | torch/utils_quant.py:98-103 | the conditional accumulation equals the dot product for every activation row if and only if every weight code is in {-1, 0, 1} |
| `LowBitGemm.AccumulateCell` | torch/utils_quant.py:98-103 | the `k` loop leaves output element `(i, j)` equal to the conditional accumulation, starting from 0, and changes no other element |
| `LowBitGemm.MulFreeGemm` | torch/utils_quant.py:93-105 | the multiplication-free kernel, with the batch fixed to 1 and the output of shape `[1, len, out]`, sets each element to the accumulation divided by `act_s`, then by `weight_s`; on ternary weight codes every element equals the fast kernel's |
| `LowBitGemm.MulFreeCellIsGemmCell` | torch/utils_quant.py:96-105 | on a ternary column, a multiplication-free element equals the fast kernel's element |
| `LowBitGemm.MulFreeGemmAsWritten` | torch/utils_quant.py:93-97 | as written, the kernel succeeds if and only if the sequence is empty or `out <= dim`; when it succeeds, the output has `dim` columns |
| `LowBitGemm.MulFreeGemmAsWrittenAgreesOnlyWhenSquare` | torch/utils_quant.py:93-105 | as written, on ternary codes and a non-empty sequence, the kernel returns the fast kernel's result if and only if the weight is square |
| `BitLinearLayer.QuantizedLinear` | torch/utils_quant.py:143-149 | the GEMM part of `forward` has shape `[1, len, out_features]` |
| `BitLinearLayer.AddBias` | torch/utils_quant.py:162-163 | every element of the output gains the bias at its column; the shape is unchanged |
| `BitLinearLayer.Forward` | torch/utils_quant.py:132-165 | `forward` returns a fresh `[1, len, out_features]` array whose element `(i, j)` is the fast kernel's element plus `bias[j]` (plus nothing without a bias) |
| `BitLinearLayer.QuantizedLinearIsFakeQuantLinear` | torch/utils_quant.py:134-149 | the forward pass on codes equals `bmm` of the fake-quantized input and the transposed fake-quantized weight |
| `BitLinearLayer.ForwardWeightIsTernary` | torch/utils_quant.py:144-145 | the transposed weight codes given to the kernel are all in {-1, 0, 1}, which is the condition under which the two kernels agree |
| `Checkpoint.Read` | test.py:13 | `f.read(n)` yields `min(n, remaining)` bytes |
| `Checkpoint.LittleEndianOfBytes` | test.py:16 | `k` little-endian bytes written for a value below `256^k` read back as that value |
| `Checkpoint.LE32OfBytes` | test.py:16 | the 4 bytes written for a 32-bit length read back as that length |
| `Checkpoint.EmbeddedMarkerIsQuantized` | test.py:19 | any name that embeds one of the seven projection fragments takes the quantized layout |
| `Checkpoint.ShortNameIsFloat` | test.py:19 | a name shorter than six bytes takes the float layout |
| `Checkpoint.Words` | test.py:30 | a payload of `4n` bytes is cut into `n` elements |
| `Checkpoint.WordsElements` | test.py:30 | element `i` of a float payload is its `i`-th run of four bytes |
| `Checkpoint.ParseQuantized` | test.py:22-24 | a quantized body that reads cleanly consumes at least the 8 bytes of scale and size, and stays within the data |
| `Checkpoint.ParseFloat` | test.py:29-30 | a float body that reads cleanly consumes at least its 4-byte count, and stays within the data |
| `Checkpoint.ParseBody` | test.py:19-30 | the body's layout is quantized if and only if the name is a quantized name |
| `Checkpoint.ParseRecord` | test.py:13-30 | 1 to 3 bytes left at a record start is an error; a record that reads cleanly advances the cursor by at least 4 bytes, within the data, and takes the quantized layout if and only if its name contains a marker |
| `Checkpoint.ParseRecordNameIsExact` | test.py:13-18 | a record that reads cleanly has a name of exactly the length its field gives |
| `Checkpoint.ParseQuantizedLayout` | test.py:22-24 | the quantized layout fails on a short scale or size field; otherwise it yields the next 4 bytes as the scale, then `data_size` packed bytes (cut short only by the end of the data), and moves the cursor past exactly those bytes |
| `Checkpoint.ParseFloatLayout` | test.py:29-30 | the size field counts 4-byte elements: a complete payload yields `count` elements at the cursor `4 + 4 * count` on; a short one yields its whole elements, or fails if it ends inside one |
| `Checkpoint.Store` | test.py:25-31 | a record is bound under its name in the dictionary its layout selects, replacing any earlier entry, and the other dictionary is unchanged |
| `Checkpoint.ParseFromStep` | test.py:12-32 | a record that reads cleanly is stored, and the loop continues right after it |
| `Checkpoint.ParseFromError` | test.py:12-32 | a record that fails to read ends the whole read with its error |
| `Checkpoint.ReadQuantized` | test.py:21-24 | the reads of the quantized branch compute exactly `ParseQuantized` |
| `Checkpoint.ReadFloat` | test.py:28-30 | the reads of the float branch compute exactly `ParseFloat` |
| `Checkpoint.ReadRecord` | test.py:13-30 | the reads of one loop iteration compute exactly `ParseRecord` |
| `Checkpoint.ReadModelFromBin` | test.py:8-34 | the imperative loop, with a cursor and two maps updated in place, returns exactly `ReadModel(data)` |
| `Checkpoint.ReadModelWellClassified` | test.py:19-31 | after a clean read, every quantized entry has a quantized name and every float entry does not, so no name is in both dictionaries |
| `Checkpoint.ParseFromWellClassified` | test.py:12-32 | the record loop keeps every name in the dictionary its layout selects |
| `Checkpoint.WordsOfFlatten` | test.py:30 | cutting the concatenated 4-byte elements back into words gives the elements |
| `Checkpoint.ReadThreeParts` | test.py:13-30 | reads of `a` and then `b` from a slice holding `a + b + c` yield exactly `a`, then `b`, with `c` after them |
| `Checkpoint.ParseQuantizedOfEncoded` | test.py:22-24 | a written quantized body reads back as itself |
| `Checkpoint.ParseFloatOfEncoded` | test.py:29-30 | a written float body reads back as its elements |
| `Checkpoint.ParseBodyOfEncoded` | test.py:19-30 | a written body reads back in the layout its name selects |
| `Checkpoint.ParseRecordOfEncoded` | test.py:13-30 | a written record reads back as itself, and the cursor lands just after it |
| `Checkpoint.ParseFirstOfEncoded` | test.py:12-32 | the first of the written records reads back, and the bytes of the rest follow it |
| `Checkpoint.ParseFromOfReadsAs` | test.py:12-32 | records that the loop reads one after another up to the end are stored in order |
| `Checkpoint.ReadsAsOfEncode` | test.py:12-32 | written records are read back one after another up to the end of the data |
| `Checkpoint.ReadModelOfEncode` | test.py:8-34 | round trip: a checkpoint written record by record reads back as the dictionaries those records fill in order; the loop stops exactly at the end, and a later record under a repeated name replaces an earlier one |

## Left out

- Dtype casts and device moves are not modelled: `.float()`, `.half()`, `.type(dtype)`, `.to(torch.int8)`, `.to("cpu")`, `.to("cuda")`. Elements are reals, so IEEE rounding, float16 output and float32 accumulation are not captured.
- The live `breakpoint()` in `forward` (torch/utils_quant.py:151) is not modelled, and neither are the commented-out debugging lines.
- `BitLinearLayer.Forward` does not model the discarded `out_c` call to the multiplication-free kernel (torch/utils_quant.py:150). As written, that call raises when `out_features > in_features` and the input is non-empty; `LowBitGemm.MulFreeGemmAsWritten` states when this happens.
- `BitLinearLayer.Forward` requires a batch of 1. `torch.bmm` with the `[1, in, out]` weight admits no other batch.
- `LowBitGemm.MulFreeGemm` requires batch 1. The source asserts this (torch/utils_quant.py:94) and fails otherwise.
- `nn.Linear` parameter construction and initialisation are not modelled. The layer is a value holding its weight, optional bias and bit widths.
- Both weight quantizers require a non-empty weight. An empty tensor's mean is NaN, and NaN is not modelled.
- Both activation quantizers require a non-empty last dimension. `max` over an empty dimension raises in torch.
- `Quantizer.ActivationQuantTrue` requires `1 <= num_bits <= 8`. Only in that range is the int8 cast exact. Wider codes would wrap, and that wrap-around is not modelled.
- The fake activation quantizer requires `num_bits >= 2`. With `num_bits = 1`, `Qp` is 0, so the scale is 0 and `result / s` is NaN.
- The GEMM kernels require non-zero scales. The quantizers produce such scales for `num_bits >= 2`; a zero scale would give infinities, which are not modelled.
- `BitLinearLayer.Forward` requires `2 <= input_bits <= 8`. With `input_bits = 1`, `Qp` is 0, so the row scale is 0 and the source divides 0 by 0, giving NaN, which is not modelled. With `input_bits > 8`, the int8 cast of the activation codes wraps, and that wrap-around is not modelled.
- `weight_bits` is accepted and ignored, as in the source: weights are always ternary.
- No lemma states that weight fake quantization is idempotent, because it is not. Re-quantizing changes the mean magnitude and therefore the scale.
- No lemma states an error bound for weight fake quantization. Weight codes are clipped to [-1, 1], so the half-step bound that holds for activations fails for weights larger than 1.5 / s.
- Checkpoint names are kept as bytes. UTF-8 decoding, and its failure on invalid UTF-8, is not modelled; the marker search is a byte-substring search.
- The 4-byte scale and the float payload elements are kept as opaque 4-byte words, with no IEEE interpretation.
- `struct.unpack('I', ...)` uses native byte order. The model fixes it to little-endian.
- File handles and `print` are not modelled. The checkpoint is a byte sequence given as a parameter.
- The module-level call `read_model_from_bin("model.bin")` (test.py:36) is not modelled.

## Findings

| source | as written | input that shows it | evidently intended | confidence | as-written member | corrected member |
|---|---|---|---|---|---|---|
| torch/utils_quant.py:93-97 | the output is allocated with `weight.shape[1]` columns (input features), but `j` runs over `weight.shape[2]` (output features) | a non-empty input with a `[1, 2, 3]` weight (more outputs than inputs) raises an index error at `j = 2`; with a `[1, 3, 2]` weight the result has 3 columns, the last one left 0 | allocate `weight.shape[2]` columns, so that the result has the fast kernel's shape and values | not executed | `LowBitGemm.MulFreeGemmAsWrittenAgreesOnlyWhenSquare` | `LowBitGemm.MulFreeGemm` |
