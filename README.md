# ORT-format round-trip checker and softmax cross-entropy kernels

This project models two pieces of ONNX Runtime in Dafny and proves properties of the models.

**The structural equality checker of the ORT-format round-trip test** (`ort_model_compare.dfy`, module `OrtModelCompare`). The test compares two inference sessions: one built from an ONNX model and one reloaded from its ORT-format serialisation. It compares four things:
- the initialized tensors, by name;
- the value infos (name, doc string, type) of every graph input, initializers included, by name;
- the outputs of every node, by node index;
- type descriptors, recursively through sequence and map nesting.

Sparse-tensor, opaque and unset type variants always fail. Each comparison returns `Pass` or `Fail(m)`, where `m` names the first mismatch in the order the test performs its checks.

**The shape, index and reduction logic of the softmax cross-entropy kernels** (`cross_entropy.dfy`, module `CrossEntropy`). These are `SoftmaxCrossEntropy`, `SoftmaxCrossEntropyGrad`, `SoftmaxCrossEntropyLoss` and `SoftmaxCrossEntropyLossGrad`:
- **Shape checks:** each `ORT_ENFORCE` check becomes an error value.
- **N and D:** the batch size N and class count D are derived from the shapes, including the `{0, 2, 1}` transpose of rank-3 logits.
- **Log-softmax:** the row-wise max, shift, exp, sum, log and shift of `ComputeShareSoftmaxCrossEntropyCPU`.
- **Loss:** the per-sample loss is gathered at flat index `i*d + label[i]`, optionally weighted by class.
- **Reductions:** MEAN divides by N or by the applied weight sum, SUM does not divide, and NONE keeps the per-sample values.
- **Gradient:** the nested `i`/`j` gradient loops, with the label indicator and the per-sample weight.

Element values are `real`. `exp` and `log` are function parameters, and nothing proved depends on what they compute. A float quotient by zero is the value `NonFinite`.

The source's loops and step-by-step checks are methods:
- `CompareTensors`, `CompareInitializers`, `CompareInputs`, `CompareOutputs`, `CompareNodes` and `CompareGraphAndSessionState` return an outcome. Their loops carry invariants, and each outcome is proved to pass exactly when a predicate over the two sessions holds. `CompareGraphAndSessionState` has no loop of its own: it runs the other stages in order.
- `CheckLossShapes` and `CheckLossGradShapes` return the first shape error, proved against the shape predicates.
- `GatherWeightedLosses`, `GatherLosses` and `FillGradient` write a fresh array, proved equal to a specification function.

The properties of those predicates and specification functions are then proved as lemmas.

The forward loss reads its weight by class (`weight[label[i]]`), while the gradient reads a weight of the label's shape by sample (`weight[i]`). Both are modelled as written. `GatheredWeightsNormaliseAlike` shows that gathering the class weights per sample gives the gradient's MEAN the forward loss's divisor.

`flat_index.dfy` (module `FlatIndex`) holds the row-major index arithmetic the kernels rely on. `results.dfy` (module `Results`) holds `Option` and `Result`. `tensor_shape.dfy` (module `TensorShapes`) holds the shape type and its element count, which both parts use.

## Model

| member | source | states |
|---|---|---|
| OrtModelCompare.CompareTensors | onnxruntime/test/framework/ort_model_only_test.cc:64-82 | passes exactly when the two tensors are equal; fails with ShapeMismatch exactly when the dims differ, and with ElemTypeMismatch exactly when the dims agree and the element types differ; a string mismatch is the first differing element; a raw-data mismatch means the bytes differ |
| OrtModelCompare.ElemWidth | onnxruntime/test/framework/ort_model_only_test.cc:80 | the element width is non-zero exactly for the fixed-size element type codes (1 to 16 except string), and is then 1, 2, 4, 8 or 16 bytes |
| OrtModelCompare.SizeInBytes | onnxruntime/test/framework/ort_model_only_test.cc:80 | the byte count of a fixed-size tensor is a whole number of elements: divided by the element width it gives the element count |
| OrtModelCompare.DimsAgreeIsEquality | onnxruntime/test/framework/ort_model_only_test.cc:104-107 | the four per-dimension checks (has value, value, has param, param) hold exactly when the dimensions are equal |
| OrtModelCompare.FirstDimMismatch | onnxruntime/test/framework/ort_model_only_test.cc:101-108 | the index returned is the first whose dimensions disagree; every earlier index agrees; none means all agree |
| OrtModelCompare.AgreeingShapesAreEqual | onnxruntime/test/framework/ort_model_only_test.cc:100-108 | equal-rank shapes that agree dimension by dimension are equal |
| OrtModelCompare.CompareTypes | onnxruntime/test/framework/ort_model_only_test.cc:84-119 | a pass implies both descriptors are equal and built only from tensor, sequence and map variants |
| OrtModelCompare.CompareTypesComplete | onnxruntime/test/framework/ort_model_only_test.cc:91-115 | a supported descriptor compares equal to itself |
| OrtModelCompare.CompareTypesIsEquality | onnxruntime/test/framework/ort_model_only_test.cc:84-119 | pass iff supported and equal; self-comparison passes iff supported; the result is symmetric; different denotations fail; disagreeing variant flags fail; a variant other than tensor, sequence or map fails even against itself |
| OrtModelCompare.TensorTypesCompare | onnxruntime/test/framework/ort_model_only_test.cc:91-108 | two tensor types compare equal iff the element types are equal, the ranks are equal and every dimension pair agrees on all four fields |
| OrtModelCompare.NestedMismatchIsLocated | onnxruntime/test/framework/ort_model_only_test.cc:109-115 | under any finite nesting of sequences and maps, the comparison gives the result of the innermost comparison, with the mismatch reported along its path |
| OrtModelCompare.CompareValueInfos | onnxruntime/test/framework/ort_model_only_test.cc:121-126 | a pass implies the value infos are equal and their type is supported |
| OrtModelCompare.ValueInfosMatchIsEquality | onnxruntime/test/framework/ort_model_only_test.cc:121-126 | pass iff name, doc string and type all compare equal, iff the infos are equal with a supported type |
| OrtModelCompare.InitializersMatchIsEquality | onnxruntime/test/framework/ort_model_only_test.cc:136-147 | equal sizes plus every key of the first map found, with an equal tensor, in the second: the key sets are identical and the maps are equal |
| OrtModelCompare.CompareInitializers | onnxruntime/test/framework/ort_model_only_test.cc:136-147 | passes iff the sizes agree and every initializer of the first map appears in the second with an equal tensor; fails with the count mismatch iff the sizes differ; a missing or differing initializer is named |
| OrtModelCompare.CompareInputs | onnxruntime/test/framework/ort_model_only_test.cc:149-158 | passes iff every input of the first graph, initializers included, exists by name in the second with a value info that compares equal; a missing input is named |
| OrtModelCompare.CompareOutputs | onnxruntime/test/framework/ort_model_only_test.cc:167-177 | passes iff every slot matches: a present left output needs an equal name and an equal value info on the right, an absent one needs an absent right output |
| OrtModelCompare.CompareNodes | onnxruntime/test/framework/ort_model_only_test.cc:160-178 | passes iff every node of the first graph has a node at its index in the second, with as many outputs, slot by slot matching; a missing node is reported with its index |
| OrtModelCompare.CompareGraphAndSessionState | onnxruntime/test/framework/ort_model_only_test.cc:128-179 | passes iff initializers, inputs and node outputs all match; fails at the initializer stage iff the initializers differ, otherwise at the input stage iff an input differs, otherwise only at the node stage |
| OrtModelCompare.OutputMatchesIsIdentity | onnxruntime/test/framework/ort_model_only_test.cc:171-176 | an output slot matches iff a present left output has the same value info, of a supported type, on the right, and an absent left output has an absent right one; nothing requires the right output to exist when the left one does |
| OrtModelCompare.SessionsMatchMeaning | onnxruntime/test/framework/ort_model_only_test.cc:128-179 | a passing check means: equal initializer maps, the same value info for every input, and node for node, a present left output has the same value info on the right and an absent left output has an absent right one |
| OrtModelCompare.WellNamedOutputMatches | onnxruntime/test/framework/ort_model_only_test.cc:171-176 | when each side's existence is tied to a non-empty name, a slot matches iff both exist or both are absent, and present slots carry the same supported value info |
| OrtModelCompare.WellNamedSessionsMatchMeaning | onnxruntime/test/framework/ort_model_only_test.cc:128-179 | when both graphs tie existence to a non-empty name, a passing check means equal initializer maps, equal input infos, and node for node the same absences and the same infos for present outputs |
| OrtModelCompare.PresentOutputMayFaceAbsentOne | onnxruntime/test/framework/ort_model_only_test.cc:171-176 | a present left output passes against an absent right one with the same info, so equal absences need names tied to existence |
| OrtModelCompare.SelfComparisonFailsClosed | onnxruntime/test/framework/ort_model_only_test.cc:116-117 | a session compared with itself passes iff no input and no present node output has a sparse-tensor, opaque or unset type anywhere in its nesting |
| OrtModelCompare.ComparisonIsOneDirectional | onnxruntime/test/framework/ort_model_only_test.cc:160-162 | a node only the second session has goes unnoticed, while the same node only in the first session fails the check |
| CrossEntropy.SizeSplitsAtLastDim | orttraining/orttraining/training_ops/cpu/loss/cross_entropy.cc:71-75 | N, the product of all dimensions but the last, times D, the last dimension, is the element count |
| CrossEntropy.SizeToDimension | orttraining/orttraining/training_ops/cpu/loss/cross_entropy.cc:71 | the product of the first k dimensions times the product of the rest is the element count |
| CrossEntropy.RowwiseMax | orttraining/orttraining/training_ops/cpu/loss/cross_entropy.cc:27-28 | one value per row; it is at least every entry of its row and, for a non-empty row, is one of them |
| CrossEntropy.SubToCol | orttraining/orttraining/training_ops/cpu/loss/cross_entropy.cc:33-34 | the subtraction of one value per row keeps the n * d entries (entry (i, j) is stated by SubToColAt) |
| CrossEntropy.Apply | orttraining/orttraining/training_ops/cpu/loss/cross_entropy.cc:37 | an elementwise function keeps the element count |
| CrossEntropy.RowwiseSum | orttraining/orttraining/training_ops/cpu/loss/cross_entropy.cc:40-41 | one sum per row |
| CrossEntropy.ComputeShareSoftmaxCrossEntropy | orttraining/orttraining/training_ops/cpu/loss/cross_entropy.cc:18-51 | the log-probabilities have the logits' n * d entries |
| CrossEntropy.Mul | orttraining/orttraining/training_ops/cpu/loss/cross_entropy.cc:96 | one product per element pair; an entry is zero exactly when one of its factors is |
| CrossEntropy.SumOfConcat | orttraining/orttraining/training_ops/cpu/loss/cross_entropy.cc:99 | the sum of a concatenation is the sum of the two sums |
| CrossEntropy.SumOfNonNegative | orttraining/orttraining/training_ops/cpu/loss/cross_entropy.cc:99 | a sum of non-negative terms is non-negative |
| CrossEntropy.ShiftedLogitsMaxIsZero | orttraining/orttraining/training_ops/cpu/loss/cross_entropy.cc:27-34 | each row of the shifted logits is the logit row minus the row maximum, and (for d > 0) its own maximum is 0 |
| CrossEntropy.LogProbIsLogitMinusLogSumExp | orttraining/orttraining/training_ops/cpu/loss/cross_entropy.cc:18-51 | every log-probability is its logit minus the stable log-sum-exp of its row |
| CrossEntropy.LogProbRowOffsets | orttraining/orttraining/training_ops/cpu/loss/cross_entropy.cc:18-51 | within a row, log-probabilities differ exactly by what their logits differ by |
| CrossEntropy.SoftmaxCrossEntropy | orttraining/orttraining/training_ops/cpu/loss/cross_entropy.cc:61-108 | fails with LabelShapeNotIdentical iff the label shape differs from the logit shape; otherwise a scalar loss and log-probabilities of the logit's shape and size |
| CrossEntropy.DenseLoss | orttraining/orttraining/training_ops/cpu/loss/cross_entropy.cc:101-105 | the loss is finite unless MEAN divides by N = 0; under MEAN it times N is the negated summed product; under SUM it is the negated sum; under NONE it is the summed product itself, not negated |
| CrossEntropy.SoftmaxCrossEntropyGrad | orttraining/orttraining/training_ops/cpu/loss/cross_entropy.cc:118-158 | fails with LabelShapeNotIdentical exactly when the label shape differs from the probability shape, whatever dY and the reduction; otherwise a gradient of the probability's shape and size |
| CrossEntropy.Sub | orttraining/orttraining/training_ops/cpu/loss/cross_entropy.cc:145 | one difference per element pair; each difference plus the subtrahend gives back the minuend |
| CrossEntropy.Scale | orttraining/orttraining/training_ops/cpu/loss/cross_entropy.cc:155 | one product per element; each is finite exactly when the scalar is |
| CrossEntropy.OneHotForwardAgreement | orttraining/orttraining/training_ops/cpu/loss/cross_entropy.cc:94-105 | for logits of shape label_shape + [D], of any rank, and one-hot labels, the dense kernel's loss under MEAN and SUM equals the sparse kernel's reduced per-sample loss, with the same log-probabilities |
| CrossEntropy.Rank2WorkingLogits | orttraining/orttraining/training_ops/cpu/loss/cross_entropy.cc:195-211 | for a rank-2 logit the index-label kernel works on the logit as it is, so there both kernels compute log-probabilities from the same buffer |
| CrossEntropy.OneHotPicksLabelledClass | orttraining/orttraining/training_ops/cpu/loss/cross_entropy.cc:96-99 | summing one-hot labels times log-probabilities gives the negated sum of the log-probabilities at the labelled classes |
| CrossEntropy.DenseLossReduces | orttraining/orttraining/training_ops/cpu/loss/cross_entropy.cc:99-105 | when the summed label-times-log-probability products are the negated sum of per-sample losses, the dense loss divided by -N under MEAN and negated under SUM is the sparse MEAN and SUM reduction of those losses |
| CrossEntropy.OneHotProductAt | orttraining/orttraining/training_ops/cpu/loss/cross_entropy.cc:96 | entry (i, j) of the one-hot labels times the log-probabilities is row i of the log-probabilities with every column but the label's zeroed, at j |
| CrossEntropy.OneHotGradientAgreement | orttraining/orttraining/training_ops/cpu/loss/cross_entropy.cc:141-155 | the dense gradient on one-hot labels equals the unweighted sparse gradient on the class indices, for MEAN and SUM |
| CrossEntropy.CheckLossShapes | orttraining/orttraining/training_ops/cpu/loss/cross_entropy.cc:181-191 | no error iff the rank is the label rank plus one, the first dimensions agree and label dimension i + 1 equals logit dimension i + 2; the rank error iff the ranks are wrong; the batch error iff only the first dimensions differ; a trailing mismatch is the first one; every error returned is the first error the checks meet |
| CrossEntropy.FirstLossShapeErrorUnique | orttraining/orttraining/training_ops/cpu/loss/cross_entropy.cc:181-191 | the first forward shape error is unique: two errors that both fit the check order are the same |
| CrossEntropy.InvalidLossShapesHaveFirstError | orttraining/orttraining/training_ops/cpu/loss/cross_entropy.cc:181-191 | every pair of shapes that breaks the forward contract has a first error in the check order |
| CrossEntropy.LossShapesValid | orttraining/orttraining/training_ops/cpu/loss/cross_entropy.cc:181-191 | when the forward shape contract holds, the logit rank is at least 2 and the logit element count is the label element count times logit dimension 1 |
| CrossEntropy.LossLayoutCounts | orttraining/orttraining/training_ops/cpu/loss/cross_entropy.cc:193-210 | under valid shapes of rank at most 3, both derivations give D = logit dimension 1 and N = the label's element count (s0 * s2 for rank 3), and N * D is the logit's element count |
| CrossEntropy.TransposeSource | orttraining/orttraining/training_ops/cpu/loss/cross_entropy.cc:203-206 | the input index read by every target index of the {0, 2, 1} transpose lies inside the input |
| CrossEntropy.TransposeSourceAt | orttraining/orttraining/training_ops/cpu/loss/cross_entropy.cc:203-206 | target position (a, c, b) of the transpose reads input position (a, b, c) |
| CrossEntropy.Transpose021 | orttraining/orttraining/training_ops/cpu/loss/cross_entropy.cc:203-208 | the transpose keeps the element count |
| CrossEntropy.TransposeAt | orttraining/orttraining/training_ops/cpu/loss/cross_entropy.cc:203-208 | entry (a, c, b) of the [s0, s2, s1] result is entry (a, b, c) of the [s0, s1, s2] logit |
| CrossEntropy.TransposedRowIsClassAxis | orttraining/orttraining/training_ops/cpu/loss/cross_entropy.cc:203-210 | row a * s2 + c of the transposed logits is the class axis of the logit at (a, ., c) |
| CrossEntropy.WorkingLogits | orttraining/orttraining/training_ops/cpu/loss/cross_entropy.cc:195-211 | the logits the loss works on have the logit's element count |
| CrossEntropy.WeightedSampleLoss | orttraining/orttraining/training_ops/cpu/loss/cross_entropy.cc:250-258 | for in-range labels, the gathered index i*d + label[i] and the weight index label[i] are in bounds, and the weighted sample loss is -log_prob[i*d + label[i]] * weight[label[i]] |
| CrossEntropy.SampleLoss | orttraining/orttraining/training_ops/cpu/loss/cross_entropy.cc:251 | a sample loss is non-negative when every log-probability is at most 0 and every class weight is non-negative |
| CrossEntropy.SampleLosses | orttraining/orttraining/training_ops/cpu/loss/cross_entropy.cc:250-275 | one loss per sample |
| CrossEntropy.AppliedWeightSum | orttraining/orttraining/training_ops/cpu/loss/cross_entropy.cc:252 | the accumulated weight is non-negative for non-negative class weights, and positive for positive weights and at least one sample |
| CrossEntropy.LossNormaliser | orttraining/orttraining/training_ops/cpu/loss/cross_entropy.cc:261-286 | the MEAN divisor is non-negative without weights or with non-negative weights, and positive for a non-empty batch without weights or with positive weights |
| CrossEntropy.ReducedLoss | orttraining/orttraining/training_ops/cpu/loss/cross_entropy.cc:261-286 | NONE keeps one loss per sample, SUM and MEAN give one; all are finite unless MEAN divides by zero |
| CrossEntropy.ReducedLossNonNegative | orttraining/orttraining/training_ops/cpu/loss/cross_entropy.cc:261-286 | non-negative per-sample losses give finite, non-negative loss outputs under NONE and SUM, and under MEAN with a positive divisor |
| CrossEntropy.LossOutputShape | orttraining/orttraining/training_ops/cpu/loss/cross_entropy.cc:216 | the corrected loss shape holds one entry per sample under NONE and one otherwise |
| CrossEntropy.LossOutputShapeAsWritten | orttraining/orttraining/training_ops/cpu/loss/cross_entropy.cc:216 | the loss shape as allocated holds label_shape[0] entries under NONE and one otherwise |
| CrossEntropy.SampleLossIsCrossEntropy | orttraining/orttraining/training_ops/cpu/loss/cross_entropy.cc:273-275 | the unweighted loss of sample i is the log-sum-exp of its logit row minus the logit of its labelled class |
| CrossEntropy.Rank3SampleLoss | orttraining/orttraining/training_ops/cpu/loss/cross_entropy.cc:200-232 | for rank-3 logits, the loss of sample (a, c) is the log-sum-exp of the class axis at (a, ., c) minus that axis's entry at the label |
| CrossEntropy.GatherWeightedLosses | orttraining/orttraining/training_ops/cpu/loss/cross_entropy.cc:247-259 | the loop writes the weighted per-sample losses; under MEAN it accumulates the sum of the labelled classes' weights, and otherwise it leaves that sum at 0 |
| CrossEntropy.GatherLosses | orttraining/orttraining/training_ops/cpu/loss/cross_entropy.cc:273-275 | the loop writes the unweighted per-sample losses |
| CrossEntropy.SoftmaxCrossEntropyLoss | orttraining/orttraining/training_ops/cpu/loss/cross_entropy.cc:174-289 | fails iff the shapes are invalid or a weight is not 1-D; with invalid shapes the error is the first shape error the checks meet, with valid shapes it is WeightNot1D; otherwise N * D is the logit count, the log-probabilities are the log-softmax of the working logits, and the loss is the per-sample losses reduced by NONE/SUM/MEAN with N or the applied weight sum as divisor, in an output of the corrected NONE shape |
| CrossEntropy.LossOutputShapesAgreeOnRank1 | orttraining/orttraining/training_ops/cpu/loss/cross_entropy.cc:216 | for labels of rank 1 the allocated loss shape is the per-sample shape |
| CrossEntropy.NoneLossOutputTooSmall | orttraining/orttraining/training_ops/cpu/loss/cross_entropy.cc:216 | logit [1, 3, 2] and label [1, 2] pass every shape check, yet under NONE the loss output is allocated with 1 element while the gather writes one per-sample loss per label, `Size(label shape)` = 2 in all (the length of `SampleLosses`) |
| CrossEntropy.UniformWeightsScaleLosses | orttraining/orttraining/training_ops/cpu/loss/cross_entropy.cc:250-258 | weights equal to c for every class scale each per-sample loss by c; unit weights change nothing |
| CrossEntropy.UniformAppliedWeightSum | orttraining/orttraining/training_ops/cpu/loss/cross_entropy.cc:250-253 | with every class weight c, the applied weight sum over m samples is m * c |
| CrossEntropy.UniformNormaliser | orttraining/orttraining/training_ops/cpu/loss/cross_entropy.cc:249-253 | with every class weight c, the MEAN divisor (the sum of the applied weights) is the unweighted divisor N times c |
| CrossEntropy.UniformWeightsSum | orttraining/orttraining/training_ops/cpu/loss/cross_entropy.cc:264-265 | with every class weight c, the SUM loss is the unweighted sum times c |
| CrossEntropy.UniformWeightsMean | orttraining/orttraining/training_ops/cpu/loss/cross_entropy.cc:264-285 | with every class weight c != 0, the weighted MEAN loss equals the unweighted MEAN loss |
| CrossEntropy.ScaledSum | orttraining/orttraining/training_ops/cpu/loss/cross_entropy.cc:264-265 | scaling every per-sample loss by c scales the SUM loss by c |
| CrossEntropy.ScaledMean | orttraining/orttraining/training_ops/cpu/loss/cross_entropy.cc:264-270 | scaling every per-sample loss and the MEAN divisor by the same non-zero c leaves the MEAN loss unchanged, including a zero divisor |
| CrossEntropy.SumOfScaled | orttraining/orttraining/training_ops/cpu/loss/cross_entropy.cc:264-265 | the sum of a sequence scaled by c is its sum times c |
| CrossEntropy.CheckLossGradShapes | orttraining/orttraining/training_ops/cpu/loss/cross_entropy.cc:302-306 | no error iff the probability rank is the label rank plus one and every label dimension equals the probability dimension at its position; a dimension mismatch is the first one; every error returned is the first error the checks meet |
| CrossEntropy.FirstLossGradShapeErrorUnique | orttraining/orttraining/training_ops/cpu/loss/cross_entropy.cc:302-306 | the first gradient shape error is unique |
| CrossEntropy.InvalidLossGradShapesHaveFirstError | orttraining/orttraining/training_ops/cpu/loss/cross_entropy.cc:302-306 | every pair of shapes that breaks the gradient contract has a first error in the check order |
| CrossEntropy.LossGradShapesValid | orttraining/orttraining/training_ops/cpu/loss/cross_entropy.cc:302-306 | when the gradient shape contract holds, the probability element count is N, the label element count, times D, the last probability dimension |
| CrossEntropy.GradScale | orttraining/orttraining/training_ops/cpu/loss/cross_entropy.cc:327-332 | dY_scaled is finite unless MEAN divides by a zero divisor (N, or the sum of the weights); under MEAN it times the divisor is dY; otherwise it is dY |
| CrossEntropy.SampleScale | orttraining/orttraining/training_ops/cpu/loss/cross_entropy.cc:336 | the per-sample scale is finite exactly when dY_scaled is |
| CrossEntropy.LossGradEntry | orttraining/orttraining/training_ops/cpu/loss/cross_entropy.cc:339 | a gradient entry is finite exactly when dY_scaled is |
| CrossEntropy.LossGradient | orttraining/orttraining/training_ops/cpu/loss/cross_entropy.cc:334-354 | the gradient has the probability's element count |
| CrossEntropy.LossGradientAt | orttraining/orttraining/training_ops/cpu/loss/cross_entropy.cc:334-354 | entry i*d + j is exp(log_prob) minus the indicator label[i] == j, times dY_scaled, and times weight[i] when weighted |
| CrossEntropy.FillGradient | orttraining/orttraining/training_ops/cpu/loss/cross_entropy.cc:334-354 | the nested sample/class loops write exactly that gradient |
| CrossEntropy.FillGradientRow | orttraining/orttraining/training_ops/cpu/loss/cross_entropy.cc:335-340 | one pass of the class loop writes row i of the gradient and leaves every other entry of the array unchanged |
| CrossEntropy.SoftmaxCrossEntropyLossGrad | orttraining/orttraining/training_ops/cpu/loss/cross_entropy.cc:294-358 | fails iff the shapes are invalid or a weight's shape differs from the label shape; with invalid shapes the error is the first shape error the checks meet, with valid shapes it is WeightShapeMismatch; otherwise the gradient is computed with dY_scaled = dY/N (unweighted MEAN), dY/sum of weights (weighted MEAN) or dY |
| CrossEntropy.GatheredWeightsNormaliseAlike | orttraining/orttraining/training_ops/cpu/loss/cross_entropy.cc:249-253 | per-sample weights gathered from the class weights sum to the forward MEAN divisor, so the gradient's MEAN scale is dY over that divisor |
| CrossEntropy.GradientRowEntry | orttraining/orttraining/training_ops/cpu/loss/cross_entropy.cc:334-354 | entry j of gradient row i is the row's scale times exp of the row's log-probability j minus the label indicator |
| CrossEntropy.GradientRowEntries | orttraining/orttraining/training_ops/cpu/loss/cross_entropy.cc:334-354 | every entry of gradient row i is so |
| CrossEntropy.GradientRowValues | orttraining/orttraining/training_ops/cpu/loss/cross_entropy.cc:334-354 | for a finite dY_scaled, gradient row i is finite and equals (exp(log_prob row) - one-hot row) times the row scale |
| CrossEntropy.FiniteRowValues | orttraining/orttraining/training_ops/cpu/loss/cross_entropy.cc:339 | a row of finite products r * x[j] has the values of x scaled by r |
| CrossEntropy.GradientRowSumsToZero | orttraining/orttraining/training_ops/cpu/loss/cross_entropy.cc:334-354 | when a sample's probabilities sum to one and its label is a class index, its gradient row is finite and sums to zero, weighted or not |
| CrossEntropy.PickedSum | orttraining/orttraining/training_ops/cpu/loss/cross_entropy.cc:96-99 | a row with every entry but column c zeroed sums to the entry at c |
| CrossEntropy.IndicatorRowSum | orttraining/orttraining/training_ops/cpu/loss/cross_entropy.cc:339 | the label indicators of one row sum to 1 for an in-range label |

## Left out

- `RunOrtModel`, `SaveAndCompareModels` and the `TEST` bodies of `ort_model_only_test.cc`: they load, serialise and run real sessions from files, and compare float outputs.
- ort_model_only_test.cc gtest semantics: `ASSERT_*` returns only from the helper it is in, and `EXPECT_*` goes on. Both still mark the test failed. The model stops at the first failure. The verdict (pass or fail) and the first failure reported are the same as in the test run. Later failures that the test would also log are not modelled.
- ort_model_only_test.cc `GetNode` past the end of the node list is treated as a missing node. The real node-index semantics are not shown.
- ort_model_only_test.cc dim denotation is not modelled, because the comparison never reads it.
- SessionsMatchMeaning: the model keeps a node argument's existence as its own flag, not tied to its name, and the check never asks whether a right output exists when the left one does. So without more, it gives absences in one direction only. WellNamedSessionsMatchMeaning adds the engine's rule that an argument exists exactly when its name is non-empty, and then gives the same absences on both sides.
- CompareTypesIsEquality and SessionsMatchMeaning: the equality they state is equality of the modelled descriptor, which has no `has_shape` flag and no dim denotation, because the test reads neither. A tensor type without a shape therefore passes against one with a rank-0 shape, and dimensions that differ only in denotation pass. An absent shape or nested type reads as the protobuf default instance, so it is an empty shape or an unset variant.
- ort_model_only_test.cc `memcmp` and memory layout: content is a sequence of string elements or of bytes.
- The float numerics of the kernels: `exp` and `log` are parameters, element values are reals and no rounding is modelled. `math::RowwiseMax`, `SubToCol`, `Exp`, `RowwiseSum`, `Log`, `Mul`, `Sum`, `Sub` and `Scale` are functions with the library's documented meaning. The Eigen library is not part of this model.
- `gsl::narrow_cast` to `int`: integers are unbounded, so the 32-bit truncation of N, D and N * D is not modelled.
- `TransposeBase::DoTranspose`, the temp-space allocator and `AllocateTensorInMLValue`: transpose.cc is not part of this model. The transpose is modelled by its effect on a rank-3 row-major buffer.
- SoftmaxCrossEntropyLoss: once the shapes pass, the logit rank must be at most 3. It is a precondition, because the source applies a 3-axis permutation, which is only meaningful for rank 3.
- SoftmaxCrossEntropyLoss: once the shapes pass and the weight, if any, is 1-D, every label must lie in [0, D) and index the weight. This is the operator's contract for class labels, and the model takes it as a precondition. The kernel does not check it. For a label outside [0, D) whose flat index `i * D + label[i]` still lies in [0, N * D), the source reads another sample's log-probability (logit [2,3], label [2] and labels [3,0] read entry 3 of 6, row 1 at class 0). The model does not promise that value. Any other label reads past the log-probability buffer (cross_entropy.cc:251, 257 and 274). A label outside the weight's length reads past the weight buffer (cross_entropy.cc:251-252 and 257). A weight that is not 1-D is still the `WeightNot1D` error, whatever the labels.
- SoftmaxCrossEntropyLoss: a label of rank 0 with a logit of rank 1 is excluded by a precondition, because the source reads `label_shape[0]` of a scalar shape.
- SoftmaxCrossEntropyLoss: for rank-3 logits the log-probabilities are returned as written, in the transposed `[s0, s2, s1]` layout under the logit's shape `[s0, s1, s2]`. The model does not remap them.
- SoftmaxCrossEntropyLossGrad: once the shapes and the weight shape pass, `dY` must be non-empty. It is a precondition, because the source reads `*dY_data`. A shape error is still reported for an empty `dY`.
- SoftmaxCrossEntropy and SoftmaxCrossEntropyGrad: rank-0 shapes are excluded as a precondition. The source computes `NumDimensions() - 1` on an unsigned value there.
- SoftmaxCrossEntropyGrad: when the label shape equals the probability shape, reduction NONE is excluded by a precondition, because `dY_scaled` is read uninitialised there. An empty `dY` is excluded there too, because the source reads `*dY_data`. A differing label shape is still the `LabelShapeNotIdentical` error for every reduction and every `dY`.
- SoftmaxCrossEntropyLossGrad: under NONE, `dY` holds one value per sample, but the source scales every sample by `*dY_data`, the first value only (cross_entropy.cc:327 and 343). The model does the same (`GradScale(dY[0], …)`).
- SoftmaxCrossEntropy: under NONE the scalar loss is the sum of labels times log-probabilities left un-negated (cross_entropy.cc:101-105), so it is the negated cross-entropy. The model does the same (`DenseLoss`).
- `OpKernelContext` outputs: the allocation of output tensors and `OutputCount()` are not modelled. The log-probabilities are always returned, as if a second output were requested.
- `ORT_ENFORCE` raises an exception. The model returns an error value (`Err`) instead.
- SoftmaxCrossEntropyLoss: the NONE loss output is given the label's shape (see Findings). An output of `[label_shape[0]]` elements would be written out of bounds.

## Findings

| source | as written | input that shows it | evidently intended | confidence | as-written member | corrected member |
|---|---|---|---|---|---|---|
| orttraining/orttraining/training_ops/cpu/loss/cross_entropy.cc:216 | under NONE the loss output has shape `[label_shape[0]]`, but N = `label_shape.Size()` per-sample losses are written into it (lines 236, 251, 257, 274) | logit shape [1, 3, 2], label shape [1, 2], reduction NONE: the shapes are valid, the output holds 1 element and 2 are written | the loss output has the label's shape under NONE, one loss per sample | not executed | CrossEntropy.NoneLossOutputTooSmall | CrossEntropy.SoftmaxCrossEntropyLoss |
