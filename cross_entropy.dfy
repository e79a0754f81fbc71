/**
 * Shape contracts, flat-index structure and reductions of the softmax
 * cross-entropy kernels and their gradients
 * (orttraining/orttraining/training_ops/cpu/loss/cross_entropy.cc).
 *
 * Element values are reals. The exponential and the logarithm are
 * parameters: nothing here depends on what they compute. A float quotient by
 * zero, which is NaN or infinite, is the value NonFinite.
 */
module CrossEntropy {
  import opened Results
  import opened FlatIndex
  import opened TensorShapes

  // ---------------------------------------------------------------------------
  // Shapes

  /** The product of the first k dimensions: what is left of the element
      count once the dimensions from k on are divided out. */
  function SizeToDimension(s: Shape, k: nat): (r: nat)
    requires k <= |s|
    ensures r * Size(s[k..]) == Size(s)
  {
    SizeConcat(s[..k], s[k..]);
    assert s[..k] + s[k..] == s;
    Size(s[..k])
  }

  /** Appending a dimension multiplies the element count by it. */
  lemma {:induction false} SizeAppend(s: Shape, d: nat)
    ensures Size(s + [d]) == Size(s) * d
    decreases |s|
  {
    if |s| > 0 {
      assert (s + [d])[1..] == s[1..] + [d];
      SizeAppend(s[1..], d);
      assert s[0] * (Size(s[1..]) * d) == (s[0] * Size(s[1..])) * d;
    }
  }

  /** N, the product of all dimensions but the last, times D, the last
      dimension, is the element count. */
  lemma SizeSplitsAtLastDim(s: Shape)
    requires |s| > 0
    ensures SizeToDimension(s, |s| - 1) * s[|s| - 1] == Size(s)
  {
    var k := |s| - 1;
    SizeOfRank1(s[k..]);
    assert SizeToDimension(s, k) * Size(s[k..]) == Size(s);
  }

  lemma SizeOfRank1(s: Shape)
    requires |s| == 1
    ensures Size(s) == s[0]
  {
    assert Size(s[1..]) == 1;
  }

  lemma SizeOfRank2(s: Shape)
    requires |s| == 2
    ensures Size(s) == s[0] * s[1]
  {
    SizeOfRank1(s[1..]);
  }

  lemma SizeOfRank3(s: Shape)
    requires |s| == 3
    ensures Size(s) == s[0] * s[1] * s[2]
  {
    SizeOfRank2(s[1..]);
    assert Size(s) == s[0] * (s[1] * s[2]);
  }

  // ---------------------------------------------------------------------------
  // Values

  datatype Reduction = ReduceMean | ReduceSum | ReduceNone

  /** A float result: a real, or NaN or an infinity. */
  datatype Num = Finite(value: real) | NonFinite

  /** Float division; a zero divisor gives NaN or an infinity. */
  function Divide(a: real, b: real): Num {
    if b == 0.0 then NonFinite else Finite(a / b)
  }

  /** Float multiplication by a real; NaN and infinities stay non-finite
      (an infinity times zero is NaN). */
  function Times(x: Num, k: real): Num {
    match x
    case Finite(v) => Finite(v * k)
    case NonFinite => NonFinite
  }

  /** A comparison used as a float: 1 when it holds, 0 otherwise. */
  function Indicator(b: bool): real {
    if b then 1.0 else 0.0
  }

  /** math::Sum, accumulating from the first element on. */
  function SumOf(s: seq<real>): real
    decreases |s|
  {
    if |s| == 0 then 0.0 else SumOf(s[..|s| - 1]) + s[|s| - 1]
  }

  /** A sum of non-negative terms is non-negative. */
  lemma {:induction false} SumOfNonNegative(s: seq<real>)
    requires forall k :: 0 <= k < |s| ==> s[k] >= 0.0
    ensures SumOf(s) >= 0.0
    decreases |s|
  {
    if |s| > 0 {
      SumOfNonNegative(s[..|s| - 1]);
    }
  }

  lemma {:induction false} SumOfConcat(a: seq<real>, b: seq<real>)
    ensures SumOf(a + b) == SumOf(a) + SumOf(b)
    decreases |b|
  {
    if |b| > 0 {
      var ab := a + b;
      assert ab[..|ab| - 1] == a + b[..|b| - 1];
      assert ab[|ab| - 1] == b[|b| - 1];
      SumOfConcat(a, b[..|b| - 1]);
    } else {
      assert a + b == a;
    }
  }

  /** The largest element of a non-empty sequence (0 for an empty one). */
  function MaxOf(s: seq<real>): (m: real)
    ensures forall k :: 0 <= k < |s| ==> s[k] <= m
    ensures |s| > 0 ==> m in s
    decreases |s|
  {
    if |s| <= 1 then (if |s| == 0 then 0.0 else s[0])
    else
      var m := MaxOf(s[..|s| - 1]);
      assert forall k :: 0 <= k < |s| - 1 ==> s[..|s| - 1][k] == s[k];
      if s[|s| - 1] > m then s[|s| - 1] else m
  }

  /** Row i of an n-by-d row-major buffer. */
  function Row<T>(x: seq<T>, d: nat, i: nat): seq<T> {
    if i * d + d <= |x| then x[i * d .. i * d + d] else []
  }

  /** Entry j of row i is the buffer's entry i*d + j. */
  lemma RowAt<T>(x: seq<T>, n: nat, d: nat, i: nat, j: nat)
    requires |x| == n * d && i < n && j < d
    ensures i * d + j < |x| && |Row(x, d, i)| == d && Row(x, d, i)[j] == x[i * d + j]
  {
    RowInBounds(i, n, d);
  }

  // ---------------------------------------------------------------------------
  // The shared log-softmax (ComputeShareSoftmaxCrossEntropyCPU)

  /** math::RowwiseMax: the maximum of each of the n rows. */
  function RowwiseMax(n: nat, d: nat, x: seq<real>): (r: seq<real>)
    ensures |r| == n
    ensures forall i :: 0 <= i < n ==> forall v :: v in Row(x, d, i) ==> v <= r[i]
    ensures forall i :: 0 <= i < n && |Row(x, d, i)| > 0 ==> r[i] in Row(x, d, i)
  {
    seq(n, i requires 0 <= i < n => MaxOf(Row(x, d, i)))
  }

  /** math::RowwiseSum: the sum of each of the n rows. */
  function RowwiseSum(n: nat, d: nat, x: seq<real>): (r: seq<real>)
    ensures |r| == n
  {
    seq(n, i requires 0 <= i < n => SumOf(Row(x, d, i)))
  }

  /** math::SubToCol: subtracts col[i] from every entry of row i. */
  function SubToCol(n: nat, d: nat, x: seq<real>, col: seq<real>): (r: seq<real>)
    requires |x| == n * d && |col| == n
    ensures |r| == n * d
  {
    seq(n * d, k requires 0 <= k < n * d => SplitIndex(k, n, d); x[k] - col[k / d])
  }

  lemma SubToColAt(n: nat, d: nat, x: seq<real>, col: seq<real>, i: nat, j: nat)
    requires |x| == n * d && |col| == n && i < n && j < d
    ensures i * d + j < n * d && SubToCol(n, d, x, col)[i * d + j] == x[i * d + j] - col[i]
  {
    IndexInBounds(i, j, n, d);
    DivModOfIndex(i, j, d);
  }

  /** math::Exp and math::Log: a function applied to every element. */
  function Apply(x: seq<real>, f: real -> real): (r: seq<real>)
    ensures |r| == |x|
  {
    seq(|x|, k requires 0 <= k < |x| => f(x[k]))
  }

  /** The n-by-d log-probabilities: every row is shifted by its maximum, then
      by the log of the summed exponentials of the shifted row. */
  function ComputeShareSoftmaxCrossEntropy(n: nat, d: nat, logit: seq<real>,
                                           exp: real -> real, log: real -> real): (logProb: seq<real>)
    requires |logit| == n * d
    ensures |logProb| == n * d
  {
    var logitMax := RowwiseMax(n, d, logit);
    var shiftedLogit := SubToCol(n, d, logit, logitMax);
    var sumExp := RowwiseSum(n, d, Apply(shiftedLogit, exp));
    var logSumExp := Apply(sumExp, log);
    SubToCol(n, d, shiftedLogit, logSumExp)
  }

  /** A row minus a constant. */
  function Shifted(row: seq<real>, m: real): seq<real> {
    seq(|row|, j requires 0 <= j < |row| => row[j] - m)
  }

  /** The stable log-sum-exp of a row: its maximum plus the log of the
      summed exponentials of the row minus that maximum. */
  function LogSumExp(row: seq<real>, exp: real -> real, log: real -> real): real {
    var m := MaxOf(row);
    m + log(SumOf(Apply(Shifted(row, m), exp)))
  }

  /** Row i of the shifted logits is row i of the logits minus its maximum,
      so its own maximum is zero: no exponential is taken of a positive
      number, and the row's summed exponentials include exp(0). */
  lemma ShiftedLogitsMaxIsZero(n: nat, d: nat, logit: seq<real>, i: nat)
    requires |logit| == n * d && i < n
    ensures var row := Row(logit, d, i);
            Row(SubToCol(n, d, logit, RowwiseMax(n, d, logit)), d, i) == Shifted(row, MaxOf(row))
    ensures d > 0 ==> MaxOf(Row(SubToCol(n, d, logit, RowwiseMax(n, d, logit)), d, i)) == 0.0
  {
    var row := Row(logit, d, i);
    var shifted := SubToCol(n, d, logit, RowwiseMax(n, d, logit));
    RowInBounds(i, n, d);
    forall j | 0 <= j < d ensures Row(shifted, d, i)[j] == Shifted(row, MaxOf(row))[j] {
      RowAt(shifted, n, d, i, j);
      RowAt(logit, n, d, i, j);
      SubToColAt(n, d, logit, RowwiseMax(n, d, logit), i, j);
    }
    assert Row(shifted, d, i) == Shifted(row, MaxOf(row));
    if d > 0 {
      var s := Row(shifted, d, i);
      var c :| 0 <= c < d && row[c] == MaxOf(row);
      assert s[c] == 0.0;
      assert MaxOf(s) >= 0.0;
      assert MaxOf(s) <= 0.0;
    }
  }

  /** Each log-probability is its logit minus the stable log-sum-exp of its
      row. */
  lemma LogProbIsLogitMinusLogSumExp(n: nat, d: nat, logit: seq<real>,
                                     exp: real -> real, log: real -> real, i: nat, j: nat)
    requires |logit| == n * d && i < n && j < d
    ensures i * d + j < n * d
    ensures ComputeShareSoftmaxCrossEntropy(n, d, logit, exp, log)[i * d + j]
            == logit[i * d + j] - LogSumExp(Row(logit, d, i), exp, log)
  {
    var logitMax := RowwiseMax(n, d, logit);
    var shiftedLogit := SubToCol(n, d, logit, logitMax);
    var sumExp := RowwiseSum(n, d, Apply(shiftedLogit, exp));
    RowSumExp(n, d, logit, exp, i);
    SubToColAt(n, d, shiftedLogit, Apply(sumExp, log), i, j);
    SubToColAt(n, d, logit, logitMax, i, j);
  }

  /** The summed exponentials of row i of the shifted logits are those of
      row i of the logits less its maximum. */
  lemma RowSumExp(n: nat, d: nat, logit: seq<real>, exp: real -> real, i: nat)
    requires |logit| == n * d && i < n
    ensures var row := Row(logit, d, i);
            RowwiseSum(n, d, Apply(SubToCol(n, d, logit, RowwiseMax(n, d, logit)), exp))[i]
            == SumOf(Apply(Shifted(row, MaxOf(row)), exp))
  {
    var shiftedLogit := SubToCol(n, d, logit, RowwiseMax(n, d, logit));
    var expShifted := Apply(shiftedLogit, exp);
    ShiftedLogitsMaxIsZero(n, d, logit, i);
    RowInBounds(i, n, d);
    assert Row(expShifted, d, i) == Apply(Row(shiftedLogit, d, i), exp) by {
      forall c | 0 <= c < d ensures Row(expShifted, d, i)[c] == Apply(Row(shiftedLogit, d, i), exp)[c] {
        RowAt(expShifted, n, d, i, c);
        RowAt(shiftedLogit, n, d, i, c);
      }
    }
  }

  /** Entries of one row differ by exactly what their logits differ by. */
  lemma LogProbRowOffsets(n: nat, d: nat, logit: seq<real>, exp: real -> real, log: real -> real,
                          i: nat, j1: nat, j2: nat)
    requires |logit| == n * d && i < n && j1 < d && j2 < d
    ensures i * d + j1 < n * d && i * d + j2 < n * d
    ensures var logProb := ComputeShareSoftmaxCrossEntropy(n, d, logit, exp, log);
            logProb[i * d + j1] - logProb[i * d + j2] == logit[i * d + j1] - logit[i * d + j2]
  {
    LogProbIsLogitMinusLogSumExp(n, d, logit, exp, log, i, j1);
    LogProbIsLogitMinusLogSumExp(n, d, logit, exp, log, i, j2);
  }

  // ---------------------------------------------------------------------------
  // Errors

  /** The shape checks that make a kernel fail before it computes anything. */
  datatype ShapeError =
    | LabelShapeNotIdentical
    | RankNotLabelRankPlusOne
    | BatchDimMismatch
    | TrailingDimMismatch(labelDim: nat)
    | LabelDimMismatch(dim: nat)
    | WeightNot1D
    | WeightShapeMismatch

  // ---------------------------------------------------------------------------
  // SoftmaxCrossEntropy and SoftmaxCrossEntropyGrad (dense labels)

  /** math::Mul: the elementwise product. */
  function Mul(a: seq<real>, b: seq<real>): (r: seq<real>)
    requires |a| == |b|
    ensures |r| == |a| && forall k :: 0 <= k < |r| ==> (a[k] == 0.0 || b[k] == 0.0 <==> r[k] == 0.0)
  {
    seq(|a|, k requires 0 <= k < |a| => a[k] * b[k])
  }

  datatype SoftmaxCrossEntropyOutputs =
    SoftmaxCrossEntropyOutputs(lossShape: Shape, loss: Num, logProbShape: Shape, logProb: seq<real>)

  /** SoftmaxCrossEntropy: labels of the logit's own shape; N is the product
      of all dimensions but the last and D the last. The loss is the scalar
      sum of labels times log-probability, divided by -N under MEAN, negated
      under SUM and left as it is under NONE. */
  function SoftmaxCrossEntropy(logit: seq<real>, logitShape: Shape, labels: seq<real>, labelShape: Shape,
                               reduction: Reduction, exp: real -> real, log: real -> real)
    : (res: Result<SoftmaxCrossEntropyOutputs, ShapeError>)
    requires |logit| == Size(logitShape) && |labels| == Size(labelShape)
    requires labelShape == logitShape ==> |logitShape| > 0
    ensures res.Err? <==> labelShape != logitShape
    ensures res.Err? ==> res.error == LabelShapeNotIdentical
    ensures res.Ok? ==> && res.value.lossShape == []
                        && res.value.logProbShape == logitShape
                        && |res.value.logProb| == |logit|
  {
    if labelShape != logitShape then Err(LabelShapeNotIdentical)
    else
      var rank := |logitShape|;
      var n := SizeToDimension(logitShape, rank - 1);
      var d := logitShape[rank - 1];
      SizeSplitsAtLastDim(logitShape);
      var logProb := ComputeShareSoftmaxCrossEntropy(n, d, logit, exp, log);
      var loss := DenseLoss(SumOf(Mul(labels, logProb)), n, reduction);
      Ok(SoftmaxCrossEntropyOutputs([], loss, logitShape, logProb))
  }

  /** The scalar loss of SoftmaxCrossEntropy from the summed products of
      labels and log-probabilities over n samples: divided by -N under
      MEAN, negated under SUM, left as it is under NONE. */
  function DenseLoss(total: real, n: nat, reduction: Reduction): (r: Num)
    ensures r.Finite? <==> reduction != ReduceMean || n != 0
    ensures reduction == ReduceMean && r.Finite? ==> r.value * (n as real) == -total
    ensures reduction == ReduceSum ==> r == Finite(-total)
    ensures reduction == ReduceNone ==> r == Finite(total)
  {
    match reduction
    case ReduceMean => Divide(total, -(n as real))
    case ReduceSum => Finite(total * -1.0)
    case ReduceNone => Finite(total)
  }

  /** When the summed products are the negated sum of per-sample losses,
      the dense MEAN and SUM losses are those losses reduced over n. */
  lemma DenseLossReduces(total: real, losses: seq<real>, n: nat, reduction: Reduction)
    requires total == -SumOf(losses) && reduction != ReduceNone
    ensures [DenseLoss(total, n, reduction)] == ReducedLoss(losses, reduction, n as real)
  {
    if reduction == ReduceMean && n != 0 {
      NegatedDivisor(total, n as real);
    }
  }

  /** math::Scale: every element times a scalar. */
  function Scale(alpha: Num, x: seq<real>): (r: seq<Num>)
    ensures |r| == |x| && forall k :: 0 <= k < |r| ==> (r[k].Finite? <==> alpha.Finite?)
  {
    seq(|x|, k requires 0 <= k < |x| => Times(alpha, x[k]))
  }

  /** math::Sub: the elementwise difference. */
  function Sub(a: seq<real>, b: seq<real>): (r: seq<real>)
    requires |a| == |b|
    ensures |r| == |a| && forall k :: 0 <= k < |r| ==> r[k] + b[k] == a[k]
  {
    seq(|a|, k requires 0 <= k < |a| => a[k] - b[k])
  }

  datatype GradOutputs = GradOutputs(shape: Shape, dLogit: seq<Num>)

  /** SoftmaxCrossEntropyGrad: (exp(log_prob) - labels) times dY, where dY is
      divided by N under MEAN. */
  function SoftmaxCrossEntropyGrad(dY: seq<real>, logProb: seq<real>, probShape: Shape,
                                   labels: seq<real>, labelShape: Shape, reduction: Reduction,
                                   exp: real -> real): (res: Result<GradOutputs, ShapeError>)
    requires |logProb| == Size(probShape) && |labels| == Size(labelShape)
    requires labelShape == probShape ==> |probShape| > 0 && |dY| > 0 && reduction != ReduceNone
    ensures res.Err? <==> labelShape != probShape
    ensures res.Ok? ==> res.value.shape == probShape && |res.value.dLogit| == Size(probShape)
  {
    if labelShape != probShape then Err(LabelShapeNotIdentical)
    else
      var n := SizeToDimension(probShape, |probShape| - 1);
      var probability := Apply(logProb, exp);
      var backprop := Sub(probability, labels);
      var dYScaled := if reduction == ReduceMean then Divide(dY[0], n as real) else Finite(dY[0]);
      Ok(GradOutputs(probShape, Scale(dYScaled, backprop)))
  }

  // ---------------------------------------------------------------------------
  // SoftmaxCrossEntropyLoss (class-index labels)

  /** An optional weight input: its data and its shape. */
  datatype WeightTensor = WeightTensor(data: seq<real>, shape: Shape)

  datatype LossOutputs = LossOutputs(lossShape: Shape, loss: seq<Num>, logProbShape: Shape, logProb: seq<real>)

  /** The forward shape contract: the logit has one more dimension than the
      labels, the first dimensions agree, and label dimension i + 1 equals
      logit dimension i + 2 (the class dimension, logit dimension 1, has no
      counterpart). */
  predicate LossShapesValid(logitShape: Shape, labelShape: Shape): (r: bool)
    ensures r ==> |logitShape| >= 2 && Size(logitShape) == Size(labelShape) * logitShape[1]
  {
    && |logitShape| == |labelShape| + 1
    && |labelShape| >= 1
    && labelShape[0] == logitShape[0]
    && labelShape[1..] == logitShape[2..]
    && (SizeOfClassesDropped(logitShape, labelShape); true)
  }

  lemma SizeOfClassesDropped(logitShape: Shape, labelShape: Shape)
    requires |logitShape| == |labelShape| + 1 && |labelShape| >= 1
    requires labelShape[0] == logitShape[0] && labelShape[1..] == logitShape[2..]
    ensures Size(logitShape) == Size(labelShape) * logitShape[1]
  {
    var b, d, rest := logitShape[0], logitShape[1], Size(labelShape[1..]);
    assert logitShape[1..][1..] == logitShape[2..];
    assert Size(logitShape[1..]) == d * rest;
    MoveFactorLast(b, d, rest);
  }

  lemma MoveFactorLast(b: nat, d: nat, rest: nat)
    ensures b * (d * rest) == (b * rest) * d
  {
  }

  /** e is the error the forward shape checks report first: a rank
      mismatch, else a batch-dimension mismatch, else the first trailing
      label dimension i + 1 that differs from logit dimension i + 2. */
  predicate FirstLossShapeError(logitShape: Shape, labelShape: Shape, e: ShapeError)
    requires |labelShape| == 0 ==> |logitShape| != 1
  {
    match e
    case RankNotLabelRankPlusOne => |logitShape| != |labelShape| + 1
    case BatchDimMismatch => |logitShape| == |labelShape| + 1 && labelShape[0] != logitShape[0]
    case TrailingDimMismatch(i) =>
      && |logitShape| == |labelShape| + 1 && labelShape[0] == logitShape[0]
      && i + 1 < |labelShape| && labelShape[i + 1] != logitShape[i + 2]
      && forall k :: 1 <= k <= i ==> labelShape[k] == logitShape[k + 1]
    case _ => false
  }

  /** At most one error is the first: the forward checks are deterministic. */
  lemma FirstLossShapeErrorUnique(logitShape: Shape, labelShape: Shape, e1: ShapeError, e2: ShapeError)
    requires |labelShape| == 0 ==> |logitShape| != 1
    requires FirstLossShapeError(logitShape, labelShape, e1) && FirstLossShapeError(logitShape, labelShape, e2)
    ensures e1 == e2
  {
  }

  /** Invalid forward shapes always have a first error. */
  lemma InvalidLossShapesHaveFirstError(logitShape: Shape, labelShape: Shape) returns (e: ShapeError)
    requires |labelShape| == 0 ==> |logitShape| != 1
    requires !LossShapesValid(logitShape, labelShape)
    ensures FirstLossShapeError(logitShape, labelShape, e)
  {
    if |logitShape| != |labelShape| + 1 {
      return RankNotLabelRankPlusOne;
    }
    if labelShape[0] != logitShape[0] {
      return BatchDimMismatch;
    }
    var i := 0;
    while i + 2 < |logitShape| && labelShape[i + 1] == logitShape[i + 2]
      invariant i + 1 < |logitShape|
      invariant forall k :: 1 <= k <= i ==> labelShape[k] == logitShape[k + 1]
      decreases |logitShape| - i
    {
      i := i + 1;
    }
    return TrailingDimMismatch(i);
  }

  /** The forward kernel's shape checks (rank, batch dimension, trailing
      dimensions) in order, failing at the first. */
  method CheckLossShapes(logitShape: Shape, labelShape: Shape) returns (err: Option<ShapeError>)
    requires |labelShape| == 0 ==> |logitShape| != 1
    ensures err.None? <==> LossShapesValid(logitShape, labelShape)
    ensures err.Some? ==> FirstLossShapeError(logitShape, labelShape, err.value)
    ensures err == Some(RankNotLabelRankPlusOne) <==> |logitShape| != |labelShape| + 1
    ensures err == Some(BatchDimMismatch) <==>
              |logitShape| == |labelShape| + 1 && labelShape[0] != logitShape[0]
    ensures err.Some? && err.value.TrailingDimMismatch? ==>
              var i := err.value.labelDim;
              && i + 1 < |labelShape| && labelShape[i + 1] != logitShape[i + 2]
              && forall k :: 1 <= k <= i ==> labelShape[k] == logitShape[k + 1]
  {
    if |logitShape| != |labelShape| + 1 {
      return Some(RankNotLabelRankPlusOne);
    }
    if labelShape[0] != logitShape[0] {
      return Some(BatchDimMismatch);
    }
    if |labelShape| >= 2 {
      for i := 0 to |labelShape| - 1
        invariant forall k :: 1 <= k <= i ==> labelShape[k] == logitShape[k + 1]
      {
        if labelShape[i + 1] != logitShape[i + 2] {
          return Some(TrailingDimMismatch(i));
        }
      }
    }
    assert labelShape[1..] == logitShape[2..];
    return None;
  }

  /** The {0, 2, 1} transpose of an s0 x s1 x s2 row-major buffer: entry
      (a, c, b) of the s0 x s2 x s1 result is entry (a, b, c) of the input. */
  function Transpose021(x: seq<real>, s0: nat, s1: nat, s2: nat): (r: seq<real>)
    requires |x| == s0 * s1 * s2
    ensures |r| == |x|
  {
    seq(|x|, k requires 0 <= k < |x| => x[TransposeSource(k, s0, s1, s2)])
  }

  /** The input index that target index k of the transpose reads. */
  function TransposeSource(k: nat, s0: nat, s1: nat, s2: nat): (src: nat)
    requires k < s0 * s1 * s2
    ensures src < s0 * s1 * s2
  {
    SwapLastTwo(s0, s1, s2);
    SplitIndex(k, s0 * s2, s1);
    var b, q := k % s1, k / s1;
    SplitIndex(q, s0, s2);
    var c, a := q % s2, q / s2;
    Index3InBounds(a, b, c, s0, s1, s2);
    (a * s1 + b) * s2 + c
  }

  /** Target index (a, c, b) of the transpose reads input index (a, b, c). */
  lemma TransposeSourceAt(s0: nat, s1: nat, s2: nat, a: nat, b: nat, c: nat)
    requires a < s0 && b < s1 && c < s2
    ensures 0 <= (a * s2 + c) * s1 + b < s0 * s1 * s2 && 0 <= (a * s1 + b) * s2 + c < s0 * s1 * s2
    ensures TransposeSource((a * s2 + c) * s1 + b, s0, s1, s2) == (a * s1 + b) * s2 + c
  {
    Index3InBounds(a, c, b, s0, s2, s1);
    Index3InBounds(a, b, c, s0, s1, s2);
    SwapLastTwo(s0, s1, s2);
    DivModOfIndex(a * s2 + c, b, s1);
    DivModOfIndex(a, c, s2);
  }

  /** Entry (a, c, b) of the transpose is entry (a, b, c) of the input. */
  lemma TransposeAt(x: seq<real>, s0: nat, s1: nat, s2: nat, a: nat, b: nat, c: nat)
    requires |x| == s0 * s1 * s2 && a < s0 && b < s1 && c < s2
    ensures && 0 <= (a * s2 + c) * s1 + b < |x| && 0 <= (a * s1 + b) * s2 + c < |x|
            && Transpose021(x, s0, s1, s2)[(a * s2 + c) * s1 + b] == x[(a * s1 + b) * s2 + c]
  {
    TransposeSourceAt(s0, s1, s2, a, b, c);
  }

  /** The class axis of an s0 x s1 x s2 buffer at position (a, ., c). */
  function ClassAxis(x: seq<real>, s0: nat, s1: nat, s2: nat, a: nat, c: nat): (r: seq<real>)
    requires |x| == s0 * s1 * s2 && a < s0 && c < s2
    ensures |r| == s1
  {
    seq(s1, b requires 0 <= b < s1 => IndexInBounds(a, b, s0, s1);
                                      IndexInBounds(a * s1 + b, c, s0 * s1, s2);
                                      x[(a * s1 + b) * s2 + c])
  }

  /** After the transpose, the row of sample (a, c) is the class axis of the
      logit at (a, ., c): the loss of that sample reads the classes of that
      position. */
  lemma TransposedRowIsClassAxis(x: seq<real>, s0: nat, s1: nat, s2: nat, a: nat, c: nat)
    requires |x| == s0 * s1 * s2 && a < s0 && c < s2
    ensures Row(Transpose021(x, s0, s1, s2), s1, a * s2 + c) == ClassAxis(x, s0, s1, s2, a, c)
  {
    var t := Transpose021(x, s0, s1, s2);
    IndexInBounds(a, c, s0, s2);
    SwapLastTwo(s0, s1, s2);
    RowInBounds(a * s2 + c, s0 * s2, s1);
    forall b | 0 <= b < s1
      ensures Row(t, s1, a * s2 + c)[b] == ClassAxis(x, s0, s1, s2, a, c)[b]
    {
      RowAt(t, s0 * s2, s1, a * s2 + c, b);
      TransposeAt(x, s0, s1, s2, a, b, c);
    }
  }

  /** The logits the loss works on: transposed to put the class dimension
      last when the logit has more than two dimensions. */
  function WorkingLogits(logit: seq<real>, logitShape: Shape): (r: seq<real>)
    requires |logit| == Size(logitShape) && |logitShape| <= 3
    ensures |r| == |logit|
  {
    if |logitShape| > 2 then
      SizeOfRank3(logitShape);
      Transpose021(logit, logitShape[0], logitShape[1], logitShape[2])
    else logit
  }

  /** Under valid shapes of rank at most three, both derivations of N and D
      (the one from the label shape, and the one the rank-3 transpose
      overrides it with) give N = the label's element count and
      D = logit dimension 1, and N * D is the logit's element count. */
  lemma LossLayoutCounts(logitShape: Shape, labelShape: Shape)
    requires LossShapesValid(logitShape, labelShape) && |logitShape| <= 3
    ensures logitShape[|labelShape|] == logitShape[1] || |logitShape| > 2
    ensures |logitShape| > 2 ==> logitShape[0] * logitShape[2] == Size(labelShape)
    ensures Size(labelShape) * logitShape[1] == Size(logitShape)
  {
    if |logitShape| > 2 {
      var s0, s1, s2 := logitShape[0], logitShape[1], logitShape[2];
      assert labelShape[1] == s2 by {
        assert labelShape[1..][0] == logitShape[2..][0];
      }
      SizeOfRank2(labelShape);
      SizeOfRank3(logitShape);
      SwapLastTwo(s0, s1, s2);
    } else {
      SizeOfRank1(labelShape);
      SizeOfRank2(logitShape);
    }
  }

  /** Every label is a class index in [0, bound). */
  predicate IndexesInto(labels: seq<int>, bound: nat) {
    forall i :: 0 <= i < |labels| ==> 0 <= labels[i] < bound
  }

  /** The loss of sample i: the negated log-probability of its labelled
      class, read at flat index i*d + labels[i], times the weight of that
      class when weights are given. */
  function SampleLoss(logProb: seq<real>, labels: seq<int>, weight: Option<seq<real>>, d: nat, i: nat): (r: real)
    requires |logProb| == |labels| * d && i < |labels| && IndexesInto(labels, d)
    requires weight.Some? ==> IndexesInto(labels, |weight.value|)
    ensures (forall k :: 0 <= k < |logProb| ==> logProb[k] <= 0.0)
            && (weight.Some? ==> forall c :: 0 <= c < |weight.value| ==> weight.value[c] >= 0.0)
            ==> r >= 0.0
  {
    IndexInBounds(i, labels[i], |labels|, d);
    match weight
    case None => -logProb[i * d + labels[i]]
    case Some(w) => -logProb[i * d + labels[i]] * w[labels[i]]
  }

  lemma UnweightedSampleLoss(logProb: seq<real>, labels: seq<int>, d: nat, i: nat)
    requires |logProb| == |labels| * d && i < |labels| && IndexesInto(labels, d)
    ensures && 0 <= i * d + labels[i] < |logProb|
            && SampleLoss(logProb, labels, None, d, i) == -logProb[i * d + labels[i]]
  {
    IndexInBounds(i, labels[i], |labels|, d);
  }

  lemma WeightedSampleLoss(logProb: seq<real>, labels: seq<int>, w: seq<real>, d: nat, i: nat)
    requires |logProb| == |labels| * d && i < |labels| && IndexesInto(labels, d) && IndexesInto(labels, |w|)
    ensures && 0 <= i * d + labels[i] < |logProb| && 0 <= labels[i] < |w|
            && SampleLoss(logProb, labels, Some(w), d, i) == -logProb[i * d + labels[i]] * w[labels[i]]
  {
    IndexInBounds(i, labels[i], |labels|, d);
  }

  function SampleLosses(logProb: seq<real>, labels: seq<int>, weight: Option<seq<real>>, d: nat): (r: seq<real>)
    requires |logProb| == |labels| * d && IndexesInto(labels, d)
    requires weight.Some? ==> IndexesInto(labels, |weight.value|)
    ensures |r| == |labels|
  {
    seq(|labels|, i requires 0 <= i < |labels| => SampleLoss(logProb, labels, weight, d, i))
  }

  /** The sum of the weights of the labelled classes of the first m samples. */
  function AppliedWeightSum(labels: seq<int>, w: seq<real>, m: nat): (r: real)
    requires m <= |labels| && IndexesInto(labels, |w|)
    ensures (forall c :: 0 <= c < |w| ==> w[c] >= 0.0) ==> r >= 0.0
    ensures (forall c :: 0 <= c < |w| ==> w[c] > 0.0) && m > 0 ==> r > 0.0
  {
    if m == 0 then 0.0 else AppliedWeightSum(labels, w, m - 1) + w[labels[m - 1]]
  }

  /** What MEAN divides the summed loss by: N without weights, the sum of
      the applied weights with them. */
  function LossNormaliser(labels: seq<int>, weight: Option<seq<real>>): (r: real)
    requires weight.Some? ==> IndexesInto(labels, |weight.value|)
    ensures weight.None? || (forall c :: 0 <= c < |weight.value| ==> weight.value[c] >= 0.0) ==> r >= 0.0
    ensures |labels| > 0 && (weight.None? || forall c :: 0 <= c < |weight.value| ==> weight.value[c] > 0.0)
            ==> r > 0.0
  {
    match weight
    case None => |labels| as real
    case Some(w) => AppliedWeightSum(labels, w, |labels|)
  }

  /** The loss output: the per-sample values under NONE, their sum under
      SUM, their sum divided by the normaliser under MEAN. */
  function ReducedLoss(samples: seq<real>, reduction: Reduction, normaliser: real): (r: seq<Num>)
    ensures |r| == if reduction == ReduceNone then |samples| else 1
    ensures reduction != ReduceMean || normaliser != 0.0 ==> forall k :: 0 <= k < |r| ==> r[k].Finite?
  {
    match reduction
    case ReduceNone => seq(|samples|, i requires 0 <= i < |samples| => Finite(samples[i]))
    case ReduceSum => [Finite(SumOf(samples))]
    case ReduceMean => [Divide(SumOf(samples), normaliser)]
  }

  /** Non-negative per-sample losses reduce to a non-negative loss output
      (under MEAN, for a positive normaliser). */
  lemma ReducedLossNonNegative(samples: seq<real>, reduction: Reduction, normaliser: real)
    requires forall k :: 0 <= k < |samples| ==> samples[k] >= 0.0
    requires reduction == ReduceMean ==> normaliser > 0.0
    ensures var r := ReducedLoss(samples, reduction, normaliser);
            forall k :: 0 <= k < |r| ==> r[k].Finite? && r[k].value >= 0.0
  {
    SumOfNonNegative(samples);
  }

  /** The loss output's shape: one loss per sample, in the label's shape,
      under NONE, a scalar otherwise. */
  function LossOutputShape(reduction: Reduction, labelShape: Shape): (r: Shape)
    ensures Size(r) == if reduction == ReduceNone then Size(labelShape) else 1
  {
    if reduction == ReduceNone then labelShape else []
  }

  /** The loss output's shape as the forward kernel allocates it:
      [label_shape[0]] under NONE. */
  function LossOutputShapeAsWritten(reduction: Reduction, labelShape: Shape): (r: Shape)
    requires |labelShape| >= 1
    ensures Size(r) == if reduction == ReduceNone then labelShape[0] else 1
  {
    if reduction == ReduceNone then [labelShape[0]] else []
  }

  /** For labels of rank one the allocated shape is the per-sample shape. */
  lemma LossOutputShapesAgreeOnRank1(reduction: Reduction, labelShape: Shape)
    requires |labelShape| == 1
    ensures LossOutputShapeAsWritten(reduction, labelShape) == LossOutputShape(reduction, labelShape)
  {
  }

  /** With logit [1, 3, 2], label [1, 2] and NONE, the shapes pass every check
      and the gather loops write one loss per label, two in all (the
      per-sample losses GatherLosses and GatherWeightedLosses write), into an
      output allocated for one. */
  lemma NoneLossOutputTooSmall(logProb: seq<real>, labels: seq<int>)
    requires |labels| == Size([1, 2]) && |logProb| == |labels| * 3 && IndexesInto(labels, 3)
    ensures LossShapesValid([1, 3, 2], [1, 2])
    ensures |labels| == 2
    ensures Size(LossOutputShapeAsWritten(ReduceNone, [1, 2])) == 1
    ensures |SampleLosses(logProb, labels, None, 3)| == 2 > Size(LossOutputShapeAsWritten(ReduceNone, [1, 2]))
  {
    assert [1, 2][1..] == [1, 3, 2][2..];
  }

  function WeightData(weight: Option<WeightTensor>): Option<seq<real>> {
    match weight
    case None => None
    case Some(w) => Some(w.data)
  }

  /** SoftmaxCrossEntropyLoss. */
  method SoftmaxCrossEntropyLoss(logit: seq<real>, logitShape: Shape, labels: seq<int>, labelShape: Shape,
                                 weight: Option<WeightTensor>, reduction: Reduction,
                                 exp: real -> real, log: real -> real)
    returns (res: Result<LossOutputs, ShapeError>)
    requires |logit| == Size(logitShape) && |labels| == Size(labelShape)
    requires weight.Some? ==> |weight.value.data| == Size(weight.value.shape)
    requires |labelShape| == 0 ==> |logitShape| != 1
    requires LossShapesValid(logitShape, labelShape) ==> |logitShape| <= 3
    requires LossShapesValid(logitShape, labelShape) && (weight.None? || |weight.value.shape| == 1) ==>
               IndexesInto(labels, logitShape[1])
    requires LossShapesValid(logitShape, labelShape) && weight.Some? && |weight.value.shape| == 1 ==>
               IndexesInto(labels, |weight.value.data|)
    ensures res.Err? <==> !LossShapesValid(logitShape, labelShape) || (weight.Some? && |weight.value.shape| != 1)
    ensures res.Err? && LossShapesValid(logitShape, labelShape) ==> res.error == WeightNot1D
    ensures res.Err? && !LossShapesValid(logitShape, labelShape) ==> FirstLossShapeError(logitShape, labelShape, res.error)
    ensures res.Ok? ==> |labels| * logitShape[1] == |logit| && |logitShape| <= 3
    ensures res.Ok? ==>
              && res.value.lossShape == LossOutputShape(reduction, labelShape)
              && |res.value.loss| == Size(res.value.lossShape)
              && res.value.logProbShape == logitShape
              && res.value.logProb == ComputeShareSoftmaxCrossEntropy(|labels|, logitShape[1],
                                        WorkingLogits(logit, logitShape), exp, log)
              && res.value.loss == ReducedLoss(SampleLosses(res.value.logProb, labels, WeightData(weight), logitShape[1]),
                                               reduction, LossNormaliser(labels, WeightData(weight)))
  {
    var err := CheckLossShapes(logitShape, labelShape);
    if err.Some? {
      return Err(err.value);
    }
    LossLayoutCounts(logitShape, labelShape);
    var labelDims := |labelShape|;
    var n := Size(labelShape);
    var d := logitShape[labelDims];
    var logitData := logit;
    if |logitShape| > 2 {
      SizeOfRank3(logitShape);
      logitData := Transpose021(logit, logitShape[0], logitShape[1], logitShape[2]);
      n := logitShape[0] * logitShape[2];
      d := logitShape[1];
    }
    assert logitData == WorkingLogits(logit, logitShape);
    var logProb := ComputeShareSoftmaxCrossEntropy(n, d, logitData, exp, log);
    var lossShape := LossOutputShape(reduction, labelShape);
    assert n == |labels| && d == logitShape[1];
    if weight.Some? {
      if |weight.value.shape| != 1 {
        return Err(WeightNot1D);
      }
      var lossSample, sumWeight := GatherWeightedLosses(logProb, labels, weight.value.data, d, reduction);
      if reduction == ReduceNone {
        return Ok(LossOutputs(lossShape, ReducedLoss(lossSample, reduction, 0.0), logitShape, logProb));
      }
      var total := SumOf(lossSample);
      var loss := if reduction == ReduceMean then Divide(total, sumWeight) else Finite(total);
      return Ok(LossOutputs(lossShape, [loss], logitShape, logProb));
    } else {
      var lossSample := GatherLosses(logProb, labels, d);
      if reduction == ReduceNone {
        return Ok(LossOutputs(lossShape, ReducedLoss(lossSample, reduction, 0.0), logitShape, logProb));
      }
      var total := SumOf(lossSample);
      var loss := if reduction == ReduceMean then Divide(total, n as real) else Finite(total);
      return Ok(LossOutputs(lossShape, [loss], logitShape, logProb));
    }
  }

  /** The weighted per-sample losses, and under MEAN the sum of the
      applied weights, accumulated in the same pass. */
  method GatherWeightedLosses(logProb: seq<real>, labels: seq<int>, w: seq<real>, d: nat, reduction: Reduction)
    returns (lossSample: seq<real>, sumWeight: real)
    requires |logProb| == |labels| * d && IndexesInto(labels, d) && IndexesInto(labels, |w|)
    ensures lossSample == SampleLosses(logProb, labels, Some(w), d)
    ensures sumWeight == if reduction == ReduceMean then AppliedWeightSum(labels, w, |labels|) else 0.0
  {
    var n := |labels|;
    var samples := new real[n];
    ghost var spec := SampleLosses(logProb, labels, Some(w), d);
    sumWeight := 0.0;
    if reduction == ReduceMean {
      for i := 0 to n
        invariant forall k :: 0 <= k < i ==> samples[k] == spec[k]
        invariant sumWeight == AppliedWeightSum(labels, w, i)
      {
        WeightedSampleLoss(logProb, labels, w, d, i);
        samples[i] := -logProb[i * d + labels[i]] * w[labels[i]];
        sumWeight := sumWeight + w[labels[i]];
      }
    } else {
      for i := 0 to n
        invariant forall k :: 0 <= k < i ==> samples[k] == spec[k]
      {
        WeightedSampleLoss(logProb, labels, w, d, i);
        samples[i] := -logProb[i * d + labels[i]] * w[labels[i]];
      }
    }
    lossSample := samples[..];
  }

  /** The unweighted per-sample losses. */
  method GatherLosses(logProb: seq<real>, labels: seq<int>, d: nat) returns (lossSample: seq<real>)
    requires |logProb| == |labels| * d && IndexesInto(labels, d)
    ensures lossSample == SampleLosses(logProb, labels, None, d)
  {
    var n := |labels|;
    var samples := new real[n];
    ghost var spec := SampleLosses(logProb, labels, None, d);
    for i := 0 to n
      invariant forall k :: 0 <= k < i ==> samples[k] == spec[k]
    {
      IndexInBounds(i, labels[i], n, d);
      samples[i] := -logProb[i * d + labels[i]];
    }
    lossSample := samples[..];
  }

  // ---------------------------------------------------------------------------
  // SoftmaxCrossEntropyLossGrad

  /** The gradient's shape contract: the probability has one more
      dimension than the label, and every label dimension equals the
      probability dimension at the same position. */
  predicate LossGradShapesValid(probShape: Shape, labelShape: Shape): (r: bool)
    ensures r ==> |probShape| == |labelShape| + 1 && Size(probShape) == Size(labelShape) * probShape[|labelShape|]
  {
    && |probShape| == |labelShape| + 1 && probShape[..|labelShape|] == labelShape
    && (SizeAppend(labelShape, probShape[|labelShape|]);
        assert probShape == labelShape + [probShape[|labelShape|]];
        true)
  }

  /** e is the error the gradient shape checks report first: a rank
      mismatch, else the first label dimension that differs from the
      probability's. */
  predicate FirstLossGradShapeError(probShape: Shape, labelShape: Shape, e: ShapeError) {
    match e
    case RankNotLabelRankPlusOne => |probShape| != |labelShape| + 1
    case LabelDimMismatch(i) =>
      && |probShape| == |labelShape| + 1
      && i < |labelShape| && labelShape[i] != probShape[i]
      && forall k :: 0 <= k < i ==> labelShape[k] == probShape[k]
    case _ => false
  }

  /** At most one error is the first: the gradient checks are deterministic. */
  lemma FirstLossGradShapeErrorUnique(probShape: Shape, labelShape: Shape, e1: ShapeError, e2: ShapeError)
    requires FirstLossGradShapeError(probShape, labelShape, e1) && FirstLossGradShapeError(probShape, labelShape, e2)
    ensures e1 == e2
  {
  }

  /** Invalid gradient shapes always have a first error. */
  lemma InvalidLossGradShapesHaveFirstError(probShape: Shape, labelShape: Shape) returns (e: ShapeError)
    requires !LossGradShapesValid(probShape, labelShape)
    ensures FirstLossGradShapeError(probShape, labelShape, e)
  {
    if |probShape| != |labelShape| + 1 {
      return RankNotLabelRankPlusOne;
    }
    var i := 0;
    while i < |labelShape| && labelShape[i] == probShape[i]
      invariant i <= |labelShape|
      invariant forall k :: 0 <= k < i ==> labelShape[k] == probShape[k]
    {
      i := i + 1;
    }
    return LabelDimMismatch(i);
  }

  /** The gradient kernel's shape checks (rank, then each label dimension)
      in order, failing at the first. */
  method CheckLossGradShapes(probShape: Shape, labelShape: Shape) returns (err: Option<ShapeError>)
    ensures err.None? <==> LossGradShapesValid(probShape, labelShape)
    ensures err.Some? ==> FirstLossGradShapeError(probShape, labelShape, err.value)
    ensures err == Some(RankNotLabelRankPlusOne) <==> |probShape| != |labelShape| + 1
    ensures err.Some? && err.value.LabelDimMismatch? ==>
              var i := err.value.dim;
              && i < |labelShape| && labelShape[i] != probShape[i]
              && forall k :: 0 <= k < i ==> labelShape[k] == probShape[k]
    ensures err.Some? ==> err.value.RankNotLabelRankPlusOne? || err.value.LabelDimMismatch?
  {
    if |probShape| != |labelShape| + 1 {
      return Some(RankNotLabelRankPlusOne);
    }
    for i := 0 to |labelShape|
      invariant forall k :: 0 <= k < i ==> labelShape[k] == probShape[k]
    {
      if labelShape[i] != probShape[i] {
        return Some(LabelDimMismatch(i));
      }
    }
    assert probShape[..|labelShape|] == labelShape;
    return None;
  }

  /** dY_scaled: dY divided by N (unweighted) or by the sum of all the
      per-sample weights (weighted) under MEAN, dY itself otherwise. */
  function GradScale(dY0: real, n: nat, weight: Option<seq<real>>, reduction: Reduction): (r: Num)
    ensures var divisor := if weight.None? then n as real else SumOf(weight.value);
            && (r.Finite? <==> reduction != ReduceMean || divisor != 0.0)
            && (reduction == ReduceMean && r.Finite? ==> r.value * divisor == dY0)
            && (reduction != ReduceMean ==> r == Finite(dY0))
  {
    if reduction != ReduceMean then Finite(dY0)
    else match weight
      case None => Divide(dY0, n as real)
      case Some(w) => Divide(dY0, SumOf(w))
  }

  /** Gradient entry k = i*d + j: exp(log_prob) minus the indicator that
      sample i is labelled j, times dY_scaled, and times weight[i] (indexed by
      sample) when weights are given. */
  function LossGradEntry(logProb: seq<real>, labels: seq<int>, weight: Option<seq<real>>, d: nat,
                         scale: Num, exp: real -> real, k: nat): (r: Num)
    requires |logProb| == |labels| * d && k < |logProb|
    requires weight.Some? ==> |weight.value| == |labels|
    ensures r.Finite? <==> scale.Finite?
  {
    SplitIndex(k, |labels|, d);
    var i, j := k / d, k % d;
    Times(SampleScale(scale, weight, i), exp(logProb[k]) - Indicator(labels[i] == j))
  }

  /** dY_scaled, times weight[i] when weights are given. */
  function SampleScale(scale: Num, weight: Option<seq<real>>, i: nat): (r: Num)
    requires weight.Some? ==> i < |weight.value|
    ensures r.Finite? <==> scale.Finite?
  {
    match weight
    case None => scale
    case Some(w) => Times(scale, w[i])
  }

  /** Entry (i, j) of the gradient. */
  lemma LossGradientAt(logProb: seq<real>, labels: seq<int>, weight: Option<seq<real>>, d: nat,
                       scale: Num, exp: real -> real, i: nat, j: nat)
    requires |logProb| == |labels| * d && i < |labels| && j < d
    requires weight.Some? ==> |weight.value| == |labels|
    ensures && 0 <= i * d + j < |logProb|
            && LossGradient(logProb, labels, weight, d, scale, exp)[i * d + j]
               == Times(SampleScale(scale, weight, i), exp(logProb[i * d + j]) - Indicator(labels[i] == j))
  {
    IndexInBounds(i, j, |labels|, d);
    DivModOfIndex(i, j, d);
  }

  function LossGradient(logProb: seq<real>, labels: seq<int>, weight: Option<seq<real>>, d: nat,
                        scale: Num, exp: real -> real): (r: seq<Num>)
    requires |logProb| == |labels| * d
    requires weight.Some? ==> |weight.value| == |labels|
    ensures |r| == |logProb|
  {
    seq(|logProb|, k requires 0 <= k < |logProb| => LossGradEntry(logProb, labels, weight, d, scale, exp, k))
  }

  /** SoftmaxCrossEntropyLossGrad. */
  method SoftmaxCrossEntropyLossGrad(dY: seq<real>, logProb: seq<real>, probShape: Shape,
                                     labels: seq<int>, labelShape: Shape, weight: Option<WeightTensor>,
                                     reduction: Reduction, exp: real -> real)
    returns (res: Result<GradOutputs, ShapeError>)
    requires |logProb| == Size(probShape) && |labels| == Size(labelShape)
    requires weight.Some? ==> |weight.value.data| == Size(weight.value.shape)
    requires LossGradShapesValid(probShape, labelShape) && (weight.None? || weight.value.shape == labelShape) ==>
               |dY| > 0
    ensures res.Err? <==> !LossGradShapesValid(probShape, labelShape)
                          || (weight.Some? && weight.value.shape != labelShape)
    ensures res.Err? && LossGradShapesValid(probShape, labelShape) ==> res.error == WeightShapeMismatch
    ensures res.Err? && !LossGradShapesValid(probShape, labelShape) ==>
              FirstLossGradShapeError(probShape, labelShape, res.error)
    ensures res.Ok? ==> |logProb| == |labels| * probShape[|labelShape|]
    ensures res.Ok? ==>
              var d := probShape[|labelShape|];
              && res.value.shape == probShape
              && res.value.dLogit == LossGradient(logProb, labels, WeightData(weight), d,
                                                  GradScale(dY[0], |labels|, WeightData(weight), reduction), exp)
  {
    var err := CheckLossGradShapes(probShape, labelShape);
    if err.Some? {
      return Err(err.value);
    }
    var n := Size(labelShape);
    var d := probShape[|probShape| - 1];
    assert probShape == labelShape + [d];
    SizeAppend(labelShape, d);
    if weight.Some? {
      if weight.value.shape != labelShape {
        return Err(WeightShapeMismatch);
      }
      var w := weight.value.data;
      var dYScaled := Finite(dY[0]);
      if reduction == ReduceMean {
        var sumWeight := SumOf(w);
        dYScaled := Divide(dY[0], sumWeight);
      }
      var dLogit := FillGradient(logProb, labels, Some(w), d, dYScaled, exp);
      return Ok(GradOutputs(probShape, dLogit));
    } else {
      var dYScaled := Finite(dY[0]);
      if reduction == ReduceMean {
        dYScaled := Divide(dY[0], n as real);
      }
      var dLogit := FillGradient(logProb, labels, None, d, dYScaled, exp);
      return Ok(GradOutputs(probShape, dLogit));
    }
  }

  /** The loops over samples and classes that write d_logit: entry (i, j)
      is the sample's scale (dY_scaled, times weight[i] when weights are
      given) times exp(log_prob) minus the label indicator. */
  method FillGradient(logProb: seq<real>, labels: seq<int>, weight: Option<seq<real>>, d: nat,
                      dYScaled: Num, exp: real -> real)
    returns (grad: seq<Num>)
    requires |logProb| == |labels| * d
    requires weight.Some? ==> |weight.value| == |labels|
    ensures grad == LossGradient(logProb, labels, weight, d, dYScaled, exp)
  {
    var n := |labels|;
    var dLogit := new Num[n * d];
    ghost var spec := LossGradient(logProb, labels, weight, d, dYScaled, exp);
    for i := 0 to n
      invariant i * d <= n * d
      invariant forall k :: 0 <= k < i * d ==> dLogit[k] == spec[k]
    {
      RowInBounds(i, n, d);
      FillGradientRow(dLogit, logProb, labels, weight, d, dYScaled, exp, i);
      assert i * d + d == (i + 1) * d;
    }
    grad := dLogit[..];
  }

  /** The inner loop over the classes of sample i: it writes row i of
      d_logit and no other entry. */
  method FillGradientRow(dLogit: array<Num>, logProb: seq<real>, labels: seq<int>, weight: Option<seq<real>>,
                         d: nat, dYScaled: Num, exp: real -> real, i: nat)
    requires |logProb| == |labels| * d && dLogit.Length == |logProb| && i < |labels|
    requires weight.Some? ==> |weight.value| == |labels|
    modifies dLogit
    ensures 0 <= i * d && i * d + d <= dLogit.Length
    ensures forall k :: 0 <= k < i * d ==> dLogit[k] == old(dLogit[k])
    ensures forall k :: i * d <= k < i * d + d ==>
              dLogit[k] == LossGradient(logProb, labels, weight, d, dYScaled, exp)[k]
    ensures forall k :: i * d + d <= k < dLogit.Length ==> dLogit[k] == old(dLogit[k])
  {
    RowInBounds(i, |labels|, d);
    var labelSample := labels[i];
    var weightSample := if weight.Some? then Times(dYScaled, weight.value[i]) else dYScaled;
    assert weightSample == SampleScale(dYScaled, weight, i);
    for j := 0 to d
      invariant forall k :: 0 <= k < i * d ==> dLogit[k] == old(dLogit[k])
      invariant forall k :: i * d <= k < i * d + j ==>
                  dLogit[k] == LossGradient(logProb, labels, weight, d, dYScaled, exp)[k]
      invariant forall k :: i * d + d <= k < dLogit.Length ==> dLogit[k] == old(dLogit[k])
    {
      LossGradientAt(logProb, labels, weight, d, dYScaled, exp, i, j);
      var index := i * d + j;
      dLogit[index] := Times(weightSample, exp(logProb[index]) - Indicator(labelSample == j));
    }
  }

  // ---------------------------------------------------------------------------
  // What the kernels compute

  /** Sample i's loss is the cross-entropy of its row: the row's
      log-sum-exp minus the logit of the labelled class. */
  lemma SampleLossIsCrossEntropy(logit: seq<real>, n: nat, d: nat, labels: seq<int>,
                                 exp: real -> real, log: real -> real, i: nat)
    requires |logit| == n * d && |labels| == n && IndexesInto(labels, d) && i < n
    ensures && 0 <= i * d + labels[i] < |logit|
            && SampleLoss(ComputeShareSoftmaxCrossEntropy(n, d, logit, exp, log), labels, None, d, i)
               == LogSumExp(Row(logit, d, i), exp, log) - logit[i * d + labels[i]]
  {
    LogProbIsLogitMinusLogSumExp(n, d, logit, exp, log, i, labels[i]);
    UnweightedSampleLoss(ComputeShareSoftmaxCrossEntropy(n, d, logit, exp, log), labels, d, i);
  }

  /** For a rank-3 logit [s0, s1, s2], sample (a, c) of the transposed
      working logits is scored against the class axis at (a, ., c): its loss
      is that axis's log-sum-exp minus the axis's entry at the label. */
  lemma Rank3SampleLoss(logit: seq<real>, s0: nat, s1: nat, s2: nat, labels: seq<int>,
                        exp: real -> real, log: real -> real, a: nat, c: nat)
    requires |logit| == s0 * s1 * s2 && |labels| == s0 * s2 && IndexesInto(labels, s1)
    requires a < s0 && c < s2
    ensures && |Transpose021(logit, s0, s1, s2)| == (s0 * s2) * s1
            && a * s2 + c < |labels|
            && SampleLoss(ComputeShareSoftmaxCrossEntropy(s0 * s2, s1, Transpose021(logit, s0, s1, s2), exp, log),
                          labels, None, s1, a * s2 + c)
               == LogSumExp(ClassAxis(logit, s0, s1, s2, a, c), exp, log)
                  - ClassAxis(logit, s0, s1, s2, a, c)[labels[a * s2 + c]]
  {
    SwapLastTwo(s0, s1, s2);
    IndexInBounds(a, c, s0, s2);
    var t := Transpose021(logit, s0, s1, s2);
    var i := a * s2 + c;
    TransposedRowIsClassAxis(logit, s0, s1, s2, a, c);
    RowAt(t, s0 * s2, s1, i, labels[i]);
    SampleLossIsCrossEntropy(t, s0 * s2, s1, labels, exp, log, i);
  }

  /** Dense one-hot labels for class indices: row i is 1 at column
      classes[i] and 0 elsewhere. */
  function OneHot(classes: seq<int>, d: nat): (r: seq<real>)
    ensures |r| == |classes| * d
  {
    seq(|classes| * d, k requires 0 <= k < |classes| * d =>
      SplitIndex(k, |classes|, d); Indicator(classes[k / d] == k % d))
  }

  /** A row with every entry but column c zeroed. */
  function Picked(v: seq<real>, c: int): seq<real> {
    seq(|v|, j requires 0 <= j < |v| => Indicator(c == j) * v[j])
  }

  lemma {:induction false} PickedSum(v: seq<real>, c: int)
    ensures SumOf(Picked(v, c)) == if 0 <= c < |v| then v[c] else 0.0
    decreases |v|
  {
    if |v| > 0 {
      var p := v[..|v| - 1];
      var picked := Picked(v, c);
      assert picked[..|v| - 1] == Picked(p, c) by {
        forall j | 0 <= j < |p| ensures picked[..|v| - 1][j] == Picked(p, c)[j] {
          assert p[j] == v[j];
        }
      }
      PickedSum(p, c);
      assert SumOf(picked) == SumOf(Picked(p, c)) + Indicator(c == |v| - 1) * v[|v| - 1];
    }
  }

  /** The first m - 1 rows of the products are the products of the first
      m - 1 rows. */
  lemma OneHotFrontRows(classes: seq<int>, lp: seq<real>, d: nat)
    requires |lp| == |classes| * d && |classes| > 0
    ensures var p := (|classes| - 1) * d;
            && 0 <= p <= |lp|
            && Mul(OneHot(classes, d), lp)[..p] == Mul(OneHot(classes[..|classes| - 1], d), lp[..p])
  {
    var m := |classes|;
    RowInBounds(m - 1, m, d);
    var p := (m - 1) * d;
    var prod := Mul(OneHot(classes, d), lp);
    var front := classes[..m - 1];
    var dense, denseFront := OneHot(classes, d), OneHot(front, d);
    assert |denseFront| == p;
    forall k | 0 <= k < p ensures prod[..p][k] == Mul(denseFront, lp[..p])[k] {
      SplitIndex(k, m - 1, d);
      assert dense[k] == Indicator(classes[k / d] == k % d);
      assert denseFront[k] == Indicator(front[k / d] == k % d);
    }
  }

  /** The last row of the products zeroes every column but the label's. */
  lemma OneHotLastRow(classes: seq<int>, lp: seq<real>, d: nat)
    requires |lp| == |classes| * d && |classes| > 0
    ensures var p := (|classes| - 1) * d;
            && 0 <= p && p + d == |lp|
            && Mul(OneHot(classes, d), lp)[p..] == Picked(Row(lp, d, |classes| - 1), classes[|classes| - 1])
  {
    var m := |classes|;
    RowInBounds(m - 1, m, d);
    var p := (m - 1) * d;
    assert p + d == m * d;
    var prod := Mul(OneHot(classes, d), lp);
    var row := Row(lp, d, m - 1);
    forall j | 0 <= j < d ensures prod[p..][j] == Picked(row, classes[m - 1])[j] {
      OneHotProductAt(classes, lp, d, m - 1, j);
    }
  }

  /** Entry (i, j) of the products is entry j of row i with every column
      but sample i's label zeroed. */
  lemma OneHotProductAt(classes: seq<int>, lp: seq<real>, d: nat, i: nat, j: nat)
    requires |lp| == |classes| * d && i < |classes| && j < d
    ensures i * d + j < |lp| && |Row(lp, d, i)| == d
    ensures Mul(OneHot(classes, d), lp)[i * d + j] == Picked(Row(lp, d, i), classes[i])[j]
  {
    RowAt(lp, |classes|, d, i, j);
    DivModOfIndex(i, j, d);
  }

  /** The per-sample losses of the first m - 1 samples read only the first
      m - 1 rows. */
  lemma SampleLossesFront(classes: seq<int>, lp: seq<real>, d: nat)
    requires |lp| == |classes| * d && |classes| > 0 && IndexesInto(classes, d)
    ensures var p := (|classes| - 1) * d;
            && 0 <= p <= |lp|
            && IndexesInto(classes[..|classes| - 1], d)
            && SampleLosses(lp, classes, None, d)[..|classes| - 1]
               == SampleLosses(lp[..p], classes[..|classes| - 1], None, d)
  {
    var m := |classes|;
    RowInBounds(m - 1, m, d);
    var p := (m - 1) * d;
    var front := classes[..m - 1];
    var losses := SampleLosses(lp, classes, None, d);
    assert IndexesInto(front, d);
    forall i | 0 <= i < m - 1 ensures losses[..m - 1][i] == SampleLosses(lp[..p], front, None, d)[i] {
      IndexInBounds(i, classes[i], m - 1, d);
    }
  }

  /** The loss of the last sample is the negated sum of its row with every
      column but the label's zeroed. */
  lemma LastSampleLossIsPicked(classes: seq<int>, lp: seq<real>, d: nat)
    requires |lp| == |classes| * d && |classes| > 0 && IndexesInto(classes, d)
    ensures SampleLosses(lp, classes, None, d)[|classes| - 1]
            == -SumOf(Picked(Row(lp, d, |classes| - 1), classes[|classes| - 1]))
  {
    var m := |classes|;
    var last := classes[m - 1];
    RowAt(lp, m, d, m - 1, last);
    PickedSum(Row(lp, d, m - 1), last);
  }

  /** Summing one-hot labels times log-probabilities picks, in every row,
      the log-probability of the labelled class. */
  lemma {:induction false} OneHotPicksLabelledClass(classes: seq<int>, lp: seq<real>, d: nat)
    requires |lp| == |classes| * d && IndexesInto(classes, d)
    ensures SumOf(Mul(OneHot(classes, d), lp)) == -SumOf(SampleLosses(lp, classes, None, d))
    decreases |classes|
  {
    var m := |classes|;
    var prod := Mul(OneHot(classes, d), lp);
    var losses := SampleLosses(lp, classes, None, d);
    if m == 0 {
      assert prod == [] && losses == [];
    } else {
      var p := (m - 1) * d;
      OneHotFrontRows(classes, lp, d);
      OneHotLastRow(classes, lp, d);
      SampleLossesFront(classes, lp, d);
      LastSampleLossIsPicked(classes, lp, d);
      var front, back := prod[..p], prod[p..];
      assert prod == front + back;
      SumOfConcat(front, back);
      OneHotPicksLabelledClass(classes[..m - 1], lp[..p], d);
      var lossFront := losses[..m - 1];
      assert SumOf(front) == -SumOf(lossFront);
      assert SumOf(back) == -losses[m - 1];
      assert SumOf(losses) == SumOf(lossFront) + losses[m - 1];
    }
  }

  /** SoftmaxCrossEntropy fed the one-hot encoding of class indices
      computes, under MEAN and SUM, the same log-probabilities and the same
      loss as SoftmaxCrossEntropyLoss fed the indices themselves. */
  lemma OneHotForwardAgreement(logit: seq<real>, labelShape: Shape, d: nat, classes: seq<int>,
                               reduction: Reduction, exp: real -> real, log: real -> real)
    requires |classes| == Size(labelShape) && |logit| == |classes| * d
    requires IndexesInto(classes, d) && reduction != ReduceNone
    ensures Size(labelShape + [d]) == |logit|
    ensures var shape := labelShape + [d];
            var dense := SoftmaxCrossEntropy(logit, shape, OneHot(classes, d), shape, reduction, exp, log);
            var logProb := ComputeShareSoftmaxCrossEntropy(|classes|, d, logit, exp, log);
            && dense.Ok?
            && dense.value.logProb == logProb
            && [dense.value.loss] == ReducedLoss(SampleLosses(logProb, classes, None, d), reduction,
                                                 LossNormaliser(classes, None))
  {
    var shape := labelShape + [d];
    SizeAppend(labelShape, d);
    assert shape[..|shape| - 1] == labelShape;
    var logProb := ComputeShareSoftmaxCrossEntropy(|classes|, d, logit, exp, log);
    OneHotPicksLabelledClass(classes, logProb, d);
    DenseLossReduces(SumOf(Mul(OneHot(classes, d), logProb)), SampleLosses(logProb, classes, None, d),
                     |classes|, reduction);
  }

  /** For a rank-2 logit the index-label kernel works on the logit as it is,
      so it and the dense kernel compute the same log-probabilities. */
  lemma Rank2WorkingLogits(logit: seq<real>, n: nat, d: nat)
    requires |logit| == n * d
    ensures Size([n, d]) == n * d && WorkingLogits(logit, [n, d]) == logit
  {
    SizeOfRank2([n, d]);
  }


  /** SoftmaxCrossEntropyGrad fed the one-hot encoding of class indices
      computes the same gradient as SoftmaxCrossEntropyLossGrad, unweighted,
      fed the indices themselves. */
  lemma OneHotGradientAgreement(dY: seq<real>, logProb: seq<real>, labelShape: Shape, d: nat,
                                classes: seq<int>, reduction: Reduction, exp: real -> real)
    requires |dY| > 0 && reduction != ReduceNone
    requires |classes| == Size(labelShape) && |logProb| == |classes| * d
    ensures Size(labelShape + [d]) == |logProb|
    ensures SoftmaxCrossEntropyGrad(dY, logProb, labelShape + [d], OneHot(classes, d), labelShape + [d],
                                    reduction, exp)
            == Ok(GradOutputs(labelShape + [d],
                              LossGradient(logProb, classes, None, d, GradScale(dY[0], |classes|, None, reduction), exp)))
  {
    var shape := labelShape + [d];
    SizeAppend(labelShape, d);
    assert shape[..|shape| - 1] == labelShape;
    var dense := SoftmaxCrossEntropyGrad(dY, logProb, shape, OneHot(classes, d), shape, reduction, exp);
    var sparse := LossGradient(logProb, classes, None, d, GradScale(dY[0], |classes|, None, reduction), exp);
    assert dense.value.dLogit == sparse by {
      forall k | 0 <= k < |logProb| ensures dense.value.dLogit[k] == sparse[k] {
        SplitIndex(k, |classes|, d);
      }
    }
  }

  // ---------------------------------------------------------------------------
  // Weights

  function Scaled(s: seq<real>, c: real): seq<real> {
    seq(|s|, i requires 0 <= i < |s| => s[i] * c)
  }

  lemma {:induction false} SumOfScaled(s: seq<real>, c: real)
    ensures SumOf(Scaled(s, c)) == SumOf(s) * c
    decreases |s|
  {
    if |s| > 0 {
      var t, tf, ts, f, x := SnocTotals(s, c);
      SumOfScaled(s[..|s| - 1], c);
      Distribute(t, tf, ts, f, x, c);
    }
  }

  lemma {:induction false} UniformAppliedWeightSum(labels: seq<int>, w: seq<real>, c: real, m: nat)
    requires m <= |labels| && IndexesInto(labels, |w|)
    requires forall k :: 0 <= k < |w| ==> w[k] == c
    ensures AppliedWeightSum(labels, w, m) == (m as real) * c
  {
    if m > 0 {
      UniformAppliedWeightSum(labels, w, c, m - 1);
    }
  }

  /** Weights that are the same for every class scale each per-sample loss
      by that weight; unit weights change nothing. */
  lemma UniformWeightsScaleLosses(logProb: seq<real>, labels: seq<int>, w: seq<real>, d: nat, c: real)
    requires |logProb| == |labels| * d && IndexesInto(labels, d) && IndexesInto(labels, |w|)
    requires forall k :: 0 <= k < |w| ==> w[k] == c
    ensures SampleLosses(logProb, labels, Some(w), d) == Scaled(SampleLosses(logProb, labels, None, d), c)
    ensures c == 1.0 ==> SampleLosses(logProb, labels, Some(w), d) == SampleLosses(logProb, labels, None, d)
  {
    var weighted := SampleLosses(logProb, labels, Some(w), d);
    var plain := SampleLosses(logProb, labels, None, d);
    assert weighted == Scaled(plain, c) by {
      forall i | 0 <= i < |labels| ensures weighted[i] == Scaled(plain, c)[i] {
        WeightedSampleLoss(logProb, labels, w, d, i);
      }
    }
    if c == 1.0 {
      assert weighted == plain;
    }
  }

  /** With weights that are the same for every class, the MEAN divisor is
      the unweighted one, N, times that weight. */
  lemma UniformNormaliser(labels: seq<int>, w: seq<real>, c: real)
    requires IndexesInto(labels, |w|)
    requires forall k :: 0 <= k < |w| ==> w[k] == c
    ensures LossNormaliser(labels, Some(w)) == LossNormaliser(labels, None) * c
  {
    UniformAppliedWeightSum(labels, w, c, |labels|);
  }

  /** With weights that are the same for every class, SUM scales by that
      weight. */
  lemma UniformWeightsSum(logProb: seq<real>, labels: seq<int>, w: seq<real>, d: nat, c: real)
    requires |logProb| == |labels| * d && IndexesInto(labels, d) && IndexesInto(labels, |w|)
    requires forall k :: 0 <= k < |w| ==> w[k] == c
    ensures ReducedLoss(SampleLosses(logProb, labels, Some(w), d), ReduceSum, LossNormaliser(labels, Some(w)))
            == [Times(Finite(SumOf(SampleLosses(logProb, labels, None, d))), c)]
  {
    var weighted, plain := SampleLosses(logProb, labels, Some(w), d), SampleLosses(logProb, labels, None, d);
    UniformWeightsScaleLosses(logProb, labels, w, d, c);
    ScaledSum(plain, c, LossNormaliser(labels, Some(w)));
    assert weighted == Scaled(plain, c);
  }

  /** With weights that are the same for every class, MEAN is the
      unweighted MEAN unless the weight is zero. */
  lemma UniformWeightsMean(logProb: seq<real>, labels: seq<int>, w: seq<real>, d: nat, c: real)
    requires |logProb| == |labels| * d && IndexesInto(labels, d) && IndexesInto(labels, |w|)
    requires forall k :: 0 <= k < |w| ==> w[k] == c
    ensures c != 0.0 ==>
              ReducedLoss(SampleLosses(logProb, labels, Some(w), d), ReduceMean, LossNormaliser(labels, Some(w)))
              == ReducedLoss(SampleLosses(logProb, labels, None, d), ReduceMean, LossNormaliser(labels, None))
  {
    if c != 0.0 {
      var weighted, plain := SampleLosses(logProb, labels, Some(w), d), SampleLosses(logProb, labels, None, d);
      var n, nw := LossNormaliser(labels, None), LossNormaliser(labels, Some(w));
      UniformWeightsScaleLosses(logProb, labels, w, d, c);
      UniformNormaliser(labels, w, c);
      ScaledMean(plain, n, c);
      assert weighted == Scaled(plain, c) && nw == n * c;
    }
  }

  /** Scaling every loss scales SUM. */
  lemma ScaledSum(plain: seq<real>, c: real, n: real)
    ensures ReducedLoss(Scaled(plain, c), ReduceSum, n) == [Times(Finite(SumOf(plain)), c)]
  {
    var t, tc := ScaledTotals(plain, c);
    SumFromTotal(Scaled(plain, c), tc, n);
    TimesFinite(t, tc, c);
  }

  /** Scaling every loss and the divisor by the same non-zero factor leaves
      MEAN unchanged. */
  lemma ScaledMean(plain: seq<real>, n: real, c: real)
    requires c != 0.0
    ensures ReducedLoss(Scaled(plain, c), ReduceMean, n * c) == ReducedLoss(plain, ReduceMean, n)
  {
    var t, tc := ScaledTotals(plain, c);
    DivideByCommonFactor(t, tc, n, n * c, c);
    MeanFromTotals(Scaled(plain, c), tc, n * c, plain, t, n);
  }

  /** Per-sample weights gathered from per-class weights: sample i gets the
      weight of its labelled class. */
  function GatheredWeights(labels: seq<int>, w: seq<real>): (r: seq<real>)
    requires IndexesInto(labels, |w|)
    ensures |r| == |labels|
  {
    seq(|labels|, i requires 0 <= i < |labels| => w[labels[i]])
  }

  lemma {:induction false} GatheredPrefixSum(labels: seq<int>, w: seq<real>, m: nat)
    requires IndexesInto(labels, |w|) && m <= |labels|
    ensures SumOf(GatheredWeights(labels, w)[..m]) == AppliedWeightSum(labels, w, m)
  {
    if m > 0 {
      var g := GatheredWeights(labels, w);
      assert g[..m][..m - 1] == g[..m - 1];
      GatheredPrefixSum(labels, w, m - 1);
    }
  }

  /** The gradient takes weights per sample, the forward loss per class.
      Gathering the class weights per sample makes the gradient's MEAN
      divisor the forward loss's MEAN divisor. */
  lemma GatheredWeightsNormaliseAlike(labels: seq<int>, w: seq<real>, dY0: real)
    requires IndexesInto(labels, |w|)
    ensures SumOf(GatheredWeights(labels, w)) == LossNormaliser(labels, Some(w))
    ensures GradScale(dY0, |labels|, Some(GatheredWeights(labels, w)), ReduceMean)
            == Divide(dY0, LossNormaliser(labels, Some(w)))
  {
    var g := GatheredWeights(labels, w);
    assert g[..|labels|] == g;
    GatheredPrefixSum(labels, w, |labels|);
  }

  // ---------------------------------------------------------------------------
  // Gradient rows

  /** The values of a row of finite numbers (0 stands for a non-finite one). */
  function Values(s: seq<Num>): seq<real> {
    seq(|s|, k requires 0 <= k < |s| => if s[k].Finite? then s[k].value else 0.0)
  }

  lemma {:induction false} SumOfSub(a: seq<real>, b: seq<real>)
    requires |a| == |b|
    ensures SumOf(Sub(a, b)) == SumOf(a) - SumOf(b)
    decreases |a|
  {
    if |a| > 0 {
      var a', b' := a[..|a| - 1], b[..|b| - 1];
      var diff := Sub(a, b);
      assert diff[..|a| - 1] == Sub(a', b') by {
        forall k | 0 <= k < |a'| ensures diff[..|a| - 1][k] == Sub(a', b')[k] {
          assert a'[k] == a[k] && b'[k] == b[k];
        }
      }
      SumOfSub(a', b');
      assert SumOf(diff) == SumOf(Sub(a', b')) + (a[|a| - 1] - b[|b| - 1]);
    }
  }

  /** The indicator row of class c among d classes. */
  function IndicatorRow(c: int, d: nat): seq<real> {
    seq(d, j requires 0 <= j < d => Indicator(c == j))
  }

  lemma {:induction false} IndicatorRowSum(c: int, d: nat)
    ensures SumOf(IndicatorRow(c, d)) == if 0 <= c < d then 1.0 else 0.0
  {
    if d > 0 {
      var row := IndicatorRow(c, d);
      assert row[..d - 1] == IndicatorRow(c, d - 1);
      IndicatorRowSum(c, d - 1);
      assert SumOf(row) == SumOf(IndicatorRow(c, d - 1)) + Indicator(c == d - 1);
    }
  }

  /** Entry j of row i of the gradient. */
  lemma GradientRowEntry(logProb: seq<real>, labels: seq<int>, weight: Option<seq<real>>, d: nat,
                         scale: Num, exp: real -> real, i: nat, j: nat)
    requires |logProb| == |labels| * d && i < |labels| && j < d
    requires weight.Some? ==> |weight.value| == |labels|
    ensures && |Row(logProb, d, i)| == d
            && |Row(LossGradient(logProb, labels, weight, d, scale, exp), d, i)| == d
            && Row(LossGradient(logProb, labels, weight, d, scale, exp), d, i)[j]
               == Times(SampleScale(scale, weight, i), exp(Row(logProb, d, i)[j]) - Indicator(labels[i] == j))
  {
    var n := |labels|;
    RowAt(LossGradient(logProb, labels, weight, d, scale, exp), n, d, i, j);
    RowAt(logProb, n, d, i, j);
    LossGradientAt(logProb, labels, weight, d, scale, exp, i, j);
  }

  /** Every entry of row i of the gradient. */
  lemma GradientRowEntries(logProb: seq<real>, labels: seq<int>, weight: Option<seq<real>>, d: nat,
                           scale: Num, exp: real -> real, i: nat)
    requires |logProb| == |labels| * d && i < |labels|
    requires weight.Some? ==> |weight.value| == |labels|
    ensures var row := Row(LossGradient(logProb, labels, weight, d, scale, exp), d, i);
            && |Row(logProb, d, i)| == d && |row| == d
            && forall j :: 0 <= j < d ==>
                 row[j] == Times(SampleScale(scale, weight, i), exp(Row(logProb, d, i)[j]) - Indicator(labels[i] == j))
  {
    RowInBounds(i, |labels|, d);
    forall j | 0 <= j < d
      ensures Row(LossGradient(logProb, labels, weight, d, scale, exp), d, i)[j]
              == Times(SampleScale(scale, weight, i), exp(Row(logProb, d, i)[j]) - Indicator(labels[i] == j))
    {
      GradientRowEntry(logProb, labels, weight, d, scale, exp, i, j);
    }
  }

  /** Row i of the gradient for a finite dY_scaled holds, at column j, the
      row scale times exp(log_prob) minus the label indicator. */
  lemma GradientRowValues(logProb: seq<real>, labels: seq<int>, weight: Option<seq<real>>, d: nat,
                          c: real, exp: real -> real, i: nat)
    requires |logProb| == |labels| * d && i < |labels|
    requires weight.Some? ==> |weight.value| == |labels|
    ensures var row := Row(LossGradient(logProb, labels, weight, d, Finite(c), exp), d, i);
            && 0 <= i * d && i * d + d <= |logProb|
            && (forall g :: g in row ==> g.Finite?)
            && Values(row) == Scaled(Sub(Apply(Row(logProb, d, i), exp), IndicatorRow(labels[i], d)),
                                     SampleScale(Finite(c), weight, i).value)
  {
    RowInBounds(i, |labels|, d);
    GradientRowEntries(logProb, labels, weight, d, Finite(c), exp, i);
    var row := Row(LossGradient(logProb, labels, weight, d, Finite(c), exp), d, i);
    var lpRow := Row(logProb, d, i);
    var rowScale := SampleScale(Finite(c), weight, i).value;
    var diff := Sub(Apply(lpRow, exp), IndicatorRow(labels[i], d));
    forall j | 0 <= j < d
      ensures row[j] == Times(Finite(rowScale), diff[j])
    {
      assert diff[j] == exp(lpRow[j]) - Indicator(labels[i] == j);
    }
    FiniteRowValues(row, diff, rowScale);
  }

  /** A row of entries r * diff[j] is finite and has the values of diff scaled by r. */
  lemma FiniteRowValues(row: seq<Num>, diff: seq<real>, r: real)
    requires |row| == |diff|
    requires forall j :: 0 <= j < |row| ==> row[j] == Times(Finite(r), diff[j])
    ensures (forall g :: g in row ==> g.Finite?) && Values(row) == Scaled(diff, r)
  {
    forall g | g in row ensures g.Finite? {
      var j :| 0 <= j < |row| && row[j] == g;
    }
    forall j | 0 <= j < |row| ensures Values(row)[j] == Scaled(diff, r)[j] {
      assert r * diff[j] == diff[j] * r;
    }
  }

  /** When a sample's probabilities sum to one and its label is a class
      index, its row of the gradient is finite and sums to zero for any
      finite dY_scaled, weighted or not. */
  lemma GradientRowSumsToZero(logProb: seq<real>, labels: seq<int>, weight: Option<seq<real>>, d: nat,
                              c: real, exp: real -> real, i: nat)
    requires |logProb| == |labels| * d && i < |labels| && 0 <= labels[i] < d
    requires weight.Some? ==> |weight.value| == |labels|
    requires SumOf(Apply(Row(logProb, d, i), exp)) == 1.0
    ensures forall g :: g in Row(LossGradient(logProb, labels, weight, d, Finite(c), exp), d, i) ==> g.Finite?
    ensures SumOf(Values(Row(LossGradient(logProb, labels, weight, d, Finite(c), exp), d, i))) == 0.0
  {
    var probs := Apply(Row(logProb, d, i), exp);
    var target := IndicatorRow(labels[i], d);
    RowInBounds(i, |labels|, d);
    GradientRowValues(logProb, labels, weight, d, c, exp, i);
    var diff := Sub(probs, target);
    var rowScale := SampleScale(Finite(c), weight, i).value;
    SumOfSub(probs, target);
    IndicatorRowSum(labels[i], d);
    assert SumOf(diff) == 0.0;
    SumOfScaled(diff, rowScale);
    assert SumOf(Scaled(diff, rowScale)) == 0.0 * rowScale == 0.0;
  }

  // ---------------------------------------------------------------------------
  // Real-arithmetic proof helpers. They model no step of the kernels: each
  // names sums or quotients as plain reals so that the lemmas above reason
  // about small real goals instead of nonlinear goals over SumOf.

  /** The sums of s and of s scaled by c, each split off at its last
      element, named so that SumOfScaled can reason on plain reals. */
  lemma SnocTotals(s: seq<real>, c: real) returns (t: real, tf: real, ts: real, f: real, x: real)
    requires |s| > 0
    ensures t == SumOf(Scaled(s, c)) && tf == SumOf(Scaled(s[..|s| - 1], c))
    ensures ts == SumOf(s) && f == SumOf(s[..|s| - 1]) && x == s[|s| - 1]
    ensures t == tf + x * c && ts == f + x
  {
    var scaled := Scaled(s, c);
    ScaledFront(s, c);
    assert SumOf(scaled) == SumOf(scaled[..|s| - 1]) + scaled[|s| - 1];
    t, tf, ts, f, x := SumOf(scaled), SumOf(Scaled(s[..|s| - 1], c)), SumOf(s), SumOf(s[..|s| - 1]), s[|s| - 1];
  }

  lemma ScaledFront(s: seq<real>, c: real)
    requires |s| > 0
    ensures Scaled(s, c)[..|s| - 1] == Scaled(s[..|s| - 1], c)
    ensures Scaled(s, c)[|s| - 1] == s[|s| - 1] * c
  {
    var scaled, front := Scaled(s, c), s[..|s| - 1];
    forall i | 0 <= i < |front| ensures scaled[..|s| - 1][i] == Scaled(front, c)[i] {
      assert front[i] == s[i];
    }
  }

  /** One step of SumOfScaled on plain reals: if the sum of the scaled
      front is the front's sum times c, so is the whole sum. */
  lemma Distribute(total: real, fc: real, totalS: real, f: real, last: real, c: real)
    requires total == fc + last * c && totalS == f + last && fc == f * c
    ensures total == totalS * c
  {
  }

  /** The sums of a sequence and of its scaled copy, as plain reals. */
  lemma ScaledTotals(s: seq<real>, c: real) returns (t: real, tc: real)
    ensures t == SumOf(s) && tc == SumOf(Scaled(s, c)) && tc == t * c
  {
    SumOfScaled(s, c);
    t, tc := SumOf(s), SumOf(Scaled(s, c));
  }

  lemma TimesFinite(t: real, tc: real, c: real)
    requires tc == t * c
    ensures Times(Finite(t), c) == Finite(tc)
  {
  }

  /** SUM depends on the losses only through their sum. */
  lemma SumFromTotal(a: seq<real>, ta: real, n: real)
    requires ta == SumOf(a)
    ensures ReducedLoss(a, ReduceSum, n) == [Finite(ta)]
  {
  }

  /** MEAN depends on the losses only through their sum. */
  lemma MeanFromTotals(a: seq<real>, ta: real, na: real, b: seq<real>, tb: real, nb: real)
    requires ta == SumOf(a) && tb == SumOf(b) && Divide(ta, na) == Divide(tb, nb)
    ensures ReducedLoss(a, ReduceMean, na) == ReducedLoss(b, ReduceMean, nb)
  {
  }

  /** Scaling dividend and divisor by the same non-zero factor does not
      change a float division, by zero or not. */
  lemma DivideByCommonFactor(t: real, tc: real, n: real, nc: real, c: real)
    requires c != 0.0 && tc == t * c && nc == n * c
    ensures Divide(tc, nc) == Divide(t, n)
  {
    if n != 0.0 {
      CancelCommonFactor(t, n, c);
    } else {
      assert n * c == 0.0;
    }
  }

  lemma NegatedDivisor(t: real, n: real)
    requires n != 0.0
    ensures t / -n == -t / n
  {
    var q := t / n;
    assert t == q * n;
    assert -t == (-q) * n;
    assert t == (-q) * -n;
  }

  lemma CancelCommonFactor(t: real, n: real, c: real)
    requires n != 0.0 && c != 0.0
    ensures n * c != 0.0 && (t * c) / (n * c) == t / n
  {
    var q := t / n;
    assert t == q * n;
    assert t * c == q * (n * c);
  }
}
