/** Tensor shapes as both parts of the model read them. */
module TensorShapes {

  /** The dimensions of a tensor, outermost first. */
  type Shape = seq<nat>

  /** The element count of a shape: the product of its dimensions (1 for a
      scalar). */
  function Size(s: Shape): nat {
    if |s| == 0 then 1 else s[0] * Size(s[1..])
  }

  /** Concatenating shapes multiplies their element counts. */
  lemma {:induction false} SizeConcat(a: Shape, b: Shape)
    ensures Size(a + b) == Size(a) * Size(b)
    decreases |a|
  {
    if |a| == 0 {
      assert a + b == b;
    } else {
      assert (a + b)[1..] == a[1..] + b;
      SizeConcat(a[1..], b);
      assert a[0] * (Size(a[1..]) * Size(b)) == (a[0] * Size(a[1..])) * Size(b);
    }
  }
}
