/**
 * Row-major index arithmetic: an n-by-d buffer stores entry (i, j) at flat
 * index i*d + j, and flat index k holds row k / d, column k % d.
 */
module FlatIndex {

  lemma MulMonotone(a: nat, b: nat, c: nat)
    requires a <= b
    ensures a * c <= b * c
  {
    assert b * c == a * c + (b - a) * c;
  }

  /** Row i of an n-by-d buffer ends inside the buffer. */
  lemma RowInBounds(i: nat, n: nat, d: nat)
    requires i < n
    ensures 0 <= i * d && i * d + d <= n * d
  {
    assert i * d + d == (i + 1) * d;
    MulMonotone(i + 1, n, d);
  }

  /** Entry (i, j) of an n-by-d buffer lies inside it. */
  lemma IndexInBounds(i: nat, j: nat, n: nat, d: nat)
    requires i < n && j < d
    ensures 0 <= i * d + j < n * d
  {
    RowInBounds(i, n, d);
  }

  /** Flat index i*d + j holds row i, column j. */
  lemma DivModOfIndex(i: nat, j: nat, d: nat)
    requires j < d
    ensures (i * d + j) / d == i && (i * d + j) % d == j
  {
    var k := i * d + j;
    var q, r := k / d, k % d;
    assert k == q * d + r;
    if q > i {
      MulMonotone(i + 1, q, d);
      assert false;
    } else if q < i {
      MulMonotone(q + 1, i, d);
      assert false;
    }
  }

  /** Every flat index of an n-by-d buffer splits into a row below n and a
      column below d. */
  lemma SplitIndex(k: nat, n: nat, d: nat)
    requires k < n * d
    ensures 0 < d && k / d < n && k % d < d && (k / d) * d + k % d == k
  {
    var q := k / d;
    if q >= n {
      MulMonotone(n, q, d);
      assert false;
    }
  }

  /** The element count of an s0 x s1 x s2 buffer does not depend on the
      order of its last two dimensions. */
  lemma SwapLastTwo(s0: nat, s1: nat, s2: nat)
    ensures s0 * s1 * s2 == s0 * s2 * s1
  {
    assert s0 * s1 * s2 == s0 * (s1 * s2);
    assert s0 * s2 * s1 == s0 * (s2 * s1);
  }

  /** Entry (a, b, c) of an s0 x s1 x s2 buffer lies inside it. */
  lemma Index3InBounds(a: nat, b: nat, c: nat, s0: nat, s1: nat, s2: nat)
    requires a < s0 && b < s1 && c < s2
    ensures 0 <= (a * s1 + b) * s2 + c < s0 * s1 * s2
  {
    IndexInBounds(a, b, s0, s1);
    IndexInBounds(a * s1 + b, c, s0 * s1, s2);
  }
}
