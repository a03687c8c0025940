/**
 The positions 0 .. n-1, and facts about row-major positions in a grid of rows of
 equal width, which the PyVRP edge loop needs.
 */
module Arithmetic {

  /** 0, 1, ..., n-1. */
  function Range(n: nat): (r: seq<int>)
    ensures |r| == n && forall k :: 0 <= k < n ==> r[k] == k
  {
    seq(n, k => k)
  }

  lemma {:induction false} MulMonotone(a: nat, b: nat, c: nat)
    requires a <= b
    ensures a * c <= b * c
    decreases b - a
  {
    if a < b {
      MulMonotone(a, b - 1, c);
      assert b * c == (b - 1) * c + c;
    }
  }

  /** Offset j' of an earlier row i' comes before every position of row i. */
  lemma RowMajorBefore(width: nat, i': nat, j': nat, i: nat)
    requires i' < i && j' < width
    ensures i' * width + j' < i * width
  {
    MulMonotone(i' + 1, i, width);
    assert (i' + 1) * width == i' * width + width;
  }
}
