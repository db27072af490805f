/** Subsequences: what an order-preserving selection over a list returns. */
module Sequences {

  /** The elements of `ys` whose position is marked `true` in `mask`, in order. */
  function Masked<T>(ys: seq<T>, mask: seq<bool>): (xs: seq<T>)
    requires |mask| == |ys|
    ensures |xs| <= |ys|
  {
    if ys == [] then []
    else
      var n := |ys| - 1;
      Masked(ys[..n], mask[..n]) + (if mask[n] then [ys[n]] else [])
  }

  /** `xs` is obtained from `ys` by deleting some elements and keeping the rest in order. */
  ghost predicate IsSubsequence<T>(xs: seq<T>, ys: seq<T>) {
    exists mask :: |mask| == |ys| && Masked(ys, mask) == xs
  }
}
