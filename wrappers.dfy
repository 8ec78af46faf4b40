/** Optional values and results with an error, as used across the model. */
module Wrappers {

  datatype Option<+T> = None | Some(value: T)

  datatype Result<+T, +E> = Success(value: T) | Failure(error: E)
}

/** Order-preserving selection from a sequence. */
module Subsequences {

  /** The elements of `b` whose flag in `keep` is set, in their order in `b`: every
      subsequence of `b` is `Select(b, keep)` for some `keep`. */
  function Select<T>(b: seq<T>, keep: seq<bool>): (a: seq<T>)
    requires |keep| == |b|
    ensures |a| <= |b|
  {
    if b == [] then []
    else Select(b[..|b| - 1], keep[..|keep| - 1]) + (if keep[|keep| - 1] then [b[|b| - 1]] else [])
  }

  lemma SelectSnoc<T>(b: seq<T>, keep: seq<bool>, x: T, k: bool)
    requires |keep| == |b|
    ensures Select(b + [x], keep + [k]) == Select(b, keep) + (if k then [x] else [])
  {
    assert (b + [x])[..|b|] == b;
    assert (keep + [k])[..|keep|] == keep;
  }
}
