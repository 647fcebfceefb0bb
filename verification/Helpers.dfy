/** Small definitions that several modules use. */
module Helpers {
  datatype Option<T> = None | Some(value: T)

  function Min(a: nat, b: nat): nat {
    if a < b then a else b
  }

  /** `memset`: `n` times `v`. */
  function Repeat<T>(v: T, n: nat): (s: seq<T>)
    ensures |s| == n && forall i | 0 <= i < n :: s[i] == v
  {
    if n == 0 then [] else Repeat(v, n - 1) + [v]
  }
}
