/** Bounded buffers. */
module Buffers {

  /** What is left of a sequence where there is room for n elements. */
  function Cut<T>(s: seq<T>, n: nat): seq<T> { if |s| <= n then s else s[..n] }
}
