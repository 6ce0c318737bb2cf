/**
 The end of a sequence, for histories of bounded length.
 */
module Sequences {
  /** The last n entries, or all. */
  function LastOf<T>(s: seq<T>, n: nat): (r: seq<T>)
    ensures |r| <= n && |r| <= |s|
  {
    if |s| <= n then s else s[|s| - n..]
  }
}
