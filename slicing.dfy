/** Python's slicing and negative indexing, for the non-negative bounds the model uses. */
module Slicing {
  import opened Wrappers

  function Min(a: int, b: int): int { if a <= b then a else b }
  function Max(a: int, b: int): int { if a <= b then b else a }

  /**
   * `s[start:stop]`: both bounds are clipped to the length, and a stop at
   * or before the start gives the empty slice.
   */
  function Slice<T>(s: seq<T>, start: nat, stop: nat): (r: seq<T>)
    ensures |r| == Max(0, Min(stop, |s|) - start)
    ensures forall k :: 0 <= k < |r| ==> r[k] == s[start + k]
  {
    if |s| <= start || stop <= start then [] else s[start..Min(stop, |s|)]
  }

  /** `s[k]` for an integer `k`: a negative index counts from the end; out of range raises. */
  function WrapIndex(k: int, n: nat): (r: Option<nat>)
    ensures r.Some? <==> -(n as int) <= k < n
    ensures r.Some? ==> r.value < n && r.value as int == (if k < 0 then k + n else k)
  {
    if 0 <= k < n then Some(k) else if -(n as int) <= k < 0 then Some(k + n) else None
  }
}
