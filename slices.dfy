/** Python's slice notation on lists, including negative and out-of-range bounds. */
module Slices {

  function Min(a: int, b: int): int { if a <= b then a else b }

  /** How Python normalises one bound of a slice of a list of length `n`: a negative bound
      counts from the end, and the result is clamped to `0..n`. */
  function Bound(x: int, n: nat): (b: nat)
    ensures b <= n
  {
    if x < 0 then (if x + n < 0 then 0 else x + n)
    else if x > n then n
    else x
  }

  /** `s[lo:hi]`. */
  function Slice<T>(s: seq<T>, lo: int, hi: int): seq<T> {
    var a := Bound(lo, |s|);
    var b := Bound(hi, |s|);
    if a < b then s[a..b] else []
  }

  /** `s[:k]`. */
  function Prefix<T>(s: seq<T>, k: int): seq<T> {
    s[..Bound(k, |s|)]
  }

  /** `s[:k]` keeps the first `k` elements when `k` is not negative, and drops the last `-k`
      elements otherwise; it is always a prefix of `s`. */
  lemma PrefixLength<T>(s: seq<T>, k: int)
    ensures Prefix(s, k) <= s
    ensures k >= 0 ==> |Prefix(s, k)| == Min(k, |s|)
    ensures k < 0 ==> |Prefix(s, k)| == if |s| + k < 0 then 0 else |s| + k
  {
  }

  /** A slice whose bounds are already inside the list is the plain subsequence. */
  lemma SliceInside<T>(s: seq<T>, lo: int, hi: int)
    requires 0 <= lo < |s| && lo < hi
    ensures Slice(s, lo, hi) == s[lo..Min(hi, |s|)]
  {
  }
}
