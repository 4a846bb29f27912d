/**
 * The part of ECMAScript string semantics the contact form relies on:
 * `String.prototype.slice` (ECMA-262, String.prototype.slice) with its
 * clamping of negative and out-of-range indices, and a reference
 * definition of "ends with" to compare it against.
 */
module JsString {

  /**
   * The clamp `slice` applies to each of its arguments: a negative index
   * counts back from the end of the string and stops at 0, a non-negative
   * one stops at the length.
   */
  function RelativeIndex(i: int, len: nat): (k: nat)
    ensures k <= len
    ensures 0 <= i <= len ==> k == i
    ensures i < 0 && 0 <= len + i ==> k == len + i
    ensures len + i < 0 ==> k == 0
    ensures len < i ==> k == len
  {
    if i < 0 then (if len + i < 0 then 0 else len + i)
    else if i > len then len
    else i
  }

  /** `s.slice(start, end)`: the characters from the clamped start up to the clamped end. */
  function Slice(s: string, start: int, end: int): (r: string)
    ensures |r| <= |s|
    ensures 0 <= start <= end <= |s| ==> r == s[start..end]
    ensures 0 <= end <= start ==> r == []
  {
    var from := RelativeIndex(start, |s|);
    var to := RelativeIndex(end, |s|);
    if from < to then s[from..to] else []
  }

  /** Reference meaning of "`s` ends with `suffix`". */
  predicate EndsWith(s: string, suffix: string)
  {
    |suffix| <= |s| && s[|s| - |suffix|..] == suffix
  }

  /**
   * Slicing the last `k` characters, `s.slice(s.length - k, s.length)`.
   * When `k` exceeds the length the start is negative and is counted back
   * from the end a second time (clamped at 0), so what comes back is a
   * suffix of `s` strictly shorter than `k`, never an error; when `k` is at
   * least twice the length, that suffix is the whole string.
   */
  lemma TailSlice(s: string, k: nat)
    ensures k <= |s| ==> Slice(s, |s| - k, |s|) == s[|s| - k..]
    ensures |s| < k ==> |Slice(s, |s| - k, |s|)| < k
    ensures |s| < k ==> Slice(s, |s| - k, |s|) == s[RelativeIndex(|s| - k, |s|)..]
    ensures 2 * |s| <= k ==> Slice(s, |s| - k, |s|) == s
  {
    var from := RelativeIndex(|s| - k, |s|);
    if from == |s| {
      assert Slice(s, |s| - k, |s|) == [] == s[from..];
    }
  }

  /** The tail-slice comparison `s.slice(s.length - |t|, s.length) === t` decides `EndsWith(s, t)`. */
  lemma TailSliceDecidesEndsWith(s: string, t: string)
    ensures Slice(s, |s| - |t|, |s|) == t <==> EndsWith(s, t)
  {
    TailSlice(s, |t|);
  }
}
