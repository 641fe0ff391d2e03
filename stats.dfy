/**
 * Small aggregate functions over sequences of integer percentages, shared by
 * the sparkline helpers and the daily roll-up. Every recursive definition
 * peels the LAST element, so that a loop walking a sequence left to right can
 * keep `acc == F(s[..i])` as its invariant.
 */
module Stats {

  /** Largest element of a non-empty sequence (Python's `max`, SQL's `MAX`). */
  function MaxOf(s: seq<int>): (m: int)
    requires s != []
    ensures m in s
    ensures forall i :: 0 <= i < |s| ==> s[i] <= m
  {
    if |s| == 1 then s[0]
    else
      var m' := MaxOf(s[..|s| - 1]);
      if s[|s| - 1] > m' then s[|s| - 1] else m'
  }

  /** Smallest element of a non-empty sequence (Python's `min`). */
  function MinOf(s: seq<int>): (m: int)
    requires s != []
    ensures m in s
    ensures forall i :: 0 <= i < |s| ==> m <= s[i]
  {
    if |s| == 1 then s[0]
    else
      var m' := MinOf(s[..|s| - 1]);
      if s[|s| - 1] < m' then s[|s| - 1] else m'
  }

  /** Sum of the elements (SQL's `SUM`). */
  function Sum(s: seq<int>): int
  {
    if s == [] then 0 else Sum(s[..|s| - 1]) + s[|s| - 1]
  }

  /** Number of elements at or above `limit` (`SUM(CASE WHEN pct >= limit THEN 1 ELSE 0 END)`). */
  function CountAtLeast(s: seq<int>, limit: int): (n: nat)
    ensures n <= |s|
  {
    if s == [] then 0
    else CountAtLeast(s[..|s| - 1], limit) + (if s[|s| - 1] >= limit then 1 else 0)
  }

  /** Euclidean division of a non-negative number brackets it between multiples. */
  lemma DivBounds(a: int, b: int)
    requires a >= 0 && b > 0
    ensures 0 <= a / b && (a / b) * b <= a < (a / b) * b + b
  {
  }

  /**
   * Integer division truncating toward zero, as SQLite's `CAST(x AS INTEGER)`
   * applies to a quotient (Dafny's own `/` rounds toward minus infinity).
   */
  function TruncDiv(a: int, b: int): (q: int)
    requires b > 0
    ensures a >= 0 ==> q >= 0 && q * b <= a < q * b + b
    ensures a < 0 ==> q <= 0 && q * b - b < a <= q * b
  {
    if a >= 0 then DivBounds(a, b); a / b
    else DivBounds(-a, b); -((-a) / b)
  }
}
