/** Small numeric helpers shared by the model: numpy's min/max/clip on reals,
    counting and summing over sequences. */
module Numeric {

  datatype Option<T> = None | Some(value: T)

  function Min(a: real, b: real): (r: real)
    ensures r <= a && r <= b
    ensures r == a || r == b
  {
    if a <= b then a else b
  }

  function Max(a: real, b: real): (r: real)
    ensures r >= a && r >= b
    ensures r == a || r == b
  {
    if a >= b then a else b
  }

  /** numpy's clip: raise to `lo` first, then cut at `hi`. */
  function Clip(x: real, lo: real, hi: real): (r: real)
    ensures r <= hi
    ensures lo <= hi ==> lo <= r
    ensures lo <= x <= hi ==> r == x
    ensures x < lo && lo <= hi ==> r == lo
    ensures hi < x ==> r == hi
  {
    Min(Max(x, lo), hi)
  }

  lemma ClipMonotone(x: real, y: real, lo: real, hi: real)
    requires x <= y
    ensures Clip(x, lo, hi) <= Clip(y, lo, hi)
  {
  }

  /** numpy's clip on integers (used for bin indices). */
  function ClipInt(x: int, lo: int, hi: int): (r: int)
    requires lo <= hi
    ensures lo <= r <= hi
    ensures lo <= x <= hi ==> r == x
  {
    if x < lo then lo else if x > hi then hi else x
  }

  /** Number of elements strictly below `t` (numpy: `np.sum(s < t)`). */
  function CountBelow(s: seq<real>, t: real): (n: nat)
    ensures n <= |s|
  {
    if s == [] then 0
    else CountBelow(s[..|s| - 1], t) + (if s[|s| - 1] < t then 1 else 0)
  }

  /** Number of elements strictly above `t` (numpy: `np.sum(s > t)`). */
  function CountAbove(s: seq<real>, t: real): (n: nat)
    ensures n <= |s|
  {
    if s == [] then 0
    else CountAbove(s[..|s| - 1], t) + (if s[|s| - 1] > t then 1 else 0)
  }

  /** Largest element of a non-empty sequence (numpy: `np.max`). */
  function SeqMax(s: seq<real>): (m: real)
    requires s != []
    ensures forall i :: 0 <= i < |s| ==> s[i] <= m
    ensures exists i :: 0 <= i < |s| && s[i] == m
  {
    if |s| == 1 then s[0]
    else
      var m' := SeqMax(s[..|s| - 1]);
      assert forall i :: 0 <= i < |s| - 1 ==> s[..|s| - 1][i] == s[i];
      Max(m', s[|s| - 1])
  }

  /** Smallest element of a non-empty sequence (numpy: `np.min`). */
  function SeqMin(s: seq<real>): (m: real)
    requires s != []
    ensures forall i :: 0 <= i < |s| ==> m <= s[i]
    ensures exists i :: 0 <= i < |s| && s[i] == m
  {
    if |s| == 1 then s[0]
    else
      var m' := SeqMin(s[..|s| - 1]);
      assert forall i :: 0 <= i < |s| - 1 ==> s[..|s| - 1][i] == s[i];
      Min(m', s[|s| - 1])
  }

  // Arithmetic steps the solver does not find on its own.

  lemma MulLeMono(a: real, b: real, k: real)
    requires a <= b && k >= 0.0
    ensures a * k <= b * k
  {
    assert b * k - a * k == (b - a) * k;
  }

  lemma MulNonNeg(a: real, b: real)
    requires a >= 0.0 && b >= 0.0
    ensures a * b >= 0.0
  {
  }

  lemma DivLeMono(a: real, b: real, d: real)
    requires a <= b && d > 0.0
    ensures a / d <= b / d
  {
    assert b / d - a / d == (b - a) / d;
  }
}
