/** Python's `round(x, 2)` on the exact value of `x`. */
module PyRound {
  /** `v` has at most two decimals. */
  predicate Hundredths(v: real) {
    (v * 100.0).Floor as real == v * 100.0
  }

  /** The nearest hundredth, a tie going to the even one. */
  function Round2(x: real): (r: real)
    ensures -0.005 <= r - x <= 0.005
    ensures Hundredths(r)
    ensures x >= 0.0 ==> r >= 0.0
  {
    var n := (x * 100.0).Floor;
    var frac := x * 100.0 - n as real;
    var m := if frac > 0.5 || (frac == 0.5 && n % 2 != 0) then n + 1 else n;
    m as real / 100.0
  }

  /** A value that already has two decimals is left as it is. */
  lemma Round2OfHundredths(k: int)
    ensures Round2(k as real / 100.0) == k as real / 100.0
  {
    assert (k as real / 100.0) * 100.0 == k as real;
  }

  /** One month, a twelfth of a year, is reported as 0.08 years. */
  lemma Round2OfTwelfth()
    ensures Round2(1.0 / 12.0) == 0.08
  {
    assert (1.0 / 12.0) * 100.0 == 8.0 + 1.0 / 3.0;
    assert ((1.0 / 12.0) * 100.0).Floor == 8;
  }
}
