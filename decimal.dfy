/** Python's `round(x, digits)` on exact reals. */
module Decimal {

  function Pow10(digits: nat): (p: nat)
    ensures p >= 1
  {
    if digits == 0 then 1 else 10 * Pow10(digits - 1)
  }

  /** `x` rounded to a multiple of `1 / scale`, halves rounded up. */
  function RoundScaled(x: real, scale: real): real
    requires scale > 0.0
  {
    var f: int := (x * scale + 0.5).Floor;
    f as real / scale
  }

  /** `x` rounded to `digits` decimal places, halves rounded up. */
  function RoundTo(x: real, digits: nat): (r: real)
  {
    RoundScaled(x, Pow10(digits) as real)
  }

  lemma RoundScaledClose(x: real, scale: real)
    requires scale > 0.0
    ensures x - 0.5 / scale < RoundScaled(x, scale) <= x + 0.5 / scale
  {
    var f: int := (x * scale + 0.5).Floor;
    assert RoundScaled(x, scale) == f as real / scale;
    assert x * scale - 0.5 < f as real <= x * scale + 0.5;
    assert f as real / scale <= (x * scale + 0.5) / scale;
    assert (x * scale - 0.5) / scale < f as real / scale;
  }

  /** The rounded value is within half a unit of the last place of `x`. */
  lemma RoundClose(x: real, digits: nat)
    ensures var half := 0.5 / Pow10(digits) as real;
      x - half < RoundTo(x, digits) <= x + half
  {
    RoundScaledClose(x, Pow10(digits) as real);
  }

  lemma RoundScaledFloor(x: real, scale: real, f: int)
    requires scale > 0.0
    requires f == (x * scale + 0.5).Floor
    ensures RoundScaled(x, scale) == f as real / scale
  {
  }

  lemma RoundScaledExact(n: int, scale: real)
    requires scale > 0.0
    ensures RoundScaled(n as real / scale, scale) == n as real / scale
  {
    var x := n as real / scale;
    assert x * scale == n as real;
    RoundScaledFloor(x, scale, n);
  }

  /** A value that already has `digits` places is left unchanged. */
  lemma RoundExact(n: int, digits: nat)
    ensures RoundTo(n as real / Pow10(digits) as real, digits) == n as real / Pow10(digits) as real
  {
    RoundScaledExact(n, Pow10(digits) as real);
  }

  lemma RoundScaledMonotone(x: real, y: real, scale: real)
    requires scale > 0.0 && x <= y
    ensures RoundScaled(x, scale) <= RoundScaled(y, scale)
  {
    var fx: int := (x * scale + 0.5).Floor;
    var fy: int := (y * scale + 0.5).Floor;
    RoundScaledFloor(x, scale, fx);
    RoundScaledFloor(y, scale, fy);
    assert x * scale <= y * scale;
    assert fx <= fy;
    assert fx as real / scale <= fy as real / scale;
  }

  /** Rounding preserves order. */
  lemma RoundMonotone(x: real, y: real, digits: nat)
    requires x <= y
    ensures RoundTo(x, digits) <= RoundTo(y, digits)
  {
    RoundScaledMonotone(x, y, Pow10(digits) as real);
  }
}
