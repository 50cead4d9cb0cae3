/**
 * Exact arithmetic helpers: integer floor and ceiling of a real, and PHP's
 * round(), which rounds halves away from zero.
 */
module Numbers {

  /** PHP floor() followed by an (int) cast. */
  function Floor(x: real): (n: int)
    ensures n as real <= x < n as real + 1.0
  {
    x.Floor
  }

  /** PHP ceil() followed by an (int) cast. */
  function Ceil(x: real): (n: int)
    ensures n as real - 1.0 < x <= n as real
  {
    -((-x).Floor)
  }

  /** count * x: the weight or the price of `count` units. */
  function Times(count: int, x: real): real {
    count as real * x
  }

  /** One more unit adds one unit's worth; no units are worth nothing. */
  lemma TimesNext(count: int, x: real)
    ensures Times(count + 1, x) == Times(count, x) + x
    ensures Times(0, x) == 0.0
  {
  }

  function Pow10(places: nat): (p: real)
    ensures p >= 1.0
  {
    if places == 0 then 1.0 else 10.0 * Pow10(places - 1)
  }

  /**
   * Rounding to a whole number: the nearest integer, halves going away from zero.
   * The two half-open intervals pin the result down uniquely.
   */
  function RoundHalfAwayFromZero(x: real): (n: int)
    ensures x >= 0.0 ==> x - 0.5 < n as real <= x + 0.5
    ensures x < 0.0 ==> x - 0.5 <= n as real < x + 0.5
    ensures x == x.Floor as real ==> n == x.Floor
  {
    if x >= 0.0 then (x + 0.5).Floor else -((-x + 0.5).Floor)
  }

  /** x counted in units of the last kept decimal place, 10^-places. */
  function Scaled(x: real, places: nat): real {
    x * Pow10(places)
  }

  /**
   * Rounding to a number of decimal places: counted in units of the last
   * kept place, the result is the whole number that x rounds to (halves
   * away from zero), so it has at most that many decimals and lies within
   * half such a unit of x.
   */
  function Round(x: real, places: nat): (r: real)
    ensures Scaled(r, places) == RoundHalfAwayFromZero(Scaled(x, places)) as real
    ensures Scaled(r, places) == Scaled(r, places).Floor as real
    ensures -0.5 <= Scaled(r, places) - Scaled(x, places) <= 0.5
  {
    var n := RoundHalfAwayFromZero(Scaled(x, places));
    ScaleBack(n, places);
    n as real / Pow10(places)
  }

  /** Dividing a whole number of units by the scale and scaling back recovers it. */
  lemma ScaleBack(n: int, places: nat)
    ensures Scaled(n as real / Pow10(places), places) == n as real
  {
    var p := Pow10(places);
    assert n as real / p * p == n as real;
  }

  /** Comparing q = x / w with c tells how x compares with c * w, for a positive w. */
  lemma ScaledCompare(x: real, q: real, w: real, c: real)
    requires w > 0.0 && q * w == x
    ensures c <= q ==> c * w <= x
    ensures c < q ==> c * w < x
    ensures q <= c ==> x <= c * w
    ensures q < c ==> x < c * w
  {
    assert (q - c) * w == x - c * w;
    assert c < q ==> (q - c) * w > 0.0;
    assert c <= q ==> (q - c) * w >= 0.0;
    assert q < c ==> (c - q) * w > 0.0;
    assert q <= c ==> (c - q) * w >= 0.0;
  }

  /**
   * Taking floor(x / w) whole units of weight w is the most that fits in x:
   * they weigh no more than x, and one more unit would exceed it.
   */
  lemma FloorDivision(x: real, w: real)
    requires w > 0.0
    ensures Floor(x / w) as real * w <= x < (Floor(x / w) as real + 1.0) * w
  {
    ScaledCompare(x, x / w, w, Floor(x / w) as real);
    ScaledCompare(x, x / w, w, Floor(x / w) as real + 1.0);
  }

  /**
   * ceil(x / w) whole units of weight w cover x, and one unit fewer would not.
   */
  lemma CeilDivision(x: real, w: real)
    requires w > 0.0
    ensures x <= Ceil(x / w) as real * w
    ensures (Ceil(x / w) as real - 1.0) * w < x
  {
    ScaledCompare(x, x / w, w, Ceil(x / w) as real);
    ScaledCompare(x, x / w, w, Ceil(x / w) as real - 1.0);
  }
}
