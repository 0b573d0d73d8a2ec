/** The JavaScript number operations the forecast pipeline relies on,
    stated over exact reals: `Math.round`, rounding to one decimal place
    (`Math.round(x * 10) / 10`) and the remainder operator `%`. */
module JsMath {

  /** `Math.round`: the nearest integer, a half rounded towards +infinity. */
  function Round(x: real): (r: int)
    ensures r as real - 0.5 <= x < r as real + 0.5
  {
    (x + 0.5).Floor
  }

  /** Rounding is monotone, so a rounded value between two reals lies
      between their rounded values. */
  lemma RoundMonotone(x: real, y: real)
    requires x <= y
    ensures Round(x) <= Round(y)
  {
  }

  /** An integer is its own rounding. */
  lemma RoundOfInteger(n: int)
    ensures Round(n as real) == n
  {
  }

  /** `Math.round(x * 10) / 10`: `x` rounded to one decimal place. */
  function RoundTenth(x: real): (r: real)
    ensures (r * 10.0).Floor as real == r * 10.0
    ensures x - 0.05 < r <= x + 0.05
  {
    Round(x * 10.0) as real / 10.0
  }

  /** Truncation towards zero, the integer part JavaScript's `%` uses. */
  function Trunc(y: real): (q: int)
    ensures y >= 0.0 ==> q as real <= y < q as real + 1.0
    ensures y < 0.0 ==> q as real - 1.0 < y <= q as real
  {
    if y >= 0.0 then y.Floor else -((-y).Floor)
  }

  /** JavaScript's `x % 360`: the remainder of a truncating division, so it
      has the sign of `x` and a magnitude below 360. */
  function Rem360(x: real): (r: real)
    ensures -360.0 < r < 360.0
    ensures x >= 0.0 ==> r >= 0.0
    ensures x <= 0.0 ==> r <= 0.0
  {
    x - 360.0 * Trunc(x / 360.0) as real
  }

  /** The floor of `z` is the one integer `k` with `k <= z < k + 1`. */
  lemma FloorIs(z: real, k: int)
    requires k as real <= z < k as real + 1.0
    ensures z.Floor == k
  {
  }

  /** The angle normalisation `((x % 360) + 360) % 360`. */
  function NormalizeAngle(x: real): (r: real)
  {
    Rem360(Rem360(x) + 360.0)
  }

  /** The normalisation agrees with the floor-based remainder
      `x - 360 * floor(x / 360)` and so always lies in [0, 360). */
  lemma NormalizeAngleIsFloorMod(x: real)
    ensures NormalizeAngle(x) == x - 360.0 * (x / 360.0).Floor as real
    ensures 0.0 <= NormalizeAngle(x) < 360.0
  {
    var q := Trunc(x / 360.0);
    var y := Rem360(x) + 360.0;
    assert 0.0 < y < 720.0;
    var m := (x / 360.0).Floor - q + 1;
    assert y / 360.0 == x / 360.0 - q as real + 1.0;
    FloorIs(y / 360.0, m);
    assert Trunc(y / 360.0) == m;
  }

  /** Normalising a value already in [0, 360) shifted by whole turns gives
      the value back. */
  lemma NormalizeAngleShift(x: real, turns: int)
    requires 0.0 <= x < 360.0
    ensures NormalizeAngle(x + 360.0 * turns as real) == x
  {
    var z := x + 360.0 * turns as real;
    NormalizeAngleIsFloorMod(z);
    assert z / 360.0 == x / 360.0 + turns as real;
    FloorIs(z / 360.0, turns);
  }
}
