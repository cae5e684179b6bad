/**
 * The radar planner's angle helpers: angles in degrees, normalised into
 * [0, 360), the conversion between the display convention (clockwise from
 * north) and the internal one (counter-clockwise from +X), and the signed
 * difference of two angles. Numbers are exact reals.
 */
module Geometry {
  import opened Js

  /** Math.trunc */
  function Trunc(x: real): (t: int)
    ensures x >= 0.0 ==> t == x.Floor
    ensures x < 0.0 ==> t == -((-x).Floor)
  {
    if x >= 0.0 then x.Floor else -((-x).Floor)
  }

  /** The number of whole turns below a: floor(a / 360). */
  function TurnsBelow(a: real): int
  {
    (a / 360.0).Floor
  }

  /** a % 360 on a finite number: the remainder has the sign of a. */
  function Rem360(a: real): (r: real)
    ensures a >= 0.0 ==> 0.0 <= r < 360.0
    ensures a < 0.0 ==> -360.0 < r <= 0.0
    ensures r == a - 360.0 * Trunc(a / 360.0) as real
  {
    a - 360.0 * Trunc(a / 360.0) as real
  }

  /**
   * normalize on a finite number: the truncating remainder, lifted by a
   * turn when negative, is the Euclidean remainder of a by 360.
   */
  function NormalizeReal(a: real): (r: real)
    ensures 0.0 <= r < 360.0
    ensures r == a - 360.0 * TurnsBelow(a) as real
  {
    var m := Rem360(a);
    if m < 0.0 then m + 360.0 else m
  }

  /** normalize(deg): Number(deg), a non-finite value counting as 0. */
  function Normalize(deg: Value): (r: real)
    ensures 0.0 <= r < 360.0
    ensures !ToNumber(deg).Fin? ==> r == 0.0
  {
    var n := ToNumber(deg);
    NormalizeReal(if n.Fin? then n.v else 0.0)
  }

  /** Two angles in [0, 360) that differ by whole turns are equal. */
  lemma SameTurn(r: real, s: real, k: int)
    requires 0.0 <= r < 360.0 && 0.0 <= s < 360.0
    requires r - s == 360.0 * k as real
    ensures r == s
  {
    assert -1 < k < 1;
  }

  /** Adding whole turns does not change normalize, and normalize leaves angles in [0, 360) as they are. */
  lemma NormalizeTurns(a: real, k: int)
    ensures NormalizeReal(a + 360.0 * k as real) == NormalizeReal(a)
    ensures 0.0 <= a < 360.0 ==> NormalizeReal(a) == a
  {
    var r, s := NormalizeReal(a + 360.0 * k as real), NormalizeReal(a);
    SameTurn(r, s, k - TurnsBelow(a + 360.0 * k as real) + TurnsBelow(a));
    if 0.0 <= a < 360.0 {
      SameTurn(a, s, TurnsBelow(a));
    }
  }

  /** worldToSvgY(y): the planner's y axis points up, the SVG one down. */
  function WorldToSvgY(y: Value): (r: Num)
    ensures ToNumber(y).Fin? ==> r == Fin(-ToNumber(y).v)
  {
    match ToNumber(y)
    case Fin(v) => Fin(-v)
    case Infinity(neg) => Infinity(!neg)
    case NaN => NaN
  }

  /** Flipping twice gives Number(y) back. */
  lemma WorldToSvgYTwice(y: Value)
    ensures WorldToSvgY(Number(WorldToSvgY(y))) == ToNumber(y)
  {
  }

  /** toInternal(cwDeg): clockwise from north to counter-clockwise from +X. */
  function ToInternal(cwDeg: Value): (r: real)
    ensures 0.0 <= r < 360.0
  {
    NormalizeReal(90.0 - Normalize(cwDeg))
  }

  /** toDisplay(internalDeg): the inverse direction. */
  function ToDisplay(internalDeg: Value): (r: real)
    ensures 0.0 <= r < 360.0
  {
    NormalizeReal(90.0 - Normalize(internalDeg))
  }

  /** Converting to the internal convention and back gives the normalised display angle. */
  lemma DisplayInternal(x: Value)
    ensures ToDisplay(Number(Fin(ToInternal(x)))) == Normalize(x)
  {
    var a := Normalize(x);
    var b := ToInternal(x);
    NormalizeTurns(b, 0);
    var c := NormalizeReal(90.0 - b);
    SameTurn(c, a, TurnsBelow(90.0 - a) - TurnsBelow(90.0 - b));
  }

  /** And the other way round: display then internal gives the normalised internal angle. */
  lemma InternalDisplay(x: Value)
    ensures ToInternal(Number(Fin(ToDisplay(x)))) == Normalize(x)
  {
    var a := Normalize(x);
    var b := ToDisplay(x);
    NormalizeTurns(b, 0);
    var c := NormalizeReal(90.0 - b);
    SameTurn(c, a, TurnsBelow(90.0 - a) - TurnsBelow(90.0 - b));
  }

  /** The signed difference b - a of two angle values; 0 when either is not a finite number. */
  function RawDiff(a: Value, b: Value): real
  {
    var na, nb := ToNumber(a), ToNumber(b);
    if na.Fin? && nb.Fin? then nb.v - na.v else 0.0
  }

  /** angleDiffSigned(a, b): an angle in (-180, 180] pointing the same way as b - a. */
  function AngleDiffSigned(a: Value, b: Value): (d: real)
    ensures -180.0 < d <= 180.0
    ensures NormalizeReal(d) == NormalizeReal(RawDiff(a, b))
  {
    var n := NormalizeReal(RawDiff(a, b));
    NormalizeTurns(n, 0);
    if n > 180.0 then
      NormalizeTurns(n, -1);
      n - 360.0
    else n
  }

  /** The signed difference is the only angle in (-180, 180] pointing the same way as b - a. */
  lemma AngleDiffUnique(a: Value, b: Value, e: real)
    requires -180.0 < e <= 180.0
    requires NormalizeReal(e) == NormalizeReal(RawDiff(a, b))
    ensures e == AngleDiffSigned(a, b)
  {
    var d := AngleDiffSigned(a, b);
    var k := TurnsBelow(e) - TurnsBelow(d);
    assert e - d == 360.0 * k as real;
    assert -1 < k < 1;
  }

  /** Swapping the two angles negates the difference, except at the half turn, which stays 180. */
  lemma AngleDiffSwap(a: Value, b: Value)
    requires AngleDiffSigned(a, b) != 180.0
    ensures AngleDiffSigned(b, a) == -AngleDiffSigned(a, b)
  {
    var x := RawDiff(a, b);
    assert RawDiff(b, a) == -x;
    var d := AngleDiffSigned(a, b);
    var n := NormalizeReal(x);
    var j := TurnsBelow(x) + (if n > 180.0 then 1 else 0);
    assert d == x - 360.0 * j as real;
    var m := NormalizeReal(-x);
    if d <= 0.0 {
      SameTurn(m, -d, -(TurnsBelow(-x) + j));
    } else {
      SameTurn(m, 360.0 - d, -(TurnsBelow(-x) + j + 1));
    }
  }
}
