// Angle helpers of the game's Misc class (main.cs).  All arithmetic is on
// mathematical reals, not IEEE doubles.
module Misc {

  /** The value of Math.PI (the double nearest to pi), taken as an exact real. */
  const PI: real := 3.141592653589793

  /** One full turn, Math.PI*2. */
  const TwoPI: real := 2.0 * PI

  /** Math.PI/180, used when XML data gives angles in degrees. */
  const DegreesToRadians: real := PI / 180.0

  /** Misc.NormalizeAngle: a single correction by one full turn towards [0, 2*PI). */
  function NormalizeAngle(angle: real): (r: real)
    // values already in range are left alone
    ensures 0.0 <= angle < TwoPI ==> r == angle
    // the result differs from the input by at most one whole turn, in the right direction
    ensures angle < 0.0 ==> r == angle + TwoPI
    ensures angle >= TwoPI ==> r == angle - TwoPI
    // one correction suffices for inputs within one turn of the range ...
    ensures -TwoPI <= angle < 2.0 * TwoPI ==> 0.0 <= r < TwoPI
    // ... and is not enough below -2*PI or from 4*PI on
    ensures angle < -TwoPI ==> r < 0.0
    ensures angle >= 2.0 * TwoPI ==> r >= TwoPI
  {
    if angle < 0.0 then angle + TwoPI else if angle >= TwoPI then angle - TwoPI else angle
  }
}
