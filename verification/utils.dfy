/**
 * The pure helpers of js/core/utils.js: the compass `Direction` codes, their
 * conversion to an angle, and `rotclamp`, which wraps a yaw angle into the
 * open interval (-TAU, TAU). The full turn TAU (2 pi in the source) is a
 * parameter `tau > 0`: the model uses exact reals and no floating point.
 */
module Utils {

  /** The four compass directions a torch can face. */
  datatype Direction = North | East | South | West

  /** The numeric code the source assigns to each direction. */
  function Code(d: Direction): (c: int)
    ensures 0 <= c < 4
  {
    match d
    case North => 1
    case East => 0
    case South => 3
    case West => 2
  }

  /** The direction with a given code: the inverse of `Code` on 0..3. */
  function FromCode(c: int): (d: Direction)
    requires 0 <= c < 4
    ensures Code(d) == c
  {
    if c == 0 then East else if c == 1 then North else if c == 2 then West else South
  }

  /** `Code` is a bijection between the four directions and {0, 1, 2, 3}. */
  lemma CodeIsBijection()
    ensures forall d1: Direction, d2: Direction :: Code(d1) == Code(d2) ==> d1 == d2
    ensures forall d: Direction :: FromCode(Code(d)) == d
    ensures forall c :: 0 <= c < 4 ==> Code(FromCode(c)) == c
  {
  }

  /** `DirectionToAngle`: a quarter turn per code step, counter-clockwise from East. */
  function DirectionToAngle(d: Direction, tau: real): (a: real)
    requires tau > 0.0
    ensures 0.0 <= a < tau
    ensures d == East ==> a == 0.0
    ensures d == North ==> 4.0 * a == tau
    ensures d == West ==> 2.0 * a == tau
    ensures d == South ==> 4.0 * a == 3.0 * tau
  {
    tau * (Code(d) as real) / 4.0
  }

  /** Distinct directions are mapped to distinct angles. */
  lemma DirectionToAngleInjective(d1: Direction, d2: Direction, tau: real)
    requires tau > 0.0
    requires DirectionToAngle(d1, tau) == DirectionToAngle(d2, tau)
    ensures d1 == d2
  {
    assert (Code(d1) as real) * tau == (Code(d2) as real) * tau;
  }

  lemma DivTimes(r: real, tau: real)
    requires tau > 0.0
    ensures (r / tau) * tau == r
  {
  }

  lemma TimesCancel(x: real, y: real, tau: real)
    requires tau > 0.0 && x * tau == y * tau
    ensures x == y
  {
  }

  /** Shifting by one full turn changes the number of whole turns in `r` by exactly one. */
  lemma TurnsShift(r: real, tau: real)
    requires tau > 0.0
    ensures ((r - tau) / tau).Floor == (r / tau).Floor - 1
    ensures ((r + tau) / tau).Floor == (r / tau).Floor + 1
  {
    DivTimes(r, tau);
    DivTimes(r - tau, tau);
    DivTimes(r + tau, tau);
    TimesCancel((r - tau) / tau, r / tau - 1.0, tau);
    TimesCancel((r + tau) / tau, r / tau + 1.0, tau);
  }

  /** The first loop of `rotclamp`: subtract TAU while the angle is at least TAU. */
  function ClampDown(r: real, tau: real): (c: real)
    requires tau > 0.0
    ensures c < tau
    ensures r >= tau ==> 0.0 <= c
    ensures r < tau ==> c == r
    decreases if r >= tau then (r / tau).Floor else 0
  {
    if r >= tau then
      TurnsShift(r, tau);
      ClampDown(r - tau, tau)
    else
      r
  }

  /** The second loop of `rotclamp`: add TAU while the angle is at most -TAU. */
  function ClampUp(r: real, tau: real): (c: real)
    requires tau > 0.0
    ensures c > -tau
    ensures r <= -tau ==> c <= 0.0
    ensures r > -tau ==> c == r
    decreases if r <= -tau then -(r / tau).Floor else 0
  {
    if r <= -tau then
      TurnsShift(r, tau);
      ClampUp(r + tau, tau)
    else
      r
  }

  /** `rotclamp`: both loops in sequence. */
  function RotClamp(r: real, tau: real): (c: real)
    requires tau > 0.0
    ensures -tau < c < tau
    ensures r >= tau ==> 0.0 <= c
    ensures r <= -tau ==> c <= 0.0
    ensures -tau < r < tau ==> c == r
  {
    ClampUp(ClampDown(r, tau), tau)
  }

  /** Clamping an already clamped angle changes nothing. */
  lemma RotClampIdempotent(r: real, tau: real)
    requires tau > 0.0
    ensures RotClamp(RotClamp(r, tau), tau) == RotClamp(r, tau)
  {
  }

  /** The first loop removes a whole number of turns. */
  lemma {:induction false} ClampDownShift(r: real, tau: real) returns (k: int)
    requires tau > 0.0
    ensures r - ClampDown(r, tau) == (k as real) * tau
    decreases if r >= tau then (r / tau).Floor else 0
  {
    if r >= tau {
      TurnsShift(r, tau);
      var k' := ClampDownShift(r - tau, tau);
      assert ClampDown(r, tau) == ClampDown(r - tau, tau);
      k := k' + 1;
      assert (k as real) * tau == (k' as real) * tau + tau;
    } else {
      k := 0;
    }
  }

  /** The second loop adds a whole number of turns. */
  lemma {:induction false} ClampUpShift(r: real, tau: real) returns (k: int)
    requires tau > 0.0
    ensures r - ClampUp(r, tau) == (k as real) * tau
    decreases if r <= -tau then -(r / tau).Floor else 0
  {
    if r <= -tau {
      TurnsShift(r, tau);
      var k' := ClampUpShift(r + tau, tau);
      assert ClampUp(r, tau) == ClampUp(r + tau, tau);
      k := k' - 1;
      assert (k as real) * tau == (k' as real) * tau - tau;
      assert r + tau - ClampUp(r + tau, tau) == (k' as real) * tau;
      assert r - ClampUp(r, tau) == (k as real) * tau;
    } else {
      assert ClampUp(r, tau) == r;
      k := 0;
    }
  }

  /** `rotclamp` changes its argument by an integer multiple of TAU: the wrapped yaw denotes the same heading. */
  lemma RotClampSameHeading(r: real, tau: real) returns (k: int)
    requires tau > 0.0
    ensures r - RotClamp(r, tau) == (k as real) * tau
  {
    var k1 := ClampDownShift(r, tau);
    var k2 := ClampUpShift(ClampDown(r, tau), tau);
    k := k1 + k2;
  }
}
