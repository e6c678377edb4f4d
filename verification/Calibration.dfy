/** Where the calibration of the token estimate leads. */
module Calibration {
  import opened Tokens

  function Distance(x: real, y: real): (d: real)
    ensures d >= 0.0 && (d == 0.0 <==> x == y)
  {
    if x <= y then y - x else x - y
  }

  lemma BlendMakesUp(factor: real, alpha: real, ratio: real)
    ensures factor * (1.0 - alpha) + ratio * alpha - ratio == (factor - ratio) * (1.0 - alpha)
  {
  }

  lemma ScaledDistance(d: real, scale: real)
    requires scale >= 0.0
    ensures Distance(d * scale, 0.0) == Distance(d, 0.0) * scale
  {
  }

  /** A blend makes up the share `alpha` of the distance to the observed ratio. */
  lemma BlendApproaches(factor: real, alpha: real, raw: int, used: int)
    requires raw > 0 && alpha <= 1.0
    ensures var ratio := used as real / raw as real;
            Distance(Blend(factor, alpha, raw, used), ratio) == Distance(factor, ratio) * (1.0 - alpha)
  {
    var ratio := used as real / raw as real;
    BlendMakesUp(factor, alpha, ratio);
    ScaledDistance(factor - ratio, 1.0 - alpha);
    assert Distance(factor, ratio) == Distance(factor - ratio, 0.0);
    assert Distance(Blend(factor, alpha, raw, used), ratio) == Distance((factor - ratio) * (1.0 - alpha), 0.0);
  }

  lemma ClampComesNoFurther(x: real, low: real, high: real, y: real)
    requires low <= y <= high
    ensures Distance(Clamped(x, low, high), y) <= Distance(x, y)
  {
  }

  lemma CalibrationApproaches(factor: real, alpha: real, low: real, high: real, raw: int, used: int)
    requires raw > 0 && alpha <= 1.0 && low <= used as real / raw as real <= high
    ensures var ratio := used as real / raw as real;
            Distance(Clamped(Blend(factor, alpha, raw, used), low, high), ratio) <= Distance(factor, ratio) * (1.0 - alpha)
  {
    BlendApproaches(factor, alpha, raw, used);
    ClampComesNoFurther(Blend(factor, alpha, raw, used), low, high, used as real / raw as real);
  }

  function Repeated(step: real -> real, x: real, n: nat): real {
    if n == 0 then x else step(Repeated(step, x, n - 1))
  }

  /** Every step brings any point as near to `y` as `shrink` says. */
  ghost predicate Contracts(step: real -> real, shrink: real -> real, y: real) {
    forall x :: Distance(step(x), y) <= shrink(Distance(x, y))
  }

  ghost predicate Monotone(f: real -> real) {
    forall d, e :: d <= e ==> f(d) <= f(e)
  }

  lemma {:induction false} ContractionConverges(step: real -> real, shrink: real -> real, x: real, y: real, n: nat)
    requires Contracts(step, shrink, y) && Monotone(shrink)
    ensures Distance(Repeated(step, x, n), y) <= Repeated(shrink, Distance(x, y), n)
  {
    if n > 0 {
      ContractionConverges(step, shrink, x, y, n - 1);
    }
  }

  /** One calibration, with the same figures each time. */
  function Calibrating(alpha: real, low: real, high: real, raw: int, used: int): real -> real
    requires raw > 0 && low <= high
  {
    factor => Clamped(Blend(factor, alpha, raw, used), low, high)
  }

  function Shrinking(share: real): real -> real {
    distance => distance * (1.0 - share)
  }

  lemma CalibratingApproaches(factor: real, alpha: real, low: real, high: real, raw: int, used: int, ratio: real)
    requires raw > 0 && alpha <= 1.0 && ratio == used as real / raw as real && low <= ratio <= high
    ensures Distance(Calibrating(alpha, low, high, raw, used)(factor), ratio) <= Shrinking(alpha)(Distance(factor, ratio))
  {
    CalibrationApproaches(factor, alpha, low, high, raw, used);
  }

  lemma CalibratingContracts(alpha: real, low: real, high: real, raw: int, used: int, ratio: real)
    requires raw > 0 && alpha <= 1.0 && ratio == used as real / raw as real && low <= ratio <= high
    ensures Contracts(Calibrating(alpha, low, high, raw, used), Shrinking(alpha), ratio)
  {
    forall x ensures Distance(Calibrating(alpha, low, high, raw, used)(x), ratio) <= Shrinking(alpha)(Distance(x, ratio)) {
      CalibratingApproaches(x, alpha, low, high, raw, used, ratio);
    }
  }

  lemma ScaledBound(d: real, e: real, scale: real)
    requires d <= e && scale >= 0.0
    ensures d * scale <= e * scale
  {
  }

  lemma ShrinkingIsMonotone(share: real)
    requires share <= 1.0
    ensures Monotone(Shrinking(share))
  {
    forall d, e | d <= e ensures Shrinking(share)(d) <= Shrinking(share)(e) {
      ScaledBound(d, e, 1.0 - share);
    }
  }

  /**
    Calibration converges: while the same usage is reported and its ratio lies within the clamp,
    the error of the factor shrinks by the share `alpha` each time.
   */
  lemma CalibrationConverges(factor: real, alpha: real, low: real, high: real, raw: int, used: int, n: nat)
    requires raw > 0 && alpha <= 1.0 && low <= used as real / raw as real <= high
    ensures var ratio := used as real / raw as real;
            Distance(Repeated(Calibrating(alpha, low, high, raw, used), factor, n), ratio)
            <= Repeated(Shrinking(alpha), Distance(factor, ratio), n)
  {
    CalibratingContracts(alpha, low, high, raw, used, used as real / raw as real);
    ShrinkingIsMonotone(alpha);
    ContractionConverges(Calibrating(alpha, low, high, raw, used), Shrinking(alpha), factor, used as real / raw as real, n);
  }
}
