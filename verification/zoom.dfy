/** The zoom clamp shared by the three document viewers: a step up is capped at a maximum
    with `Math.min`, a step down is floored at a minimum with `Math.max`. Scales are exact
    reals here; binary floating-point rounding is not modelled. */
module Zoom {

  function Min(a: real, b: real): real { if a <= b then a else b }

  function Max(a: real, b: real): real { if a >= b then a else b }

  /** `Math.min(z + step, hi)` */
  function ZoomIn(z: real, step: real, hi: real): (r: real)
    ensures r <= hi
    ensures r == hi || r == z + step
    ensures z + step <= hi ==> r == z + step
  {
    Min(z + step, hi)
  }

  /** `Math.max(z - step, lo)` */
  function ZoomOut(z: real, step: real, lo: real): (r: real)
    ensures r >= lo
    ensures r == lo || r == z - step
    ensures z - step >= lo ==> r == z - step
  {
    Max(z - step, lo)
  }

  /** Both steps keep a zoom that starts inside [lo, hi] inside it. */
  lemma StepsKeepRange(z: real, step: real, lo: real, hi: real)
    requires lo <= z <= hi && step >= 0.0
    ensures lo <= ZoomIn(z, step, hi) <= hi
    ensures lo <= ZoomOut(z, step, lo) <= hi
  {
  }

  /** A zoom-in button disabled at `z >= hi` is disabled exactly when clicking it would
      change nothing; likewise zoom-out at `z <= lo`. */
  lemma DisabledIffNoEffect(z: real, step: real, lo: real, hi: real)
    requires lo <= z <= hi && step > 0.0
    ensures z >= hi <==> ZoomIn(z, step, hi) == z
    ensures z <= lo <==> ZoomOut(z, step, lo) == z
  {
  }

  /** `n` clicks of zoom-in. */
  function ZoomInTimes(z: real, step: real, hi: real, n: nat): real
  {
    if n == 0 then z else ZoomIn(ZoomInTimes(z, step, hi, n - 1), step, hi)
  }

  /** `n` clicks of zoom-out. */
  function ZoomOutTimes(z: real, step: real, lo: real, n: nat): real
  {
    if n == 0 then z else ZoomOut(ZoomOutTimes(z, step, lo, n - 1), step, lo)
  }

  /** Repeated zoom-in adds the steps until the cap and then stays at the cap. */
  lemma {:induction false} ZoomInTimesSaturates(z: real, step: real, hi: real, n: nat)
    requires z <= hi && step >= 0.0
    ensures ZoomInTimes(z, step, hi, n) == Min(z + n as real * step, hi)
  {
    if n > 0 {
      ZoomInTimesSaturates(z, step, hi, n - 1);
    }
  }

  /** Repeated zoom-out subtracts the steps until the floor and then stays at the floor. */
  lemma {:induction false} ZoomOutTimesSaturates(z: real, step: real, lo: real, n: nat)
    requires z >= lo && step >= 0.0
    ensures ZoomOutTimes(z, step, lo, n) == Max(z - n as real * step, lo)
  {
    if n > 0 {
      ZoomOutTimesSaturates(z, step, lo, n - 1);
    }
  }

  /** Twelve zoom-ins of a quarter from 100% stop at 300%. */
  lemma TwelveQuarterStepsStopAtMax()
    ensures ZoomInTimes(1.0, 0.25, 3.0, 12) == 3.0
    ensures forall n: nat :: n >= 8 ==> ZoomInTimes(1.0, 0.25, 3.0, n) == 3.0
  {
    ZoomInTimesSaturates(1.0, 0.25, 3.0, 12);
    forall n: nat | n >= 8 ensures ZoomInTimes(1.0, 0.25, 3.0, n) == 3.0 {
      ZoomInTimesSaturates(1.0, 0.25, 3.0, n);
    }
  }
}
