/** The timing arithmetic that both forms of the animation engine share:
    how many LEDs the power-up phase lights, and the fade-out brightness ramp.
    Both are Arduino `map` calls whose result is stored in a `uint8_t`. */
module AnimationMath {
  import opened Arduino

  /** Length of the power-up ramp and of the fade-out ramp, in ms. */
  const POWER_UP_TIME: nat := 500
  const FADE_TIME: nat := 1000

  /** Number of LEDs lit `elapsed` ms into power-up, out of `n`:
      `(uint8_t) map(elapsed, 0, 500, 0, n)`. */
  function LitCount(elapsed: nat, n: Byte): Byte
  {
    Narrow(Map(elapsed, 0, POWER_UP_TIME, 0, n))
  }

  /** Fade-out brightness `elapsed` ms into the fade, starting from `base`:
      `(uint8_t) map(elapsed, 0, 1000, base, 0)`. The numerator is negative,
      so the C truncation matters here. */
  function FadeLevel(elapsed: nat, base: Byte): Byte
  {
    Narrow(Map(elapsed, 0, FADE_TIME, base, 0))
  }

  /** The test that ends the fade: the level reached 0 or the ramp is over. */
  predicate FadeDone(elapsed: nat, base: Byte)
  {
    FadeLevel(elapsed, base) == 0 || elapsed > FADE_TIME
  }

  /** On [0, 500] the lit count is `elapsed * n / 500` (a floor), never more
      than n: none at the start of the ramp, all n at its end. */
  lemma LitCountRamp(elapsed: nat, n: Byte)
    requires elapsed <= POWER_UP_TIME
    ensures LitCount(elapsed, n) == elapsed * n / POWER_UP_TIME <= n
    ensures elapsed == 0 ==> LitCount(elapsed, n) == 0
    ensures elapsed == POWER_UP_TIME ==> LitCount(elapsed, n) == n
  {
    NonNegProduct(elapsed, n);
    TruncDivTowardZero(elapsed * n, POWER_UP_TIME);
    DivBound(elapsed, n, POWER_UP_TIME);
    assert Map(elapsed, 0, POWER_UP_TIME, 0, n) == elapsed * n / POWER_UP_TIME;
    MapEndpoints(0, POWER_UP_TIME, 0, n);
  }

  /** During the ramp the number of lit LEDs never goes down. */
  lemma LitCountMonotone(e1: nat, e2: nat, n: Byte)
    requires e1 <= e2 <= POWER_UP_TIME
    ensures LitCount(e1, n) <= LitCount(e2, n)
  {
    LitCountRamp(e1, n);
    LitCountRamp(e2, n);
    MulMonotone(e1, e2, n);
    DivMonotone(e1 * n, e2 * n, POWER_UP_TIME);
  }

  /** On [0, 1000] the fade level is `base - elapsed * base / 1000`: it
      starts at `base`, stays within [0, base] and never wraps. */
  lemma FadeLevelRamp(elapsed: nat, base: Byte)
    requires elapsed <= FADE_TIME
    ensures FadeLevel(elapsed, base) == base - elapsed * base / FADE_TIME
    ensures FadeLevel(elapsed, base) <= base
    ensures elapsed == 0 ==> FadeLevel(elapsed, base) == base
  {
    NonNegProduct(elapsed, base);
    TruncDivTowardZero(elapsed * base, FADE_TIME);
    DivBound(elapsed, base, FADE_TIME);
    assert (elapsed - 0) * (0 - base) == -(elapsed * base);
    assert Map(elapsed, 0, FADE_TIME, base, 0) == base - elapsed * base / FADE_TIME;
  }

  /** During the fade the level never goes up. */
  lemma FadeLevelMonotone(e1: nat, e2: nat, base: Byte)
    requires e1 <= e2 <= FADE_TIME
    ensures FadeLevel(e2, base) <= FadeLevel(e1, base)
  {
    FadeLevelRamp(e1, base);
    FadeLevelRamp(e2, base);
    MulMonotone(e1, e2, base);
    DivMonotone(e1 * base, e2 * base, FADE_TIME);
  }

  /** The level falls in whole steps, so two readings a millisecond apart can
      give the same level: the fade is non-increasing, not strictly falling. */
  lemma FadeLevelPlateaus()
    ensures FadeLevel(1, 200) == FadeLevel(2, 200) == 200
    ensures FadeLevel(5, 200) == 199
  {
    FadeLevelRamp(1, 200);
    FadeLevelRamp(2, 200);
    FadeLevelRamp(5, 200);
  }

  /** The fade ends exactly when 1000 ms have passed, or at once when it
      starts from a zero base brightness. */
  lemma FadeDoneExactly(elapsed: nat, base: Byte)
    ensures FadeDone(elapsed, base) <==> elapsed >= FADE_TIME || base == 0
  {
    if elapsed <= FADE_TIME {
      FadeLevelRamp(elapsed, base);
      if elapsed < FADE_TIME && base > 0 {
        assert elapsed * base < FADE_TIME * base by {
          NonNegProduct(FADE_TIME - elapsed - 1, base);
          assert FADE_TIME * base == elapsed * base + (FADE_TIME - elapsed - 1) * base + base;
        }
        DivStrict(elapsed * base, base, FADE_TIME);
      }
      if elapsed == FADE_TIME {
        ExactDiv(base, FADE_TIME);
      }
    }
  }
}
