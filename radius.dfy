/**
 * The adaptive search radius: one fixed-step hill-climb towards a target
 * band of nearby active users, with a floor and a ceiling (metres).
 */
module AdaptiveRadius {
  import opened JsMath

  /** The fixed adjustment, in metres. */
  const Step: int := 500

  /** `calculateAdaptiveRadius`, with the source's default tuning. */
  function NextRadius(
    current: int,
    activeUsers: int,
    minRadius: int := 500,
    maxRadius: int := 20000,
    targetMin: int := 30,
    targetMax: int := 300): (r: int)
    // Too crowded: one step smaller, never below the floor.
    ensures activeUsers > targetMax ==> r >= minRadius && (r == minRadius || r == current - Step)
    ensures activeUsers > targetMax && current - Step >= minRadius ==> r == current - Step
    // Too sparse (and not too crowded, whose branch comes first): one step larger, never above the ceiling.
    ensures activeUsers <= targetMax && activeUsers < targetMin ==>
      r <= maxRadius && (r == maxRadius || r == current + Step)
    ensures activeUsers <= targetMax && activeUsers < targetMin && current + Step <= maxRadius ==>
      r == current + Step
    // Inside the band: unchanged.
    ensures targetMin <= activeUsers <= targetMax ==> r == current
    // A radius inside the bounds stays inside them and moves by at most one step.
    ensures minRadius <= current <= maxRadius ==>
      minRadius <= r <= maxRadius && current - Step <= r <= current + Step
  {
    if activeUsers > targetMax then Max(minRadius, current - Step)
    else if activeUsers < targetMin then Min(maxRadius, current + Step)
    else current
  }

  /** The radius after `n` refresh cycles that all observe `activeUsers`. */
  function Repeat(n: nat, current: int, activeUsers: int, minRadius: int, maxRadius: int,
                  targetMin: int, targetMax: int): int
  {
    if n == 0 then current
    else Repeat(n - 1, NextRadius(current, activeUsers, minRadius, maxRadius, targetMin, targetMax),
                activeUsers, minRadius, maxRadius, targetMin, targetMax)
  }

  /** Repeated shrinking walks down one step at a time and then rests on the floor. */
  lemma {:induction false} RepeatedShrink(n: nat, current: int, activeUsers: int, minRadius: int,
                                          maxRadius: int, targetMin: int, targetMax: int)
    requires activeUsers > targetMax && current >= minRadius
    ensures Repeat(n, current, activeUsers, minRadius, maxRadius, targetMin, targetMax)
      == Max(minRadius, current - Step * n)
  {
    if n > 0 {
      var next := NextRadius(current, activeUsers, minRadius, maxRadius, targetMin, targetMax);
      RepeatedShrink(n - 1, next, activeUsers, minRadius, maxRadius, targetMin, targetMax);
      if current - Step >= minRadius {
        assert next - Step * (n - 1) == current - Step * n;
      } else {
        assert current - Step * n <= minRadius;
      }
    }
  }

  /** Repeated growing walks up one step at a time and then rests on the ceiling. */
  lemma {:induction false} RepeatedGrow(n: nat, current: int, activeUsers: int, minRadius: int,
                                        maxRadius: int, targetMin: int, targetMax: int)
    requires activeUsers <= targetMax && activeUsers < targetMin && current <= maxRadius
    ensures Repeat(n, current, activeUsers, minRadius, maxRadius, targetMin, targetMax)
      == Min(maxRadius, current + Step * n)
  {
    if n > 0 {
      var next := NextRadius(current, activeUsers, minRadius, maxRadius, targetMin, targetMax);
      RepeatedGrow(n - 1, next, activeUsers, minRadius, maxRadius, targetMin, targetMax);
      if current + Step <= maxRadius {
        assert next + Step * (n - 1) == current + Step * n;
      } else {
        assert current + Step * n >= maxRadius;
      }
    }
  }

  /** The floor is a fixed point of shrinking and the ceiling of growing, for any number of cycles. */
  lemma BoundsAreFixedPoints(n: nat, activeUsers: int, minRadius: int, maxRadius: int,
                             targetMin: int, targetMax: int)
    ensures activeUsers > targetMax ==>
      Repeat(n, minRadius, activeUsers, minRadius, maxRadius, targetMin, targetMax) == minRadius
    ensures activeUsers <= targetMax && activeUsers < targetMin ==>
      Repeat(n, maxRadius, activeUsers, minRadius, maxRadius, targetMin, targetMax) == maxRadius
  {
    if activeUsers > targetMax {
      RepeatedShrink(n, minRadius, activeUsers, minRadius, maxRadius, targetMin, targetMax);
    }
    if activeUsers <= targetMax && activeUsers < targetMin {
      RepeatedGrow(n, maxRadius, activeUsers, minRadius, maxRadius, targetMin, targetMax);
    }
  }

  /** Examples with the default tuning (500, 20000, 30, 300). */
  lemma DefaultTuningExamples()
    ensures NextRadius(5000, 500) == 4500
    ensures NextRadius(5000, 5) == 5500
    ensures NextRadius(5000, 100) == 5000
    ensures Repeat(10, 5000, 500, 500, 20000, 30, 300) == 500
    ensures Repeat(100, 5000, 5, 500, 20000, 30, 300) == 20000
  {
    RepeatedShrink(10, 5000, 500, 500, 20000, 30, 300);
    RepeatedGrow(100, 5000, 5, 500, 20000, 30, 300);
  }
}
