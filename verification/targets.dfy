/** A scrub target: one candidate scrub of a placement group, with its
    urgency, its level (shallow or deep) and its two-timestamp schedule. */
module Targets {
  import opened Text

  /** A `steady_clock` time point, as its count of ticks since the clock's
      epoch; comparing time points is comparing these counts. */
  type Time = int

  /** Ticks in one `chrono::seconds`: the steady clock counts nanoseconds. */
  const TicksPerSecond: int := 1_000_000_000

  /** The random desynchronising delay, `rand() % 100'000` seconds. */
  type Delay = d: int | 0 <= d < 100_000

  /** `level` is kept as the integer the source stores; the comparators order
      on it numerically and `IsDeep` reads it as a boolean. */
  datatype Target = Target(urgency: int, level: int, notBefore: Time, scheduledAt: Time)

  /** The inputs the `Target` constructor draws from the environment: two
      readings of the steady clock and one random delay. */
  datatype ClockSeed = ClockSeed(firstNow: Time, secondNow: Time, delay: Delay)

  /** The `Target` constructor: `not_before` lies `delay` seconds before the
      first clock reading, `scheduled_at` twice that before the second. */
  function NewTarget(urgency: int, level: int, seed: ClockSeed): (t: Target)
    ensures t.urgency == urgency && t.level == level
    ensures t.notBefore <= seed.firstNow && t.scheduledAt <= seed.secondNow
    ensures seed.secondNow - t.scheduledAt == 2 * (seed.firstNow - t.notBefore)
    ensures seed.firstNow - t.notBefore < 100_000 * TicksPerSecond
  {
    Target(urgency, level,
           seed.firstNow - seed.delay * TicksPerSecond,
           seed.secondNow - 2 * seed.delay * TicksPerSecond)
  }

  /** A target is ripe once its `not_before` is not after `now`. */
  predicate IsRipe(t: Target, now: Time) {
    t.notBefore <= now
  }

  /** Every target of this system reports itself as high priority. */
  predicate IsHighPriority(t: Target) {
    true
  }

  predicate IsDeep(t: Target) {
    t.level != 0
  }

  /** `urgency_txt()`: the urgency as `U(<decimal>)`. */
  function UrgencyTxt(t: Target): (s: string)
    ensures |s| >= 4 && s[..2] == "U(" && s[|s| - 1] == ')'
    ensures forall i | 2 <= i < |s| - 1 :: s[i] == '-' || IsDigit(s[i])
    ensures s[2] == '-' <==> t.urgency < 0
    ensures forall i | (if t.urgency < 0 then 3 else 2) <= i < |s| - 1 :: IsDigit(s[i])
    ensures |s| > (if t.urgency < 0 then 5 else 4) ==> s[if t.urgency < 0 then 3 else 2] != '0'
  {
    "U(" + IntToString(t.urgency) + ")"
  }
}
