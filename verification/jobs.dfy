/** A scrub job and its two-target picker. */
module Jobs {
  import opened Orderings
  import opened Targets
  import opened Comparator

  /** A job owns exactly two targets by value: `a`, the shallow one, and `b`,
      the deep one. `blocked` marks a job that cannot run right now. The
      job's name only ever feeds the targets' unused message and is left
      out. */
  datatype Job = Job(blocked: bool, a: Target, b: Target)

  /** The `Job` constructor: `a` is built with urgency 1 at level 0, `b`
      with urgency 0 at level 1, each from its own clock readings. */
  function NewJob(blocked: bool, seedA: ClockSeed, seedB: ClockSeed): (j: Job)
    ensures j.blocked == blocked
    ensures j.a.urgency == 1 && j.a.level == 0 && !IsDeep(j.a)
    ensures j.b.urgency == 0 && j.b.level == 1 && IsDeep(j.b)
    ensures j.a == NewTarget(1, 0, seedA) && j.b == NewTarget(0, 1, seedB)
    ensures IsRipe(j.a, seedA.firstNow) && IsRipe(j.b, seedB.firstNow)
  {
    Job(blocked, NewTarget(1, 0, seedA), NewTarget(0, 1, seedB))
  }

  /** `earliest_target()`: the target the future ordering prefers, ignoring
      ripeness. Neither owned target is strictly preferred over the pick. */
  function EarliestTarget(j: Job): (t: Target)
    ensures t == j.a || t == j.b
    ensures CmpFutureEntries(j.a, t) != Less && CmpFutureEntries(j.b, t) != Less
  {
    if CmpFutureEntries(j.a, j.b) == Less then
      FutureAsymmetric(j.a, j.b);
      j.a
    else j.b
  }

  /** `earliest_target(now)`: the target the ripeness-gated comparator
      prefers. A ripe target is picked whenever there is one; among two ripe
      targets of different urgency the more urgent one; among two unripe
      ones the same target as `EarliestTarget`. */
  function EarliestTargetAt(j: Job, now: Time): (t: Target)
    ensures t == j.a || t == j.b
    ensures IsRipe(j.a, now) || IsRipe(j.b, now) ==> IsRipe(t, now)
    ensures IsRipe(j.a, now) && IsRipe(j.b, now) && j.a.urgency != j.b.urgency
            ==> t.urgency == if j.a.urgency > j.b.urgency then j.a.urgency else j.b.urgency
    ensures !IsRipe(j.a, now) && !IsRipe(j.b, now) ==> t == EarliestTarget(j)
  {
    if CmpEntries(now, j.a, j.b) == Less then j.a else j.b
  }

  /** Both pickers return `a` exactly when their comparator ranks `a` before
      `b`, and `b` otherwise. */
  lemma PickerChoosesByComparator(j: Job, now: Time)
    requires j.a != j.b
    ensures EarliestTarget(j) == j.a <==> CmpFutureEntries(j.a, j.b) == Less
    ensures EarliestTarget(j) == j.b <==> CmpFutureEntries(j.a, j.b) != Less
    ensures EarliestTargetAt(j, now) == j.a <==> CmpEntries(now, j.a, j.b) == Less
    ensures EarliestTargetAt(j, now) == j.b <==> CmpEntries(now, j.a, j.b) != Less
  {
  }

  /** When both targets are identical both pickers return `b`: the
      comparators' full-tie answer prefers the right-hand side. */
  lemma IdenticalTargetsPickB(j: Job, now: Time)
    requires j.a == j.b
    ensures CmpFutureEntries(j.a, j.b) == Greater && CmpEntries(now, j.a, j.b) == Greater
    ensures EarliestTarget(j) == j.b && EarliestTargetAt(j, now) == j.b
  {
    SelfComparisonPicksRight(now, j.a);
  }

  /** The ripe picker depends on which slot a target sits in: with a shallow
      target of earlier `not_before` and a deep one of equal urgency and
      `scheduled_at`, whichever is in slot `a` is picked. */
  lemma PickDependsOnSlotOrder()
    ensures var shallow := Target(0, 0, 1, 0);
            var deep := Target(0, 1, 2, 0);
            && EarliestTargetAt(Job(false, shallow, deep), 5) == shallow
            && EarliestTargetAt(Job(false, deep, shallow), 5) == deep
  {
    RipeNotAsymmetric();
  }

  /** A job built before `now` has both targets ripe, so the ripe ordering
      decides and the more urgent shallow target `a` is picked. */
  lemma ConstructedJobPicksShallow(blocked: bool, seedA: ClockSeed, seedB: ClockSeed, now: Time)
    requires seedA.firstNow <= now && seedB.firstNow <= now
    ensures var j := NewJob(blocked, seedA, seedB);
            EarliestTargetAt(j, now) == j.a && !IsDeep(EarliestTargetAt(j, now))
  {
  }
}
