/** The three target comparators. Each walks an ordered list of keys and
    returns on the first key that differs; `Less` prefers the left target.
    None of them ever reports a tie: a full tie falls through to `Greater`. */
module Comparator {
  import opened Orderings
  import opened Targets

  /** The "left is deeper" key: decisive only in the left target's favour. */
  function DeeperLeft(l: Target, r: Target): Ordering {
    if r.level < l.level then Less else Equiv
  }

  /** `cmp_ripe_entries`: both targets are ripe. Higher urgency first, then
      earlier `scheduled_at`, then "left is deeper", then earlier
      `not_before`. */
  function CmpRipeEntries(l: Target, r: Target): (o: Ordering)
    ensures o != Equiv
  {
    var byUrgency := Compare(r.urgency, l.urgency);
    if byUrgency != Equiv then byUrgency
    else
      var bySchedule := Compare(l.scheduledAt, r.scheduledAt);
      if bySchedule != Equiv then bySchedule
      else
        var byDepth := DeeperLeft(l, r);
        if byDepth != Equiv then byDepth
        else
          var byNotBefore := Compare(l.notBefore, r.notBefore);
          if byNotBefore != Equiv then byNotBefore
          else Greater
  }

  /** `cmp_future_entries`: neither target is ripe. Earlier `not_before`
      first, then higher urgency, then earlier `scheduled_at`, then "left is
      deeper". */
  function CmpFutureEntries(l: Target, r: Target): (o: Ordering)
    ensures o != Equiv
  {
    var byNotBefore := Compare(l.notBefore, r.notBefore);
    if byNotBefore != Equiv then byNotBefore
    else
      var byUrgency := Compare(r.urgency, l.urgency);
      if byUrgency != Equiv then byUrgency
      else
        var bySchedule := Compare(l.scheduledAt, r.scheduledAt);
        if bySchedule != Equiv then bySchedule
        else
          var byDepth := DeeperLeft(l, r);
          if byDepth != Equiv then byDepth
          else Greater
  }

  /** `cmp_entries`: ripeness at `now` is a gate; only when both targets
      fall on the same side of it do the other keys matter. */
  function CmpEntries(now: Time, l: Target, r: Target): (o: Ordering)
    ensures o != Equiv
    ensures IsRipe(l, now) && !IsRipe(r, now) ==> o == Less
    ensures !IsRipe(l, now) && IsRipe(r, now) ==> o == Greater
  {
    var lRipe := IsRipe(l, now);
    var rRipe := IsRipe(r, now);
    if lRipe then
      if rRipe then CmpRipeEntries(l, r) else Less
    else if rRipe then Greater
    else CmpFutureEntries(l, r)
  }

  // ---------------------------------------------------------------------
  // The comparators as lexicographic key lists

  /** A four-key lexicographic comparison spelled out key by key. */
  lemma UnfoldFour(keys: seq<Ordering>, fallback: Ordering)
    requires |keys| == 4
    ensures FirstDecisive(keys, fallback)
         == if keys[0] != Equiv then keys[0]
            else if keys[1] != Equiv then keys[1]
            else if keys[2] != Equiv then keys[2]
            else if keys[3] != Equiv then keys[3]
            else fallback
  {
    var rest1 := keys[1..];
    var rest2 := rest1[1..];
    var rest3 := rest2[1..];
    assert FirstDecisive(rest3[1..], fallback) == fallback;
    assert FirstDecisive(rest3, fallback) == if keys[3] != Equiv then keys[3] else fallback;
    assert FirstDecisive(rest2, fallback)
        == if keys[2] != Equiv then keys[2] else FirstDecisive(rest3, fallback);
    assert FirstDecisive(rest1, fallback)
        == if keys[1] != Equiv then keys[1] else FirstDecisive(rest2, fallback);
  }

  lemma RipeIsLexicographic(l: Target, r: Target)
    ensures CmpRipeEntries(l, r)
         == FirstDecisive([Compare(r.urgency, l.urgency),
                           Compare(l.scheduledAt, r.scheduledAt),
                           DeeperLeft(l, r),
                           Compare(l.notBefore, r.notBefore)], Greater)
  {
    var keys := [Compare(r.urgency, l.urgency), Compare(l.scheduledAt, r.scheduledAt),
                 DeeperLeft(l, r), Compare(l.notBefore, r.notBefore)];
    UnfoldFour(keys, Greater);
  }

  lemma FutureIsLexicographic(l: Target, r: Target)
    ensures CmpFutureEntries(l, r)
         == FirstDecisive([Compare(l.notBefore, r.notBefore),
                           Compare(r.urgency, l.urgency),
                           Compare(l.scheduledAt, r.scheduledAt),
                           DeeperLeft(l, r)], Greater)
  {
    var keys := [Compare(l.notBefore, r.notBefore), Compare(r.urgency, l.urgency),
                 Compare(l.scheduledAt, r.scheduledAt), DeeperLeft(l, r)];
    UnfoldFour(keys, Greater);
  }

  // ---------------------------------------------------------------------
  // Precedence of the keys

  /** Readiness dominates: when exactly one target is ripe it wins, whatever
      the other keys say. This restates the gate clauses of `CmpEntries`'
      contract with both argument orders, for callers. */
  lemma ReadinessGate(now: Time, l: Target, r: Target)
    requires IsRipe(l, now) != IsRipe(r, now)
    ensures CmpEntries(now, l, r) == (if IsRipe(l, now) then Less else Greater)
    ensures CmpEntries(now, r, l) == (if IsRipe(r, now) then Less else Greater)
  {
  }

  /** Among ripe targets, strictly higher urgency wins regardless of every
      other field; at equal urgency, strictly earlier `scheduled_at` wins. */
  lemma RipeOrdering(now: Time, l: Target, r: Target)
    requires IsRipe(l, now) && IsRipe(r, now)
    ensures l.urgency > r.urgency ==> CmpEntries(now, l, r) == Less
    ensures l.urgency < r.urgency ==> CmpEntries(now, l, r) == Greater
    ensures l.urgency == r.urgency && l.scheduledAt < r.scheduledAt ==> CmpEntries(now, l, r) == Less
    ensures l.urgency == r.urgency && l.scheduledAt > r.scheduledAt ==> CmpEntries(now, l, r) == Greater
  {
  }

  /** Among targets that are not yet ripe, strictly earlier `not_before`
      wins regardless of urgency; at equal `not_before` higher urgency wins,
      then earlier `scheduled_at`. */
  lemma FutureOrdering(now: Time, l: Target, r: Target)
    requires !IsRipe(l, now) && !IsRipe(r, now)
    ensures l.notBefore < r.notBefore ==> CmpEntries(now, l, r) == Less
    ensures l.notBefore > r.notBefore ==> CmpEntries(now, l, r) == Greater
    ensures l.notBefore == r.notBefore && l.urgency > r.urgency ==> CmpEntries(now, l, r) == Less
    ensures l.notBefore == r.notBefore && l.urgency < r.urgency ==> CmpEntries(now, l, r) == Greater
    ensures l.notBefore == r.notBefore && l.urgency == r.urgency && l.scheduledAt < r.scheduledAt
            ==> CmpEntries(now, l, r) == Less
    ensures l.notBefore == r.notBefore && l.urgency == r.urgency && l.scheduledAt > r.scheduledAt
            ==> CmpEntries(now, l, r) == Greater
  {
  }

  /** Comparing a target with itself never reports a tie: the right-hand
      side is chosen. */
  lemma SelfComparisonPicksRight(now: Time, x: Target)
    ensures CmpRipeEntries(x, x) == Greater
    ensures CmpFutureEntries(x, x) == Greater
    ensures CmpEntries(now, x, x) == Greater
  {
  }

  /** Ripe depth tie-break: at equal urgency and `scheduled_at` a deeper left
      target wins whatever the `not_before` times; a left target that is not
      deeper wins exactly when its `not_before` is strictly earlier. */
  lemma RipeDepthTieBreak(l: Target, r: Target)
    requires l.urgency == r.urgency && l.scheduledAt == r.scheduledAt
    ensures r.level < l.level ==> CmpRipeEntries(l, r) == Less
    ensures l.level <= r.level ==> (CmpRipeEntries(l, r) == Less <==> l.notBefore < r.notBefore)
  {
  }

  /** Future depth tie-break: on a tie of `not_before`, urgency and
      `scheduled_at` the deeper target wins on either side, and the right
      one wins at equal levels. */
  lemma FutureDepthTieBreak(l: Target, r: Target)
    requires l.notBefore == r.notBefore && l.urgency == r.urgency && l.scheduledAt == r.scheduledAt
    ensures CmpFutureEntries(l, r) == Less <==> r.level < l.level
    ensures CmpFutureEntries(l, r) == Greater <==> l.level <= r.level
  {
  }

  // ---------------------------------------------------------------------
  // What kind of order the comparators are

  /** The future comparator's "left preferred" relation is a strict order:
      asymmetric ... */
  lemma FutureAsymmetric(a: Target, b: Target)
    requires CmpFutureEntries(a, b) == Less
    ensures CmpFutureEntries(b, a) == Greater
  {
  }

  /** ... and transitive. */
  lemma FutureTransitive(a: Target, b: Target, c: Target)
    requires CmpFutureEntries(a, b) == Less && CmpFutureEntries(b, c) == Less
    ensures CmpFutureEntries(a, c) == Less
  {
  }

  /** Targets that differ in some compared key are ranked consistently from
      both sides by the future comparator. */
  lemma FutureConsistentOnDistinctKeys(a: Target, b: Target)
    requires (a.notBefore, a.urgency, a.scheduledAt, a.level)
          != (b.notBefore, b.urgency, b.scheduledAt, b.level)
    ensures CmpFutureEntries(a, b) == Less <==> CmpFutureEntries(b, a) == Greater
  {
  }

  /** The ripe comparator is consistent from both sides when the two
      targets are at the same level ... */
  lemma RipeAsymmetricAtEqualLevel(a: Target, b: Target)
    requires a.level == b.level
    requires CmpRipeEntries(a, b) == Less
    ensures CmpRipeEntries(b, a) == Greater
  {
  }

  /** ... but not in general: a shallow target with an earlier `not_before`
      and a deep one of equal urgency and `scheduled_at` each win when put
      on the left, because the depth key is only checked in the left
      target's favour. */
  lemma RipeNotAsymmetric()
    ensures var shallow := Target(0, 0, 1, 0);
            var deep := Target(0, 1, 2, 0);
            && CmpEntries(5, shallow, deep) == Less
            && CmpEntries(5, deep, shallow) == Less
  {
  }

  /** Nor is it transitive: three ripe targets of equal urgency and
      `scheduled_at` can each beat the next around a cycle. */
  lemma RipePreferenceCycle()
    ensures var a := Target(0, 1, 10, 0);
            var b := Target(0, 0, 5, 0);
            var c := Target(0, 1, 6, 0);
            && CmpEntries(20, a, b) == Less
            && CmpEntries(20, b, c) == Less
            && CmpEntries(20, c, a) == Less
  {
  }
}
