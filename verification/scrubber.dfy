/** The placement-group scrubber's state as the status line sees it, and the
    two renderers of that line: one recomputes the flags text on every call,
    the other serves the text cached at construction. */
module Scrubber {
  import opened Optional
  import opened Text
  import opened Targets
  import opened Jobs
  import opened Flags

  /** `isPrimary` and `active` stand for `is_primary()` and `m_active`;
      `cachedFlags` is the flags text captured by the constructor. */
  datatype PgScrubber = PgScrubber(
    flags: ScrubFlags,
    isPrimary: bool,
    active: bool,
    activeTarget: Option<Target>,
    cachedFlags: string,
    job: Job)

  /** The cache is fresh when it holds the text the flags format to now. */
  predicate CacheFresh(s: PgScrubber) {
    s.cachedFlags == FormatFlags(s.flags)
  }

  /** The `PgScrubber` constructor. Its five booleans initialise the flags
      in declaration order, so the first one becomes the priority (0 or 1).
      The job is built unblocked; the flags text is cached; with `setActive`
      the active target is the job's pick at the constructor's `now` (the
      last clause restates, for callers, that the pick is one of the job's
      two targets). The scrubber is always primary and always active. */
  function NewScrubber(setActive: bool, fgA: bool, fgB: bool, fgC: bool, fgD: bool,
                       seedA: ClockSeed, seedB: ClockSeed, now: Time): (s: PgScrubber)
    ensures s.flags.priority == (if fgA then 1 else 0)
    ensures s.flags.autoRepair == fgB && s.flags.checkRepair == fgC && s.flags.deepScrubOnError == fgD
    ensures CacheFresh(s)
    ensures s.isPrimary && s.active && !s.job.blocked
    ensures s.job == NewJob(false, seedA, seedB)
    ensures s.activeTarget.Some? <==> setActive
    ensures setActive ==> s.activeTarget == Some(EarliestTargetAt(s.job, now))
    ensures setActive ==> s.activeTarget.value == s.job.a || s.activeTarget.value == s.job.b
  {
    var flags := ScrubFlags(if fgA then 1 else 0, fgB, fgC, fgD);
    var job := NewJob(false, seedA, seedB);
    PgScrubber(flags, true, true,
               if setActive then Some(EarliestTargetAt(job, now)) else None,
               FormatFlags(flags), job)
  }

  /** Where a renderer takes the flags text from. */
  datatype FlagsStrategy = Recompute | Cached

  function FlagsText(s: PgScrubber, strategy: FlagsStrategy): string {
    match strategy
    case Recompute => FormatFlags(s.flags)
    case Cached => s.cachedFlags
  }

  /** The comma between the urgency (or `in-act`) and a non-empty flags text. */
  function Separator(flagsText: string): string {
    if flagsText == "" then "" else ","
  }

  const NextScrubTag: string := "[next-scrub:"
  const UrgencyFieldWidth: nat := 10

  /** The status line, with the flags text taken as `strategy` says and the
      steady clock read as `now`.
      - not primary: nothing;
      - active with a target: `(` [`*blocked*,`] `U(n)` [`,` flags] `)`;
      - active without one: `(in-act` [`-*blocked*`] [`,` flags] `)`;
      - idle: `[next-scrub:` `dp`|`sh` `,` the urgency text in a 10-wide
        field `]`, describing the job's pick at `now`. */
  function Show(s: PgScrubber, strategy: FlagsStrategy, now: Time): (line: string)
    ensures !s.isPrimary ==> line == ""
    ensures s.isPrimary && s.active ==> |line| >= 2 && line[0] == '(' && line[|line| - 1] == ')'
    ensures s.isPrimary && s.active && s.activeTarget.Some? && FlagsText(s, strategy) == ""
            ==> |line| == |UrgencyTxt(s.activeTarget.value)| + 2 + (if s.job.blocked then 10 else 0)
    ensures s.isPrimary && !s.active && IsHighPriority(EarliestTargetAt(s.job, now))
            ==> |line| == 26 && line[..12] == NextScrubTag && line[|line| - 1] == ']'
  {
    if !s.isPrimary then ""
    else if s.active then
      var flagsTxt := FlagsText(s, strategy);
      var sep := Separator(flagsTxt);
      match s.activeTarget
      case Some(t) =>
        "(" + ((if s.job.blocked then "*blocked*," else "") + UrgencyTxt(t) + sep + flagsTxt) + ")"
      case None =>
        "(" + ("in-act" + (if s.job.blocked then "-*blocked*" else "") + sep + flagsTxt) + ")"
    else
      var next := EarliestTargetAt(s.job, now);
      if !IsHighPriority(next) then ""
      else NextScrubTag + (if IsDeep(next) then "dp" else "sh") + ","
           + FitField(UrgencyTxt(next), UrgencyFieldWidth) + "]"
  }

  /** `show_concise`: recomputes the flags text. */
  function ShowConcise(s: PgScrubber, now: Time): string {
    Show(s, Recompute, now)
  }

  /** `show_2`: serves the cached flags text. */
  function Show2(s: PgScrubber, now: Time): string {
    Show(s, Cached, now)
  }

  /** With a fresh cache the two renderers write the same line. */
  lemma CachedMatchesRecompute(s: PgScrubber, now: Time)
    requires CacheFresh(s)
    ensures Show2(s, now) == ShowConcise(s, now)
  {
  }

  /** A constructed scrubber's cache is fresh, for every flag setting, so
      its two renderers agree. */
  lemma ConstructedRenderersAgree(setActive: bool, fgA: bool, fgB: bool, fgC: bool, fgD: bool,
                                  seedA: ClockSeed, seedB: ClockSeed, ctorNow: Time, now: Time)
    ensures var s := NewScrubber(setActive, fgA, fgB, fgC, fgD, seedA, seedB, ctorNow);
            Show2(s, now) == ShowConcise(s, now)
  {
  }

  /** The cache is never refreshed: in this hand-built active state whose
      flags no longer match the cached text, the two renderers differ. */
  lemma StaleCacheDiverges()
    ensures var job := Job(false, Target(1, 0, 0, 0), Target(0, 1, 0, 0));
            var s := PgScrubber(ScrubFlags(0, true, false, false), true, true, None, "", job);
            && ShowConcise(s, 0) == "(in-act,auto-repair)"
            && Show2(s, 0) == "(in-act)"
  {
  }

  /** Idle and primary, the line is always the 26-character next-scrub
      form: every target reports itself high priority, so the branch that
      renders nothing for an idle primary is never taken. */
  lemma IdleAlwaysShowsNextScrub(s: PgScrubber, strategy: FlagsStrategy, now: Time)
    requires s.isPrimary && !s.active
    ensures |Show(s, strategy, now)| == 26
  {
  }

  /** A scrubber built with an active target, whose clock readings all
      precede the constructor's `now`, shows the shallow target's `U(1)`. */
  lemma ConstructedActiveLine(fgA: bool, fgB: bool, fgC: bool, fgD: bool,
                              seedA: ClockSeed, seedB: ClockSeed, ctorNow: Time, now: Time)
    requires seedA.firstNow <= ctorNow && seedB.firstNow <= ctorNow
    ensures var s := NewScrubber(true, fgA, fgB, fgC, fgD, seedA, seedB, ctorNow);
            var flagsTxt := FormatFlags(s.flags);
            ShowConcise(s, now) == "(" + ("U(1)" + Separator(flagsTxt) + flagsTxt) + ")"
  {
    var s := NewScrubber(true, fgA, fgB, fgC, fgD, seedA, seedB, ctorNow);
    ConstructedJobPicksShallow(false, seedA, seedB, ctorNow);
    assert s.activeTarget == Some(s.job.a);
    assert UrgencyTxt(s.job.a) == "U(1)";
    UnblockedTargetLine(s, s.job.a, now);
  }

  /** An unblocked active primary with a target writes `(U(n)` + flags + `)`. */
  lemma UnblockedTargetLine(s: PgScrubber, t: Target, now: Time)
    requires s.isPrimary && s.active && !s.job.blocked && s.activeTarget == Some(t)
    ensures var flagsTxt := FormatFlags(s.flags);
            ShowConcise(s, now) == "(" + (UrgencyTxt(t) + Separator(flagsTxt) + flagsTxt) + ")"
  {
    var flagsTxt := FormatFlags(s.flags);
    assert "" + UrgencyTxt(t) + Separator(flagsTxt) + flagsTxt
        == UrgencyTxt(t) + Separator(flagsTxt) + flagsTxt;
  }

  /** A scrubber built without an active target shows the `in-act` form. */
  lemma ConstructedInactiveLine(fgA: bool, fgB: bool, fgC: bool, fgD: bool,
                                seedA: ClockSeed, seedB: ClockSeed, ctorNow: Time, now: Time)
    ensures var s := NewScrubber(false, fgA, fgB, fgC, fgD, seedA, seedB, ctorNow);
            var flagsTxt := FormatFlags(s.flags);
            ShowConcise(s, now) == "(" + ("in-act" + Separator(flagsTxt) + flagsTxt) + ")"
  {
    var s := NewScrubber(false, fgA, fgB, fgC, fgD, seedA, seedB, ctorNow);
    var flagsTxt := FormatFlags(s.flags);
    assert "in-act" + "" + Separator(flagsTxt) + flagsTxt == "in-act" + Separator(flagsTxt) + flagsTxt;
  }

  // ---------------------------------------------------------------------
  // Concrete lines

  /** Not primary: nothing is written. */
  lemma ScenarioNotPrimary(s: PgScrubber, strategy: FlagsStrategy, now: Time)
    requires !s.isPrimary
    ensures Show(s, strategy, now) == ""
  {
  }

  /** Active, blocked, target of urgency 5, auto-repair set. */
  lemma ScenarioBlockedActive()
    ensures var job := Job(true, Target(1, 0, 0, 0), Target(0, 1, 0, 0));
            var flags := ScrubFlags(0, true, false, false);
            var s := PgScrubber(flags, true, true, Some(Target(5, 0, 0, 0)), FormatFlags(flags), job);
            ShowConcise(s, 0) == "(*blocked*,U(5),auto-repair)"
  {
  }

  /** Active, unblocked, no target, no flags. */
  lemma ScenarioInactiveNoFlags()
    ensures var job := Job(false, Target(1, 0, 0, 0), Target(0, 1, 0, 0));
            var flags := ScrubFlags(0, false, false, false);
            var s := PgScrubber(flags, true, true, None, FormatFlags(flags), job);
            ShowConcise(s, 0) == "(in-act)"
  {
  }

  /** Idle, the pick is a ripe deep target of urgency 3 (the shallow one is
      not yet ripe): the urgency text is padded to ten characters. */
  lemma ScenarioIdleDeep()
    ensures var job := Job(false, Target(7, 0, 100, 0), Target(3, 1, 0, 0));
            var flags := ScrubFlags(0, false, false, false);
            var s := PgScrubber(flags, true, false, None, FormatFlags(flags), job);
            ShowConcise(s, 50) == "[next-scrub:dp,U(3)      ]"
  {
  }

  /** Idle, with an urgency whose text is longer than ten characters: the
      field keeps the first ten and drops the closing parenthesis. */
  lemma ScenarioIdleTruncated()
    ensures var job := Job(false, Target(12345678, 0, 0, 0), Target(0, 1, 0, 0));
            var flags := ScrubFlags(0, false, false, false);
            var s := PgScrubber(flags, true, false, None, FormatFlags(flags), job);
            ShowConcise(s, 0) == "[next-scrub:sh,U(12345678]"
  {
  }
}
