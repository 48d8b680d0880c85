# Scrub-target selection and the scrubber status line

A Dafny model of the scheduling and rendering core of the `scrub_flags`
benchmark (`main.cc`). A placement group's scrub job owns two scrub
targets, a shallow one (`a`) and a deep one (`b`). Three comparators rank
two targets. A target is *ripe* once its `not_before` time has passed, and
ripeness gates the ranking; urgency, `scheduled_at`, depth and `not_before`
break the remaining ties in a fixed order. The job picks its earliest
target with or without a reference time. The scrubber renders a compact
status line for the log, in one of two ways: recomputing the text of its
scrub flags on every call (`show_concise`) or serving the text it cached at
construction (`show_2`).

Modules, leaf first:

- `Optional`, `Text` (`optional.dfy`, `text.dfy`): an option type and the
  string helpers the renderer needs. These are decimal integers as `fmt`
  prints them, the `{:10.10}` field, comma join and split, and the decoders
  that invert them.
- `Orderings` (`orderings.dfy`): the `Less | Equiv | Greater` result of a
  `std::weak_ordering` comparison (`Less` = left preferred), numeric
  comparison, and `FirstDecisive`, the "first key that differs decides"
  lexicographic reference.
- `Targets` (`targets.dfy`): `Target`, its constructor with the clock
  readings and the random delay passed in, ripeness, `is_deep`,
  `is_high_priority`, `urgency_txt`.
- `Comparator` (`comparator.dfy`): `cmp_ripe_entries`,
  `cmp_future_entries`, `cmp_entries` and their precedence properties.
- `Jobs` (`jobs.dfy`): `Job` and both `earliest_target` overloads.
- `Flags` (`flags.dfy`): `scrub_flags_t` and its formatter, with a
  join-of-names reference definition and a decoder.
- `Scrubber` (`scrubber.dfy`): `PgScrubber`, its constructor, and the two
  renderers as one `Show` with a `Recompute` / `Cached` flags strategy.
- `StatusLine` (`status.dfy`): a decoder for the status-line grammar. Its
  main lemma: decoding either renderer's output recovers what the line is
  meant to say.

Time points are `int` tick counts. `std::weak_order` on a steady-clock time
point is plain integer order. `chrono::seconds(n)` is
`n * TicksPerSecond` ticks, with nanosecond ticks.

Three places where the intent one would read into the code differs from
what it does; the model follows what it does:

- The comparators return `std::weak_ordering`, but they never return
  "equivalent": a full tie answers `greater`, so a target compared with
  itself loses to itself (`SelfComparisonPicksRight`).
- The ripe comparator checks depth only in the left target's favour. So its
  preference is neither asymmetric (`RipeNotAsymmetric`) nor transitive
  (`RipePreferenceCycle`), and the ripe picker's answer can depend on which
  slot a target occupies (`PickDependsOnSlotOrder`). The future
  comparator's preference, in contrast, is a strict order
  (`FutureAsymmetric`, `FutureTransitive`).
- The renderer's comment promises that an idle scrubber may render nothing.
  But every target reports itself high priority, so that branch is never
  taken (`IdleAlwaysShowsNextScrub`).

## Model

| member | source | states |
|---|---|---|
| `Targets.NewTarget` | main.cc:32-37 | keeps urgency and level; `not_before` is at or before the first clock reading by less than 100000 s; `scheduled_at` lies twice as far before the second reading |
| `Targets.UrgencyTxt` | main.cc:40 | the urgency text is `U(`, then `-` exactly when the urgency is negative, then decimal digits with no leading zero, then `)`; `StatusLine.UrgencyTxtRoundTrip` pins the exact value |
| `Comparator.CmpRipeEntries` | main.cc:58-83 | the ripe comparator never reports a tie |
| `Comparator.CmpFutureEntries` | main.cc:85-106 | the future comparator never reports a tie |
| `Comparator.CmpEntries` | main.cc:108-124 | never a tie; a ripe target (`IsRipe`: `not_before <= now`, main.cc:112-113) beats an unripe one on either side |
| `Comparator.RipeIsLexicographic` | main.cc:58-83 | the ripe comparator is the lexicographic comparison of the keys: higher urgency, earlier `scheduled_at`, left-is-deeper, earlier `not_before`; fallback `Greater` |
| `Comparator.FutureIsLexicographic` | main.cc:85-106 | the future comparator is the lexicographic comparison of the keys: earlier `not_before`, higher urgency, earlier `scheduled_at`, left-is-deeper; fallback `Greater` |
| `Comparator.ReadinessGate` | main.cc:112-122 | if exactly one target is ripe it wins, from either side, whatever the other keys |
| `Comparator.RipeOrdering` | main.cc:62-74 | both ripe: strictly higher urgency wins outright; at equal urgency strictly earlier `scheduled_at` wins |
| `Comparator.FutureOrdering` | main.cc:88-101 | neither ripe: strictly earlier `not_before` wins regardless of urgency; then higher urgency; then earlier `scheduled_at` |
| `Comparator.SelfComparisonPicksRight` | main.cc:58-124 | every comparator answers `Greater` when a target is compared with itself |
| `Comparator.RipeDepthTieBreak` | main.cc:71-82 | at equal urgency and `scheduled_at` a deeper left target wins regardless of `not_before`; otherwise the left one wins iff its `not_before` is strictly earlier |
| `Comparator.FutureDepthTieBreak` | main.cc:98-105 | on a tie of `not_before`, urgency and `scheduled_at`, the left target wins iff it is strictly deeper; otherwise the right one wins |
| `Comparator.FutureAsymmetric` | main.cc:85-106 | if the future comparator prefers `a` over `b`, it ranks `b` after `a` |
| `Comparator.FutureTransitive` | main.cc:85-106 | the future comparator's preference is transitive |
| `Comparator.FutureConsistentOnDistinctKeys` | main.cc:85-106 | for targets differing in a compared key, `a` before `b` iff `b` after `a` |
| `Comparator.RipeAsymmetricAtEqualLevel` | main.cc:58-83 | at equal levels the ripe comparator's preference is asymmetric |
| `Comparator.RipeNotAsymmetric` | main.cc:75-81 | a concrete shallow and deep ripe pair where each wins when placed on the left |
| `Comparator.RipePreferenceCycle` | main.cc:71-82 | three concrete ripe targets that beat each other around a cycle |
| `Jobs.NewJob` | main.cc:44-50 | a new job has `a` at level 0 (shallow) with urgency 1 and `b` at level 1 (deep) with urgency 0, each scheduled by the `Target` constructor from its own clock readings and so ripe from its own first reading |
| `Jobs.EarliestTarget` | main.cc:128-138 | the pick is one of the two targets, and the future comparator prefers neither target over it |
| `Jobs.EarliestTargetAt` | main.cc:141-151 | the pick is one of the two targets; it is ripe whenever one of them is; of two ripe targets of different urgency it is the more urgent; with neither ripe it agrees with `EarliestTarget` |
| `Jobs.PickerChoosesByComparator` | main.cc:128-151 | for distinct targets each picker returns `a` iff its comparator answers `Less`, else `b` |
| `Jobs.IdenticalTargetsPickB` | main.cc:128-151 | with identical targets both comparators answer `Greater`, and both pickers return `b` |
| `Jobs.PickDependsOnSlotOrder` | main.cc:141-145 | a concrete pair where the ripe picker returns whichever target is in slot `a` |
| `Jobs.ConstructedJobPicksShallow` | main.cc:32-50 | once `now` is past both constructors' clock readings, the ripe picker returns the shallow target `a` |
| `Text.FitField` | main.cc:288-290 | the `{:10.10}` field has exactly the width; position i holds the text's i-th character, or a blank past its end |
| `Flags.FormatFlags` | main.cc:190-207 | the flags text is empty iff no repair flag is set, and never starts or ends with a comma |
| `Flags.FormatFlagsIsJoin` | main.cc:192-206 | the flags text is the comma-join of `auto-repair`, `check-repair`, `deep-scrub-on-error`, in that order, restricted to the set flags |
| `Flags.PriorityNotRendered` | main.cc:165-206 | changing `priority` never changes the flags text |
| `Flags.FlagsTextRoundTrip` | main.cc:192-206 | decoding the flags text gives back all three repair flags |
| `Flags.FlagsTextInjective` | main.cc:192-206 | two flag settings give the same text iff their repair flags agree |
| `Scrubber.NewScrubber` | main.cc:214-222 | the five booleans map to priority (0/1), auto-repair, check-repair, deep-scrub-on-error; the cache is fresh; the job is the unblocked `NewJob`; there is an active target iff requested, and it is the job's `earliest_target(now)` |
| `Scrubber.Show` | main.cc:247-338 | `ShowConcise` (`show_concise`, main.cc:247-291) and `Show2` (`show_2`, main.cc:294-338) are `Show` with the `Recompute` / `Cached` flags text (`FlagsText`). Non-primary renders ""; an active line is parenthesised, and without flags its length is the urgency text plus 2, plus 10 when blocked; an idle line whose pick is high priority (`IsHighPriority`, main.cc:38) is 26 characters `[next-scrub:…]`, with `dp`/`sh` from `IsDeep` (main.cc:39) |
| `Scrubber.CachedMatchesRecompute` | main.cc:235-338 | with a fresh cache (`CacheFresh`: the cached text equals the formatted flags, main.cc:235-240), `show_2` writes exactly what `show_concise` writes |
| `Scrubber.ConstructedRenderersAgree` | main.cc:214-240 | for every flag setting, a constructed scrubber's two renderers agree |
| `Scrubber.StaleCacheDiverges` | main.cc:233-240 | a concrete active state with auto-repair set but an empty cached text: `show_concise` writes `(in-act,auto-repair)`, `show_2` writes `(in-act)` |
| `Scrubber.IdleAlwaysShowsNextScrub` | main.cc:280-290 | an idle primary always writes the 26-character next-scrub line, never nothing |
| `Scrubber.ConstructedActiveLine` | main.cc:214-273 | a constructed scrubber with an active target, with all clock readings before the constructor's `now`, renders `(U(1)` + optional comma and flags + `)` |
| `Scrubber.UnblockedTargetLine` | main.cc:268-273 | an unblocked active primary with target `t` writes `(`, `t`'s urgency text, an optional comma and the flags text, `)` |
| `Scrubber.ConstructedInactiveLine` | main.cc:268-278 | a constructed scrubber without an active target renders `(in-act` + optional comma and flags + `)` |
| `Scrubber.ScenarioNotPrimary` | main.cc:264-266 | a non-primary scrubber renders the empty string |
| `Scrubber.ScenarioBlockedActive` | main.cc:268-273 | blocked, urgency 5, auto-repair: `(*blocked*,U(5),auto-repair)` |
| `Scrubber.ScenarioInactiveNoFlags` | main.cc:274-278 | unblocked, no target, no flags: `(in-act)` |
| `Scrubber.ScenarioIdleDeep` | main.cc:281-290 | idle, ripe deep pick of urgency 3: `[next-scrub:dp,U(3)      ]` |
| `Scrubber.ScenarioIdleTruncated` | main.cc:288-290 | idle, urgency 12345678: the field truncates to `U(12345678`, losing the closing parenthesis |
| `StatusLine.UrgencyTxtRoundTrip` | main.cc:40 | the urgency is read back from its text, together with whatever follows it |
| `StatusLine.StatusRoundTrip` | main.cc:264-290 | decoding either renderer's line recovers: silence; or the blocked state, the active urgency (if any) and the flags text; or the depth and urgency field of the next scrub |
| `StatusLine.StaleActiveDiverges` | main.cc:233-338 | an active primary whose cached text differs from its formatted flags gets different lines from `show_2` and `show_concise` |
| `StatusLine.IdleIgnoresCache` | main.cc:280-338 | an idle primary's line carries no flags text, so both renderers write the same line whatever the cache holds |
| `StatusLine.UrgencyFitsField` | main.cc:288-290 | the urgency text fits the 10-character field iff -1000000 < urgency < 10000000 |
| `StatusLine.FieldKeepsShortUrgency` | main.cc:288-290 | for such urgencies, trimming the field's padding and decoding gives the urgency back |

## Left out

- The benchmark functions and `BENCHMARK_MAIN`: they only time the renderers.
- The `#if 0` block: it is dead code over types that are not defined in
  the file.
- `rand()` and `steady_clock::now()`. Each target's clock readings and delay
  are a `ClockSeed` parameter. The renderers' and the constructor's `now`
  are parameters.
- The `ostream` / `ostringstream` plumbing and the `fmt` internals. Output is
  a `string`; `{:10.10}` is `FitField`, which counts characters (all output
  here is ASCII).
- The raw `new Job` and its leak: the job is a value inside the scrubber.
- The unused `msg` field of `Target` and the job's name, which only feeds it.
- The `const` and non-`const` overloads of `earliest_target`: they compute
  the same thing, and each pair is one function.
- `is_primary()` and `m_active` are fields. The constructor sets both to
  true, as the code's constants are. `is_high_priority()` stays the constant
  `true` it is, so the "render nothing" idle branch is modelled but
  unreachable.
- Integer widths. `urgency` and `level` are C++ `int`s, and time points are
  64-bit tick counts. The model uses unbounded integers, so a wrap-around of
  `now - seconds(rnd)` near the clock's range limit is not modelled.
- Idempotence of the pickers and renderers holds by construction: they are
  pure functions of explicit inputs.
