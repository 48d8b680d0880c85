/** How a reader of the log recovers the scrubber's state from a status
    line: a decoder for the line grammar, and the proof that decoding what
    the renderer wrote gives back exactly what the line is meant to say. */
module StatusLine {
  import opened Optional
  import opened Text
  import opened Targets
  import opened Jobs
  import opened Scrubber

  /** What one status line says. `urgencyField` is the ten-character field,
      which may have lost the end of a long urgency text. */
  datatype StatusView =
    | Silent
    | Scrubbing(blocked: bool, urgency: Option<int>, flagsText: string)
    | NextScrub(deep: bool, urgencyField: string)

  /** The meaning of the line a renderer writes for `s`, given the flags
      text it used. */
  function ViewOf(s: PgScrubber, flagsText: string, now: Time): StatusView {
    if !s.isPrimary then Silent
    else if s.active then
      Scrubbing(s.job.blocked,
                match s.activeTarget case Some(t) => Some(t.urgency) case None => None,
                flagsText)
    else
      var next := EarliestTargetAt(s.job, now);
      if !IsHighPriority(next) then Silent
      else NextScrub(IsDeep(next), FitField(UrgencyTxt(next), UrgencyFieldWidth))
  }

  /** Reads `U(<int>)` off the front of `s`, returning the integer and what
      follows the closing parenthesis. */
  function ParseUrgencyTxt(s: string): Option<(int, string)> {
    if HasPrefix(s, "U(") then
      var body := s[2..];
      var k := FirstIndexOf(body, ')');
      if k < |body| then
        match ParseInt(body[..k])
        case Some(u) => Some((u, body[k + 1..]))
        case None => None
      else None
    else None
  }

  /** Reads the optional `,<flags>` tail of an active line. */
  function ParseFlagsTail(t: string): Option<string> {
    if t == "" then Some("")
    else if |t| > 1 && t[0] == ',' then Some(t[1..])
    else None
  }

  /** Reads the text between the parentheses of an active line. */
  function ParseActive(inner: string): Option<StatusView> {
    if HasPrefix(inner, "in-act") then ParseInAct(inner[6..]) else ParseWithTarget(inner)
  }

  /** Reads what follows `in-act` in an active line without a target. */
  function ParseInAct(rest: string): Option<StatusView> {
    var blocked := HasPrefix(rest, "-*blocked*");
    var tail := if blocked then rest[10..] else rest;
    match ParseFlagsTail(tail)
    case Some(flagsText) => Some(Scrubbing(blocked, None, flagsText))
    case None => None
  }

  /** Reads the inside of an active line with a target. */
  function ParseWithTarget(inner: string): Option<StatusView> {
    var blocked := HasPrefix(inner, "*blocked*,");
    var rest := if blocked then inner[10..] else inner;
    match ParseUrgencyTxt(rest)
    case None => None
    case Some(parsed) =>
      match ParseFlagsTail(parsed.1)
      case Some(flagsText) => Some(Scrubbing(blocked, Some(parsed.0), flagsText))
      case None => None
  }

  /** Decodes a whole status line. */
  function ParseStatus(line: string): Option<StatusView> {
    if line == "" then Some(Silent)
    else if |line| >= 2 && line[0] == '(' && line[|line| - 1] == ')' then
      ParseActive(line[1..|line| - 1])
    else if |line| == 26 && line[..12] == NextScrubTag && line[14] == ',' && line[25] == ']'
            && (line[12..14] == "dp" || line[12..14] == "sh") then
      Some(NextScrub(line[12..14] == "dp", line[15..25]))
    else None
  }

  lemma UrgencyTxtRoundTrip(t: Target, tail: string)
    ensures ParseUrgencyTxt(UrgencyTxt(t) + tail) == Some((t.urgency, tail))
  {
    var digits := IntToString(t.urgency);
    var s := UrgencyTxt(t) + tail;
    var body := digits + [')'] + tail;
    assert s[..2] == "U(";
    assert s[2..] == body;
    assert ')' !in digits by {
      forall k | 0 <= k < |digits|
        ensures digits[k] != ')'
      {
      }
    }
    FirstIndexOfAfter(digits, ')', tail);
    assert body[..|digits|] == digits;
    assert body[|digits| + 1..] == tail;
    IntToStringRoundTrip(t.urgency);
  }

  lemma FlagsTailRoundTrip(flagsText: string)
    ensures ParseFlagsTail(Separator(flagsText) + flagsText) == Some(flagsText)
  {
    if flagsText != "" {
      assert (Separator(flagsText) + flagsText)[1..] == flagsText;
    }
  }

  lemma ActiveTargetRoundTrip(blocked: bool, t: Target, flagsText: string)
    ensures var marker := if blocked then "*blocked*," else "";
            ParseActive(marker + UrgencyTxt(t) + Separator(flagsText) + flagsText)
            == Some(Scrubbing(blocked, Some(t.urgency), flagsText))
  {
    var tail := Separator(flagsText) + flagsText;
    var body := UrgencyTxt(t) + tail;
    var marker := if blocked then "*blocked*," else "";
    assert marker + UrgencyTxt(t) + Separator(flagsText) + flagsText == marker + body;
    UrgencyTxtRoundTrip(t, tail);
    FlagsTailRoundTrip(flagsText);
    assert body[0] == 'U';
    if blocked {
      BlockedWithTarget(body, t.urgency, tail);
    } else {
      assert "" + body == body;
      UnblockedWithTarget(body, t.urgency, tail);
    }
  }

  lemma NotInAct(inner: string)
    requires |inner| > 0 && inner[0] != 'i'
    ensures ParseActive(inner) == ParseWithTarget(inner)
  {
  }

  lemma BlockedWithTarget(body: string, urgency: int, tail: string)
    requires ParseUrgencyTxt(body) == Some((urgency, tail))
    ensures ParseActive("*blocked*," + body)
         == match ParseFlagsTail(tail)
            case Some(flagsText) => Some(Scrubbing(true, Some(urgency), flagsText))
            case None => None
  {
    var inner := "*blocked*," + body;
    assert inner[0] == '*';
    NotInAct(inner);
    assert inner[..10] == "*blocked*,";
    assert inner[10..] == body;
    WithTargetBody(true, inner, body, urgency, tail);
  }

  lemma UnblockedWithTarget(body: string, urgency: int, tail: string)
    requires |body| > 0 && body[0] == 'U'
    requires ParseUrgencyTxt(body) == Some((urgency, tail))
    ensures ParseActive(body)
         == match ParseFlagsTail(tail)
            case Some(flagsText) => Some(Scrubbing(false, Some(urgency), flagsText))
            case None => None
  {
    NotInAct(body);
    WithTargetBody(false, body, body, urgency, tail);
  }

  lemma WithTargetBody(blocked: bool, inner: string, body: string, urgency: int, tail: string)
    requires HasPrefix(inner, "*blocked*,") == blocked
    requires body == if blocked then inner[10..] else inner
    requires ParseUrgencyTxt(body) == Some((urgency, tail))
    ensures ParseWithTarget(inner)
         == match ParseFlagsTail(tail)
            case Some(flagsText) => Some(Scrubbing(blocked, Some(urgency), flagsText))
            case None => None
  {
  }

  lemma InactiveRoundTrip(blocked: bool, flagsText: string)
    ensures var marker := if blocked then "-*blocked*" else "";
            ParseActive("in-act" + marker + Separator(flagsText) + flagsText)
            == Some(Scrubbing(blocked, None, flagsText))
  {
    var marker := if blocked then "-*blocked*" else "";
    var tail := Separator(flagsText) + flagsText;
    var inner := "in-act" + marker + Separator(flagsText) + flagsText;
    assert inner[..6] == "in-act";
    var rest := inner[6..];
    assert rest == marker + tail;
    if blocked {
      assert rest[..10] == marker;
      assert rest[10..] == tail;
    } else {
      assert rest == tail;
      assert !HasPrefix(rest, "-*blocked*") by {
        if |rest| > 0 {
          assert rest[0] == ',';
        }
      }
    }
    FlagsTailRoundTrip(flagsText);
  }

  lemma ParenthesisedLine(middle: string)
    ensures ParseStatus("(" + middle + ")") == ParseActive(middle)
  {
    var line := "(" + middle + ")";
    assert line[1..|line| - 1] == middle;
  }

  lemma WithTargetLineRoundTrip(s: PgScrubber, strategy: FlagsStrategy, now: Time)
    requires s.isPrimary && s.active && s.activeTarget.Some?
    ensures ParseStatus(Show(s, strategy, now)) == Some(ViewOf(s, FlagsText(s, strategy), now))
  {
    var t := s.activeTarget.value;
    var flagsText := FlagsText(s, strategy);
    var marker := if s.job.blocked then "*blocked*," else "";
    var middle := marker + UrgencyTxt(t) + Separator(flagsText) + flagsText;
    assert Show(s, strategy, now) == "(" + middle + ")";
    assert ViewOf(s, flagsText, now) == Scrubbing(s.job.blocked, Some(t.urgency), flagsText);
    ParenthesisedLine(middle);
    ActiveTargetRoundTrip(s.job.blocked, t, flagsText);
  }

  lemma InActLineRoundTrip(s: PgScrubber, strategy: FlagsStrategy, now: Time)
    requires s.isPrimary && s.active && s.activeTarget.None?
    ensures ParseStatus(Show(s, strategy, now)) == Some(ViewOf(s, FlagsText(s, strategy), now))
  {
    var flagsText := FlagsText(s, strategy);
    var marker := if s.job.blocked then "-*blocked*" else "";
    var middle := "in-act" + marker + Separator(flagsText) + flagsText;
    assert Show(s, strategy, now) == "(" + middle + ")";
    assert ViewOf(s, flagsText, now) == Scrubbing(s.job.blocked, None, flagsText);
    ParenthesisedLine(middle);
    InactiveRoundTrip(s.job.blocked, flagsText);
  }

  lemma IdleLineRoundTrip(s: PgScrubber, strategy: FlagsStrategy, now: Time)
    requires s.isPrimary && !s.active
    ensures ParseStatus(Show(s, strategy, now)) == Some(ViewOf(s, FlagsText(s, strategy), now))
  {
    var line := Show(s, strategy, now);
    var next := EarliestTargetAt(s.job, now);
    var depth := if IsDeep(next) then "dp" else "sh";
    var field := FitField(UrgencyTxt(next), UrgencyFieldWidth);
    assert line == NextScrubTag + depth + "," + field + "]";
    assert line[0] == '[';
    assert line[12..14] == depth;
    assert line[15..25] == field;
  }

  /** The status line is unambiguous: decoding what either renderer writes
      yields the blocked state, the active target's urgency and the flags
      text of an active scrubber, and the depth and urgency field of the
      next scrub of an idle one. */
  lemma StatusRoundTrip(s: PgScrubber, strategy: FlagsStrategy, now: Time)
    ensures ParseStatus(Show(s, strategy, now)) == Some(ViewOf(s, FlagsText(s, strategy), now))
  {
    if s.isPrimary && s.active && s.activeTarget.Some? {
      WithTargetLineRoundTrip(s, strategy, now);
    } else if s.isPrimary && s.active {
      InActLineRoundTrip(s, strategy, now);
    } else if s.isPrimary {
      IdleLineRoundTrip(s, strategy, now);
    }
  }

  /** A stale cache shows in an active primary's line: when the cached text
      differs from what the flags format to, `show_2` and `show_concise`
      write different lines. (An idle line carries no flags text, so there
      the two agree whatever the cache holds.) */
  lemma StaleActiveDiverges(s: PgScrubber, now: Time)
    requires s.isPrimary && s.active && !CacheFresh(s)
    ensures Show2(s, now) != ShowConcise(s, now)
  {
    StatusRoundTrip(s, Cached, now);
    StatusRoundTrip(s, Recompute, now);
  }

  /** An idle primary writes the same line from both renderers, fresh cache
      or not. */
  lemma IdleIgnoresCache(s: PgScrubber, now: Time)
    requires s.isPrimary && !s.active
    ensures Show2(s, now) == ShowConcise(s, now)
  {
  }

  /** The urgency text fits the ten-character field exactly when the
      urgency lies strictly between -1000000 and 10000000. */
  lemma UrgencyFitsField(t: Target)
    ensures |UrgencyTxt(t)| <= UrgencyFieldWidth <==> -1_000_000 < t.urgency < 10_000_000
  {
    var u := t.urgency;
    if 0 <= u < 10_000_000 {
      NatToStringLength(u, 7);
    } else if u >= 10_000_000 {
      NatToStringLengthBelow(u, 7);
    } else if -1_000_000 < u {
      NatToStringLength(-u, 6);
    } else {
      NatToStringLengthBelow(-u, 6);
    }
  }

  /** When the urgency text fits, the field keeps all of it: trimming the
      padding and reading it back gives the urgency. */
  lemma FieldKeepsShortUrgency(t: Target)
    requires -1_000_000 < t.urgency < 10_000_000
    ensures ParseUrgencyTxt(TrimTrailingSpaces(FitField(UrgencyTxt(t), UrgencyFieldWidth)))
         == Some((t.urgency, ""))
  {
    UrgencyFitsField(t);
    var txt := UrgencyTxt(t);
    TrimPadding(txt, UrgencyFieldWidth - |txt|);
    assert txt + "" == txt;
    UrgencyTxtRoundTrip(t, "");
  }
}
