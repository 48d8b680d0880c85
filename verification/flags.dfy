/** The scrub flags of a placement-group scrubber and their text form: the
    names of the set repair flags, comma-joined in a fixed order. */
module Flags {
  import opened Optional
  import opened Text

  /** `priority` is an `unsigned int` that is stored but never rendered. */
  datatype ScrubFlags = ScrubFlags(priority: nat, autoRepair: bool, checkRepair: bool, deepScrubOnError: bool)

  const AutoRepairName: string := "auto-repair"
  const CheckRepairName: string := "check-repair"
  const DeepScrubOnErrorName: string := "deep-scrub-on-error"

  /** Every flag name, in rendering order. */
  const FlagNames: seq<string> := [AutoRepairName, CheckRepairName, DeepScrubOnErrorName]

  predicate NoneSet(f: ScrubFlags) {
    !f.autoRepair && !f.checkRepair && !f.deepScrubOnError
  }

  /** The flags formatter: appends each set flag's name in turn, with a
      comma before every name but the first one written. */
  function FormatFlags(f: ScrubFlags): (txt: string)
    ensures txt == "" <==> NoneSet(f)
    ensures txt != "" ==> txt[0] != ',' && txt[|txt| - 1] != ','
  {
    var (txt1, sep1) :=
      if f.autoRepair then (AutoRepairName, true) else ("", false);
    var (txt2, sep2) :=
      if f.checkRepair then (txt1 + (if sep1 then "," + CheckRepairName else CheckRepairName), true)
      else (txt1, sep1);
    if f.deepScrubOnError then txt2 + (if sep2 then "," + DeepScrubOnErrorName else DeepScrubOnErrorName)
    else txt2
  }

  /** The names of the set flags, in the order of `FlagNames`. */
  function SetFlagNames(f: ScrubFlags): (names: seq<string>)
    ensures |names| == 0 <==> NoneSet(f)
    ensures forall i | 0 <= i < |names| :: names[i] in FlagNames
  {
    (if f.autoRepair then [AutoRepairName] else [])
    + (if f.checkRepair then [CheckRepairName] else [])
    + (if f.deepScrubOnError then [DeepScrubOnErrorName] else [])
  }

  /** The formatter agrees with the reference definition: the names of the
      set flags joined by commas. */
  lemma FormatFlagsIsJoin(f: ScrubFlags)
    ensures FormatFlags(f) == Join(',', SetFlagNames(f))
  {
    var (ar, cr, ds) := (f.autoRepair, f.checkRepair, f.deepScrubOnError);
    if ar && cr && ds {
      JoinThree(',', AutoRepairName, CheckRepairName, DeepScrubOnErrorName);
    } else if ar && cr {
      JoinTwo(',', AutoRepairName, CheckRepairName);
    } else if ar && ds {
      JoinTwo(',', AutoRepairName, DeepScrubOnErrorName);
    } else if cr && ds {
      JoinTwo(',', CheckRepairName, DeepScrubOnErrorName);
    }
  }

  /** `priority` never shows in the text. */
  lemma PriorityNotRendered(f: ScrubFlags, p: nat)
    ensures FormatFlags(f.(priority := p)) == FormatFlags(f)
  {
  }

  /** Reads a run of flag names back, accepting only names that appear in
      `FlagNames` order, each at most once. */
  function NamesToFlags(names: seq<string>): Option<ScrubFlags> {
    var ar := |names| > 0 && names[0] == AutoRepairName;
    var rest1 := if ar then names[1..] else names;
    var cr := |rest1| > 0 && rest1[0] == CheckRepairName;
    var rest2 := if cr then rest1[1..] else rest1;
    var ds := |rest2| > 0 && rest2[0] == DeepScrubOnErrorName;
    var rest3 := if ds then rest2[1..] else rest2;
    if rest3 == [] then Some(ScrubFlags(0, ar, cr, ds)) else None
  }

  /** Decodes a flags text; the priority, which is not rendered, reads as 0. */
  function ParseFlags(txt: string): Option<ScrubFlags> {
    if txt == "" then Some(ScrubFlags(0, false, false, false))
    else NamesToFlags(Split(txt, ','))
  }

  lemma NamesToFlagsOfSetNames(f: ScrubFlags)
    ensures NamesToFlags(SetFlagNames(f)) == Some(f.(priority := 0))
  {
    var names := SetFlagNames(f);
    if f.autoRepair {
      assert names[0] == AutoRepairName;
    }
  }

  /** The flags text determines the three repair flags. */
  lemma FlagsTextRoundTrip(f: ScrubFlags)
    ensures ParseFlags(FormatFlags(f)) == Some(f.(priority := 0))
  {
    FormatFlagsIsJoin(f);
    NamesToFlagsOfSetNames(f);
    var names := SetFlagNames(f);
    if |names| > 0 {
      forall i | 0 <= i < |names|
        ensures ',' !in names[i]
      {
        assert names[i] in FlagNames;
      }
      SplitJoinRoundTrip(',', names);
    }
  }

  /** Two flag settings render alike exactly when their repair flags agree. */
  lemma FlagsTextInjective(f: ScrubFlags, g: ScrubFlags)
    ensures FormatFlags(f) == FormatFlags(g)
        <==> f.(priority := 0) == g.(priority := 0)
  {
    FlagsTextRoundTrip(f);
    FlagsTextRoundTrip(g);
  }
}
