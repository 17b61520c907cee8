/** What the coverage lane really ran, and that an attestation records just that. */
module CoverageLane {
  import opened Options
  import opened Chars
  import opened Trailers
  import TrailerGrammar
  import opened AttestRun
  import opened Attestation

  /** What the lane writes of a run of everything, or of a subset. */
  function Word(whole: bool): string { if whole then "all" else "subset" }

  ghost predicate WrittenAs(text: string, word: string, lead: string, tail: string) {
    AllSpaces(lead) && AllSpaces(tail) && text == lead + word + tail
  }

  /** The lane ran everything, or a subset, and its file says so, with any white space around. */
  ghost predicate LaneSays(says: Option<string>, whole: bool) {
    says.Some? && exists lead, tail :: WrittenAs(says.value, Word(whole), lead, tail)
  }

  lemma WordsStand(whole: bool)
    ensures Trimmed(Word(whole))
    ensures Word(true) != Word(false)
  {
    assert |Word(true)| != |Word(false)|;
  }

  /** The answer read from the file is what the lane ran. */
  lemma AnswerIs(says: Option<string>, whole: bool)
    ensures CoverageRan(says) == Some(!whole) <==> LaneSays(says, whole)
  {
    hide IsSpace, Strip;
    WordsStand(true);
    WordsStand(false);
    if LaneSays(says, whole) {
      var lead, tail :| WrittenAs(says.value, Word(whole), lead, tail);
      StripIs(says.value, Word(whole), lead, tail);
      RanIs(says, whole);
    }
    if CoverageRan(says) == Some(!whole) {
      RanIs(says, whole);
      var lead, tail := StripParts(says.value);
      assert WrittenAs(says.value, Word(whole), lead, tail);
    }
  }

  lemma RanIs(says: Option<string>, whole: bool)
    ensures CoverageRan(says) == Some(!whole) <==> says.Some? && Strip(says.value) == Word(whole)
  {
    hide Strip;
    assert |Word(true)| != |Word(false)|;
  }

  lemma NoAnswer(says: Option<string>)
    ensures CoverageRan(says).None? <==> !LaneSays(says, true) && !LaneSays(says, false)
  {
    hide LaneSays;
    AnswerIs(says, true);
    AnswerIs(says, false);
  }

  // ---- the run and its record

  /** What hook `h` really ran, the coverage lane having run everything if `whole`. */
  function ReallyRan(t: Trial, whole: bool, h: string): What {
    if h == "q-tests" then t.plan
    else if h == "q-coverage" && !whole then t.coveragePlan
    else All
  }

  /** When the run has coverage, the lane's file says what it ran. */
  ghost predicate LaneRan(t: Trial, whole: bool) { "q-coverage" in t.hooks ==> LaneSays(t.coverageSays, whole) }

  lemma RanReally(t: Trial, whole: bool, h: string)
    requires LaneRan(t, whole) && h in t.hooks
    ensures WhatRan(t, h) == ReallyRan(t, whole, h)
  {
    AnswerIs(t.coverageSays, whole);
    hide CoverageRan, LaneSays;
  }

  /** A hook lets the run go on when it passed; coverage, when besides its file says
      what it ran, and its suite passed if q-tests' verdict is read from it. */
  lemma GoesOnIff(t: Trial, h: string)
    ensures GoesOn(t, h) <==>
              && t.passes(h)
              && (h == "q-coverage" ==>
                    && (exists whole :: LaneSays(t.coverageSays, whole))
                    && ("q-tests" in t.hooks && "q-coverage" in t.hooks ==>
                          && t.results.Some? && t.failures.Some?
                          && (exists line :: line in t.results.value && !AllSpaces(line))
                          && (forall line :: line in t.failures.value ==> AllSpaces(line))))
  {
    NoAnswer(t.coverageSays);
    VerdictIs(t.results, t.failures);
    forall line ensures Blank(line) <==> AllSpaces(line) { TrailerGrammar.BlankStrips(line); }
    hide CoverageRan, LaneSays, UnitVerdict, Blank, AllSpaces;
    assert (exists whole :: LaneSays(t.coverageSays, whole)) <==>
           LaneSays(t.coverageSays, true) || LaneSays(t.coverageSays, false);
  }

  /** COVERAGE. The recorded line reads back as the hooks that ran, each with what it
      really ran: coverage as everything if and only if the lane ran everything, or
      everything was selected. */
  lemma RecordedAsRun(t: Trial, whole: bool, every: set<string>)
    requires t.hooks != [] && (forall h :: h in t.hooks ==> HookName(h)) && Writable(Some(t.plan))
    requires Writable(Some(t.coveragePlan)) && LaneRan(t, whole)
    ensures var a := ParseTrailer(LineOf(t), t.tree, every);
            && a.Some? && a.value.hooks == (set h | h in t.hooks)
            && ("q-tests" in t.hooks ==> a.value.qTests == t.plan)
            && ("q-coverage" in t.hooks ==>
                  && a.value.qCoverage == (if whole then All else t.coveragePlan)
                  && (a.value.qCoverage == All <==> whole || t.coveragePlan == All))
  {
    LineSaysWhatRan(t, every);
    hide ParseTrailer, LineOf, HookName, WhatRan, LaneRan;
    forall h | h in t.hooks ensures WhatRan(t, h) == ReallyRan(t, whole, h) { RanReally(t, whole, h); }
    KeysApart();
  }

  lemma KeysApart()
    ensures Q_TESTS == "q-tests" && Q_COVERAGE == "q-coverage" && Q_TESTS != Q_COVERAGE
  {
    assert Q_TESTS[2] != Q_COVERAGE[2];
  }

  /** An attestation adds the runs that took place, each with what it really ran, and no other. */
  lemma PassedAsRun(r: Rules, s: State, on: nat, t: Trial, s': State, whole: bool)
    requires Next(r, s, Attest(on, t), s') && LaneRan(t, whole)
    ensures on < |s.history|
    ensures s'.passed == s.passed + (set h | h in t.hooks :: Run(h, s.history[on].tree, ReallyRan(t, whole, h)))
  {
    hide LineOf, GoesOn, WhatRan, LaneRan, HookName, Writable;
    forall h | h in t.hooks ensures WhatRan(t, h) == ReallyRan(t, whole, h) { RanReally(t, whole, h); }
    var tree := s.history[on].tree;
    assert Added(t, tree) == (set h | h in t.hooks :: Run(h, tree, ReallyRan(t, whole, h)));
  }
}
