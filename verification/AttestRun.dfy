/** One attestation run: which hooks, in which order, and when it records. */
module AttestRun {
  import opened Options
  import opened Chars
  import opened Trailers

  /** What the run finds in the world, in the order it looks. */
  datatype Trial = Trial(
    tree: string,                 // the sha of the tree under test
    clean: bool,                  // nothing uncommitted or untracked
    kdbx: bool,                   // the interpreter identifies as KDB-X
    hooks: seq<string>,           // what the branch needs, or every hook
    passes: string -> bool,       // each hook's own exit
    results: Option<seq<string>>, // the coverage run's record of its tests, line by line, if it wrote one
    failures: Option<seq<string>>,// and of those that did not pass
    coverageSays: Option<string>, // what it wrote of what it ran
    plan: What,                   // the suites selected for q-tests
    coveragePlan: What,           // what is selected for q-coverage
    settled: bool)              // same tree afterwards, and clean again

  datatype Outcome = Stopped | NothingNeeded | Recorded(line: string)

  // ---- what the coverage run recorded

  predicate Blank(line: string) { Strip(line) == "" }

  function Filled(lines: seq<string>): seq<string> {
    if lines == [] then [] else (if Blank(lines[0]) then [] else [lines[0]]) + Filled(lines[1..])
  }

  /** Why the suite, as the coverage run ran it, did not pass. */
  datatype Verdict = NoOutcomes | NoTest | NotPassed(tests: seq<string>)

  function UnitVerdict(results: Option<seq<string>>, failures: Option<seq<string>>): Option<Verdict> {
    if results.None? || failures.None? then Some(NoOutcomes)
    else if Filled(results.value) == [] then Some(NoTest)
    else
      var bad := Filled(failures.value);
      if bad == [] then None else Some(NotPassed(bad))
  }

  lemma {:induction false} FilledHolds(lines: seq<string>)
    ensures forall line :: line in Filled(lines) <==> line in lines && !Blank(line)
  {
    if lines != [] {
      FilledHolds(lines[1..]);
      assert lines == [lines[0]] + lines[1..];
    }
  }

  /** The suite passed if and only if the run recorded its tests, at least one,
      and recorded none as not passing; what is shown otherwise is all that did not. */
  lemma VerdictIs(results: Option<seq<string>>, failures: Option<seq<string>>)
    ensures UnitVerdict(results, failures).None?
            <==> && results.Some? && failures.Some?
                 && (exists line :: line in results.value && !Blank(line))
                 && (forall line :: line in failures.value ==> Blank(line))
    ensures UnitVerdict(results, failures).Some? && UnitVerdict(results, failures).value.NotPassed? ==>
              && failures.Some?
              && forall line :: line in UnitVerdict(results, failures).value.tests <==>
                line in failures.value && !Blank(line)
  {
    if results.Some? && failures.Some? {
      FilledHolds(results.value);
      FilledHolds(failures.value);
      hide Blank;
      SomeFilled(results.value);
      SomeFilled(failures.value);
    }
  }

  lemma SomeFilled(lines: seq<string>)
    ensures Filled(lines) != [] <==> exists line :: line in lines && !Blank(line)
  {
    FilledHolds(lines);
    hide Blank;
    if Filled(lines) != [] { assert Filled(lines)[0] in Filled(lines); }
  }

  const SUBSET := "subset"
  const WHOLE := "all"

  /** Whether the coverage run says it ran a subset, or all; nothing else is an answer. */
  function CoverageRan(says: Option<string>): Option<bool> {
    if says.None? then None
    else if Strip(says.value) == SUBSET then Some(true)
    else if Strip(says.value) == WHOLE then Some(false)
    else None
  }

  // ---- the order

  function Only(hooks: seq<string>, which: string, keep: bool): seq<string> {
    if hooks == [] then []
    else (if (hooks[0] == which) == keep then [hooks[0]] else []) + Only(hooks[1..], which, keep)
  }

  /** q-tests last: its verdict on the suite is read from the coverage run. */
  function RunOrder(hooks: seq<string>): seq<string> {
    Only(hooks, Q_TESTS, false) + Only(hooks, Q_TESTS, true)
  }

  predicate OneRun(t: Trial) {
    Q_TESTS in t.hooks && Q_COVERAGE in t.hooks
  }

  /** Whether the run goes past hook `h`. */
  predicate GoesOn(t: Trial, h: string) {
    t.passes(h) && (h == Q_COVERAGE ==>
                    CoverageRan(t.coverageSays).Some? && (OneRun(t) ==> UnitVerdict(t.results, t.failures).None?))
  }

  /** What a hook ran when it passed. */
  function WhatRan(t: Trial, h: string): What {
    if h == Q_TESTS then t.plan
    else if h == Q_COVERAGE && CoverageRan(t.coverageSays) == Some(true) then t.coveragePlan
    else All
  }

  function LineOf(t: Trial): string {
    FormatTrailer(t.tree, t.hooks,
                  if Q_TESTS in t.hooks then Some(WhatRan(t, Q_TESTS)) else None,
                  if Q_COVERAGE in t.hooks then Some(WhatRan(t, Q_COVERAGE)) else None)
  }

  lemma {:induction false} OnlyHolds(hooks: seq<string>, which: string, keep: bool)
    ensures forall h :: h in Only(hooks, which, keep) <==> h in hooks && (h == which) == keep
  {
    if hooks != [] {
      OnlyHolds(hooks[1..], which, keep);
      assert hooks == [hooks[0]] + hooks[1..];
    }
  }

  lemma {:induction false} OnlySplits(hooks: seq<string>, which: string)
    ensures multiset(Only(hooks, which, false)) + multiset(Only(hooks, which, true)) == multiset(hooks)
  {
    if hooks != [] {
      OnlySplits(hooks[1..], which);
      assert hooks == [hooks[0]] + hooks[1..];
    }
  }

  lemma {:induction false} OnlyAgain(hooks: seq<string>, which: string)
    ensures Only(Only(hooks, which, false), which, false) == Only(hooks, which, false)
    ensures Only(Only(hooks, which, true), which, false) == []
  {
    if hooks != [] {
      OnlyAgain(hooks[1..], which);
      OnlyConcat(if hooks[0] == which then [] else [hooks[0]], Only(hooks[1..], which, false), which);
      OnlyConcat(if hooks[0] == which then [hooks[0]] else [], Only(hooks[1..], which, true), which);
    }
  }

  lemma {:induction false} OnlyConcat(a: seq<string>, b: seq<string>, which: string)
    ensures Only(a + b, which, false) == Only(a, which, false) + Only(b, which, false)
  {
    if a == [] {
      assert a + b == b;
    } else {
      assert (a + b)[1..] == a[1..] + b;
      OnlyConcat(a[1..], b, which);
    }
  }

  /** The order drops and repeats no hook, q-tests follows everything else, and
      the others keep the order they were given in. */
  lemma OrderKeepsHooks(hooks: seq<string>)
    ensures multiset(RunOrder(hooks)) == multiset(hooks)
    ensures Only(RunOrder(hooks), Q_TESTS, false) == Only(hooks, Q_TESTS, false)
    ensures forall i, j :: 0 <= i < j < |RunOrder(hooks)| && RunOrder(hooks)[i] == Q_TESTS ==>
              RunOrder(hooks)[j] == Q_TESTS
  {
    hide Only;
    OnlySplits(hooks, Q_TESTS);
    OnlyAgain(hooks, Q_TESTS);
    var early, late := Only(hooks, Q_TESTS, false), Only(hooks, Q_TESTS, true);
    OnlyConcat(early, late, Q_TESTS);
    assert early + [] == early;
    OnlyHolds(hooks, Q_TESTS, false);
    OnlyHolds(hooks, Q_TESTS, true);
    TestsLast(early, late);
  }

  lemma TestsLast(early: seq<string>, late: seq<string>)
    requires (forall h :: h in early ==> h != Q_TESTS) && forall h :: h in late ==> h == Q_TESTS
    ensures forall i, j :: 0 <= i < j < |early + late| && (early + late)[i] == Q_TESTS ==> (early + late)[j] == Q_TESTS
  {
    forall i, j | 0 <= i < j < |early + late| && (early + late)[i] == Q_TESTS ensures (early + late)[j] == Q_TESTS {
      assert forall k :: 0 <= k < |early| ==> early[k] in early;
      assert i >= |early|;
      assert late[j - |early|] in late;
    }
  }

  lemma SameMembers(a: seq<string>, b: seq<string>)
    requires multiset(a) == multiset(b)
    ensures forall h :: h in a <==> h in b
  {
    assert forall h :: h in a <==> h in multiset(a);
    assert forall h :: h in b <==> h in multiset(b);
  }

  /** Runs the hooks, and records their passing only if nothing stood in the way:
      a clean tree before and after, KDB-X, and every hook passed. */
  method AttestTree(t: Trial) returns (r: Outcome)
    ensures r == NothingNeeded <==> t.clean && t.hooks == []
    ensures r.Recorded? <==>
            t.clean && t.hooks != [] && t.kdbx && t.settled && forall h :: h in t.hooks ==> GoesOn(t, h)
    ensures r.Recorded? ==> r.line == LineOf(t)
  {
    hide RunOrder, UnitVerdict, CoverageRan, FormatTrailer;
    if !t.clean {
      return Stopped;
    }
    if t.hooks == [] {
      return NothingNeeded;
    }
    if !t.kdbx {
      return Stopped;
    }
    var oneRun := Q_TESTS in t.hooks && Q_COVERAGE in t.hooks;
    var coverageSubset := false;
    var order := RunOrder(t.hooks);
    OrderKeepsHooks(t.hooks);
    SameMembers(order, t.hooks);
    for i := 0 to |order|
      invariant forall k :: 0 <= k < i ==> GoesOn(t, order[k])
      invariant coverageSubset <==> CoverageRan(t.coverageSays) == Some(true) && Q_COVERAGE in order[..i]
    {
      var hook := order[i];
      assert order[..i + 1] == order[..i] + [hook];
      if !t.passes(hook) {
        assert !GoesOn(t, hook) && hook in t.hooks;
        return Stopped;
      }
      if hook == Q_COVERAGE {
        if oneRun && UnitVerdict(t.results, t.failures).Some? {
          assert !GoesOn(t, hook) && hook in t.hooks;
          return Stopped;
        }
        var ran := CoverageRan(t.coverageSays);
        if ran.None? {
          assert !GoesOn(t, hook) && hook in t.hooks;
          return Stopped;
        }
        coverageSubset := ran.value;
      }
    }
    assert order[..|order|] == order;
    if !t.settled {
      return Stopped;
    }
    var qTests, qCoverage := None, None;
    if Q_TESTS in t.hooks {
      qTests := Some(t.plan);
    }
    if Q_COVERAGE in t.hooks {
      qCoverage := Some(if coverageSubset then t.coveragePlan else All);
    }
    r := Recorded(FormatTrailer(t.tree, t.hooks, qTests, qCoverage));
  }

  /** What a recorded line says of its tree: exactly the hooks that ran, and what
      each of the scoped two ran. */
  lemma LineSaysWhatRan(t: Trial, every: set<string>)
    requires t.hooks != [] && (forall h :: h in t.hooks ==> HookName(h)) && Writable(Some(t.plan))
    requires Writable(Some(t.coveragePlan))
    ensures var a := ParseTrailer(LineOf(t), t.tree, every);
            a.Some? && a.value.hooks == (set h | h in t.hooks) && forall h :: h in t.hooks ==>
                Says(a.value, h) == WhatRan(t, h)
  {
    hide ParseTrailer, FormatTrailer, HookName;
    TrailerRoundTrip(t.tree, t.hooks,
                     if Q_TESTS in t.hooks then Some(WhatRan(t, Q_TESTS)) else None,
                     if Q_COVERAGE in t.hooks then Some(WhatRan(t, Q_COVERAGE)) else None, every);
  }

  /** What a line says hook `h` ran: only two of them ever run a subset. */
  function Says(a: Attested, h: string): What {
    if h == Q_TESTS then a.qTests else if h == Q_COVERAGE then a.qCoverage else All
  }
}
