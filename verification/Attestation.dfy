/** The rule that binds a merge to a KDB-X run: which hooks a change needs, when a
    head is accepted, and what is then true of the branch everything merges into. */
module Attestation {
  import opened Chars
  import opened Options
  import opened Trailers
  import opened AttestRun

  type Tree = map<string, string>

  function At(t: Tree, path: string): Option<string> {
    if path in t then Some(t[path]) else None
  }

  /** A hook's `files:` and `exclude:` patterns. */
  datatype Scope = Scope(files: string -> bool, exclude: Option<string -> bool>) {
    predicate Takes(path: string) {
      files(path) && !(exclude.Some? && exclude.value(path))
    }
  }

  datatype Commit = Commit(tree: Tree, parents: seq<nat>, lines: seq<string>)
  type History = seq<Commit>

  /** What does not change over a run: the hooks, how trees are named, and the
      suites selected for a change. */
  datatype Rules = Rules(scopes: map<string, Scope>, sha: Tree -> string, select: (string, Tree, Tree) -> What)

  // ---- the change

  function Changed(from: Tree, to: Tree): set<string> {
    set p | p in from.Keys + to.Keys && At(from, p) != At(to, p)
  }

  /** The changed paths as the diff's output is split: at white space. */
  function Listed(from: Tree, to: Tree): set<string> {
    set p, w | p in Changed(from, to) && w in Words(p) :: w
  }

  function HooksJudging(path: string, scopes: map<string, Scope>): set<string> {
    set h | h in scopes && scopes[h].Takes(path)
  }

  predicate IsJudged(path: string, scopes: map<string, Scope>) {
    HooksJudging(path, scopes) != {}
  }

  function Judged(paths: set<string>, scopes: map<string, Scope>): set<string> {
    set p | p in paths && IsJudged(p, scopes)
  }

  function Needed(paths: set<string>, scopes: map<string, Scope>): set<string> {
    set p, h | p in paths && h in HooksJudging(p, scopes) :: h
  }

  // ---- the attestations of a head's tree

  function InLines(lines: seq<string>, tree: string, every: set<string>): seq<Attested> {
    if lines == [] then []
    else
      var a := ParseTrailer(lines[0], tree, every);
      (if a.Some? then [a.value] else []) + InLines(lines[1..], tree, every)
  }

  /** Every trailer for `tree` down the log, until a commit with another tree. */
  function InLog(log: seq<Commit>, sha: Tree -> string, tree: string, every: set<string>): seq<Attested> {
    if log == [] || sha(log[0].tree) != tree then []
    else InLines(log[0].lines, tree, every) + InLog(log[1..], sha, tree, every)
  }

  function Covered(found: seq<Attested>): set<string> {
    set i, h | 0 <= i < |found| && h in found[i].hooks :: h
  }

  /** What the attestations say hook `h` ran. */
  function RunsOf(found: seq<Attested>, h: string): set<What> {
    set i | 0 <= i < |found| && h in found[i].hooks :: Says(found[i], h)
  }

  /** A subset covers the change only when it is the one selected for it. */
  predicate SubsetRefused(runs: set<What>, plan: What) {
    All !in runs && (plan == All || plan !in runs)
  }

  // ---- the history

  predicate WellFormed(h: History) {
    forall i, k :: 0 <= i < |h| && 0 <= k < |h[i].parents| ==> h[i].parents[k] < i
  }

  predicate Ancestor(h: History, a: nat, b: nat)
    requires WellFormed(h) && b < |h|
    decreases b
  {
    a == b || exists k :: 0 <= k < |h[b].parents| && Ancestor(h, a, h[b].parents[k])
  }

  /** A best common ancestor. */
  predicate MergeBase(h: History, m: nat, a: nat, b: nat)
    requires WellFormed(h) && a < |h| && b < |h|
  {
    && m < |h| && Ancestor(h, m, a) && Ancestor(h, m, b)
    && forall c :: 0 <= c < |h| && Ancestor(h, c, a) && Ancestor(h, c, b) && Ancestor(h, m, c) ==> c == m
  }

  // ---- the check

  /** Whether the head may merge into the base. */
  predicate Accepts(r: Rules, h: History, base: nat, head: nat, m: nat, log: seq<Commit>)
    requires WellFormed(h) && base < |h| && head < |h| && m < |h|
  {
    var from, to := h[m].tree, h[head].tree;
    var judged := Judged(Listed(from, to), r.scopes);
    var needed := Needed(judged, r.scopes);
    var found := InLog(log, r.sha, r.sha(to), r.scopes.Keys);
    judged == {}
    || (&& Covered(found) != {}
        && needed <= Covered(found)
        && !(Q_TESTS in needed && SubsetRefused(RunsOf(found, Q_TESTS), r.select(Q_TESTS, from, to)))
        && !(Q_COVERAGE in needed && SubsetRefused(RunsOf(found, Q_COVERAGE), r.select(Q_COVERAGE, from, to)))
        && (Ancestor(h, base, head) || Judged(Listed(from, h[base].tree), r.scopes) == {}))
  }

  /** Merging path by path: a path one side alone changed is that side's. */
  ghost predicate ThreeWay(from: Tree, base: Tree, head: Tree, merged: Tree) {
    forall p: string ::
      (At(head, p) == At(from, p) ==> At(merged, p) == At(base, p))
      && (At(base, p) == At(from, p) ==> At(merged, p) == At(head, p))
  }

  // ---- the protocol

  /** Hook `hook` passed on `tree`, running `what`. */
  datatype Run = Run(hook: string, tree: Tree, what: What)

  datatype State = State(history: History, tip: nat, passed: set<Run>, merged: set<(Tree, Tree)>)

  datatype Step =
    | Author(commit: Commit)
    | Attest(on: nat, trial: Trial)
    | Merge(head: nat, m: nat, log: seq<Commit>, result: Commit)
    | FastForward(head: nat, m: nat, log: seq<Commit>)

  /** Two trees hold the same at every path the scope takes. */
  ghost predicate Agree(s: Scope, a: Tree, b: Tree) {
    forall p: string :: s.Takes(p) ==> At(a, p) == At(b, p)
  }

  /** The run covers the change: all of it, or what was selected for it. */
  predicate Suits(r: Rules, run: Run, from: Tree) {
    run.what == All || run.what == r.select(run.hook, from, run.tree)
  }

  /** Some tree hook `h` passed on agrees with the tip on the hook's scope, and
      what it ran was everything or the subset selected when that tree merged. */
  ghost predicate Vouched(r: Rules, s: State, h: string)
    requires h in r.scopes && s.tip < |s.history|
  {
    exists run :: run in s.passed && run.hook == h && Agree(r.scopes[h], run.tree, s.history[s.tip].tree)
      && (run.what == All || exists from: Tree ::
            (from, run.tree) in s.merged && run.what == r.select(h, from, run.tree))
  }

  ghost predicate Safe(r: Rules, s: State) {
    s.tip < |s.history| && forall h :: h in r.scopes ==> Vouched(r, s, h)
  }

  /** A hook this line says passed on the tree named `t` did pass on it. */
  ghost predicate Backs(r: Rules, passed: set<Run>, t: string, a: Attested) {
    forall h :: h in a.hooks && h in r.scopes ==>
        exists tree: Tree :: r.sha(tree) == t && Run(h, tree, Says(a, h)) in passed
  }

  ghost predicate TrueLine(r: Rules, passed: set<Run>, line: string) {
    forall t: string :: |t| == SHA_LENGTH && ParseTrailer(line, t, r.scopes.Keys).Some?
                        ==> Backs(r, passed, t, ParseTrailer(line, t, r.scopes.Keys).value)
  }

  const SHA_LENGTH := 40

  ghost predicate TrueLines(r: Rules, passed: set<Run>, lines: seq<string>) {
    forall i :: 0 <= i < |lines| ==> TrueLine(r, passed, lines[i])
  }

  /** A path the diff's output shows as itself. */
  predicate Plain(path: string) {
    path != "" && NoSpace(path)
  }

  /** What git is taken for: names of one length, a tree named for what it holds,
      and paths without white space. */
  ghost predicate Sound(r: Rules, s: State) {
    && (forall i :: 0 <= i < |s.history| ==> |r.sha(s.history[i].tree)| == SHA_LENGTH)
    && (forall i, run :: 0 <= i < |s.history| && run in s.passed && r.sha(run.tree) == r.sha(s.history[i].tree) ==>
        run.tree == s.history[i].tree)
    && (forall i, p :: 0 <= i < |s.history| && p in s.history[i].tree ==> Plain(p))
  }

  ghost predicate Valid(r: Rules, s: State) {
    && WellFormed(s.history) && s.tip < |s.history|
    && (forall i :: 0 <= i < |s.history| ==> TrueLines(r, s.passed, s.history[i].lines))
  }

  /** The trial tested the tree of commit `on`, and may be written down. */
  ghost predicate TrialOf(r: Rules, s: State, on: nat, t: Trial) {
    && on < |s.history| && t.tree == r.sha(s.history[on].tree)
    && (forall h :: h in t.hooks ==> HookName(h)) && Writable(Some(t.plan)) && Writable(Some(t.coveragePlan))
  }

  /** The runs a trial that got through added. */
  function Added(t: Trial, tree: Tree): set<Run> {
    set h | h in t.hooks && GoesOn(t, h) :: Run(h, tree, WhatRan(t, h))
  }

  predicate LogOf(h: History, head: nat, log: seq<Commit>) {
    head < |h| && forall i :: 0 <= i < |log| ==> log[i] in h
  }

  ghost predicate Next(r: Rules, s: State, step: Step, s': State) {
    var n := |s.history|;
    match step
    case Author(c) =>
      // a commit anyone makes: whatever it says of KDB-X, it copied from a real run
      && (forall k :: 0 <= k < |c.parents| ==> c.parents[k] < n) && TrueLines(r, s.passed, c.lines)
      && s' == s.(history := s.history + [c])
    case Attest(on, t) =>
      && TrialOf(r, s, on, t)
      && (t.clean && t.hooks != [] && t.kdbx && t.settled && forall h :: h in t.hooks ==> GoesOn(t, h))
      && s' == s.(history := s.history + [Commit(s.history[on].tree, [on], [LineOf(t)])],
                  passed := s.passed + Added(t, s.history[on].tree))
    case Merge(head, m, log, c) =>
      && WellFormed(s.history) && s.tip < n && head < n
      && MergeBase(s.history, m, s.tip, head) && LogOf(s.history, head, log)
      && Accepts(r, s.history, s.tip, head, m, log)
      && ThreeWay(s.history[m].tree, s.history[s.tip].tree, s.history[head].tree, c.tree)
      && (forall k :: 0 <= k < |c.parents| ==> c.parents[k] < n) && TrueLines(r, s.passed, c.lines)
      && s' == s.(history := s.history + [c], tip := n,
                  merged := s.merged + {(s.history[m].tree, s.history[head].tree)})
    case FastForward(head, m, log) =>
      && WellFormed(s.history) && s.tip < n && head < n && Ancestor(s.history, s.tip, head)
      && MergeBase(s.history, m, s.tip, head) && LogOf(s.history, head, log)
      && Accepts(r, s.history, s.tip, head, m, log)
      && s' == s.(tip := head, merged := s.merged + {(s.history[m].tree, s.history[head].tree)})
  }

  // ---- what the lists hold

  lemma WordsOfPlain(p: string)
    requires Plain(p)
    ensures Words(p) == [p]
  {
    assert p + "" == p;
    FirstWord(p, "");
    assert Words("") == [];
  }

  lemma HeadIsPlain(t: string)
    requires t != "" && !IsSpace(t[0])
    ensures Plain(t[..1 + WordEnd(t[1..])])
  {
    hide IsSpace;
    var n := 1 + WordEnd(t[1..]);
    forall i | 0 <= i < n ensures !IsSpace(t[..n][i]) {
      assert i > 0 ==> t[i] == t[1..][i - 1];
    }
  }

  lemma {:induction false} WordsArePlain(s: string)
    ensures forall w :: w in Words(s) ==> Plain(w)
    decreases |s|
  {
    hide IsSpace, Plain;
    var t := AfterSpaces(s);
    if t != "" {
      HeadIsPlain(t);
      WordsArePlain(t[1 + WordEnd(t[1..])..]);
    }
  }

  ghost predicate SeenThrough(path: string, scope: iset<string>) {
    path in scope ==> exists w :: w in Words(path) && w in scope
  }

  /** The check sees a changed path through every scope exactly when no white
      space breaks the path up in the diff's output. */
  lemma SeenExactlyWhenPlain(path: string)
    ensures (forall scope: iset<string> :: SeenThrough(path, scope)) <==> Plain(path)
  {
    if Plain(path) {
      WordsOfPlain(path);
      assert path in Words(path);
    }
    if forall scope: iset<string> :: SeenThrough(path, scope) {
      assert SeenThrough(path, iset{path});
      WordsArePlain(path);
    }
  }

  lemma PlainIsListed(from: Tree, to: Tree, p: string)
    requires Plain(p) && At(from, p) != At(to, p)
    ensures p in Listed(from, to)
  {
    WordsOfPlain(p);
    assert p in Changed(from, to);
    assert p in Words(p);
  }

  lemma TakenIsJudged(from: Tree, to: Tree, p: string, h: string, scopes: map<string, Scope>)
    requires h in scopes && scopes[h].Takes(p) && p in Listed(from, to)
    ensures p in Judged(Listed(from, to), scopes) && h in Needed(Judged(Listed(from, to), scopes), scopes)
  {
    assert h in HooksJudging(p, scopes);
  }

  ghost predicate PlainTree(t: Tree) {
    forall p :: p in t ==> Plain(p)
  }

  /** A hook the change does not need reads the same on both sides of it. */
  lemma NotNeededAgrees(from: Tree, to: Tree, h: string, scopes: map<string, Scope>)
    requires PlainTree(from) && PlainTree(to) && h in scopes
    requires h !in Needed(Judged(Listed(from, to), scopes), scopes)
    ensures Agree(scopes[h], from, to)
  {
    forall p: string | scopes[h].Takes(p) ensures At(from, p) == At(to, p) {
      if At(from, p) != At(to, p) {
        PlainIsListed(from, to, p);
        TakenIsJudged(from, to, p, h, scopes);
      }
    }
  }

  lemma NothingJudgedNothingNeeded(paths: set<string>, scopes: map<string, Scope>)
    requires Judged(paths, scopes) == {}
    ensures Needed(Judged(paths, scopes), scopes) == {}
  {
  }

  lemma {:induction false} InLinesFrom(lines: seq<string>, tree: string, every: set<string>, a: Attested)
    requires a in InLines(lines, tree, every)
    ensures exists i :: 0 <= i < |lines| && ParseTrailer(lines[i], tree, every) == Some(a)
  {
    hide ParseTrailer;
    var first := ParseTrailer(lines[0], tree, every);
    if first != Some(a) {
      InLinesFrom(lines[1..], tree, every, a);
      var i :| 0 <= i < |lines[1..]| && ParseTrailer(lines[1..][i], tree, every) == Some(a);
      assert lines[i + 1] == lines[1..][i];
    }
  }

  lemma {:induction false} InLogFrom(log: seq<Commit>, sha: Tree -> string, tree: string, every: set<string>,
                                     a: Attested)
    requires a in InLog(log, sha, tree, every)
    ensures exists i :: 0 <= i < |log| && a in InLines(log[i].lines, tree, every)
  {
    hide InLines;
    if a !in InLines(log[0].lines, tree, every) {
      InLogFrom(log[1..], sha, tree, every, a);
      var i :| 0 <= i < |log[1..]| && a in InLines(log[1..][i].lines, tree, every);
      assert log[i + 1] == log[1..][i];
    }
  }

  /** An attestation found for a commit's tree is of runs that passed on it. */
  lemma FoundPassed(r: Rules, s: State, head: nat, log: seq<Commit>, a: Attested, h: string)
    requires Valid(r, s) && Sound(r, s) && LogOf(s.history, head, log) && h in a.hooks && h in r.scopes
    requires a in InLog(log, r.sha, r.sha(s.history[head].tree), r.scopes.Keys)
    ensures Run(h, s.history[head].tree, Says(a, h)) in s.passed
  {
    hide ParseTrailer, InLines, InLog, Plain;
    var t := r.sha(s.history[head].tree);
    InLogFrom(log, r.sha, t, r.scopes.Keys, a);
    var i :| 0 <= i < |log| && a in InLines(log[i].lines, t, r.scopes.Keys);
    InLinesFrom(log[i].lines, t, r.scopes.Keys, a);
    var k :| 0 <= k < |log[i].lines| && ParseTrailer(log[i].lines[k], t, r.scopes.Keys) == Some(a);
    assert log[i] in s.history;
    var c :| 0 <= c < |s.history| && s.history[c] == log[i];
    assert TrueLines(r, s.passed, s.history[c].lines);
    assert TrueLine(r, s.passed, log[i].lines[k]);
    assert Backs(r, s.passed, t, a);
    var tree: Tree :| r.sha(tree) == t && Run(h, tree, Says(a, h)) in s.passed;
    assert Run(h, tree, Says(a, h)).tree == s.history[head].tree;
  }

  /** An accepted head passed every hook its change needs, on everything or on
      the subset selected for the change. */
  lemma AcceptedPassed(r: Rules, s: State, head: nat, m: nat, log: seq<Commit>, h: string)
    requires Valid(r, s) && Sound(r, s) && LogOf(s.history, head, log) && m < |s.history|
    requires Accepts(r, s.history, s.tip, head, m, log)
    requires h in Needed(Judged(Listed(s.history[m].tree, s.history[head].tree), r.scopes), r.scopes)
    ensures exists run ::
              run in s.passed && run.hook == h && run.tree == s.history[head].tree && Suits(r, run, s.history[m].tree)
  {
    hide ParseTrailer, InLines, InLog, Plain, Listed, Judged, Sound, Valid;
    var from, to := s.history[m].tree, s.history[head].tree;
    var found := InLog(log, r.sha, r.sha(to), r.scopes.Keys);
    var judged := Judged(Listed(from, to), r.scopes);
    assert judged != {};
    assert h in Covered(found);
    var i :| 0 <= i < |found| && h in found[i].hooks;
    var plan := r.select(h, from, to);
    var runs := RunsOf(found, h);
    assert Says(found[i], h) in runs;
    var what := if All in runs then All else if h in {Q_TESTS, Q_COVERAGE} then plan else All;
    assert what in runs;
    var k :| 0 <= k < |found| && h in found[k].hooks && Says(found[k], h) == what;
    FoundPassed(r, s, head, log, found[k], h);
    assert Suits(r, Run(h, to, what), from);
  }

  /** An accepted change that needs a hook merges into a tree that reads, in the
      hook's scope, exactly as the attested head: even behind the base. */
  lemma MergesAttestedPaths(r: Rules, h: History, base: nat, head: nat, m: nat, log: seq<Commit>, merged: Tree,
                            hook: string)
    requires WellFormed(h) && base < |h| && head < |h| && MergeBase(h, m, base, head)
    requires Accepts(r, h, base, head, m, log) && ThreeWay(h[m].tree, h[base].tree, h[head].tree, merged)
    requires PlainTree(h[m].tree) && PlainTree(h[base].tree)
    requires hook in Needed(Judged(Listed(h[m].tree, h[head].tree), r.scopes), r.scopes) && hook in r.scopes
    ensures Agree(r.scopes[hook], h[head].tree, merged)
  {
    hide InLog, Listed, Judged, Plain;
    var from := h[m].tree;
    if Ancestor(h, base, head) {
      assert Ancestor(h, base, base);
      assert m == base;
    } else {
      NothingJudgedNothingNeeded(Listed(from, h[base].tree), r.scopes);
      NotNeededAgrees(from, h[base].tree, hook, r.scopes);
    }
  }

  // ---- one step, then every run

  lemma TrueLinesGrow(r: Rules, passed: set<Run>, more: set<Run>, lines: seq<string>)
    requires TrueLines(r, passed, lines) && passed <= more
    ensures TrueLines(r, more, lines)
  {
    hide ParseTrailer;
    forall i | 0 <= i < |lines| ensures TrueLine(r, more, lines[i]) {
      assert TrueLine(r, passed, lines[i]);
      forall t: string | |t| == SHA_LENGTH && ParseTrailer(lines[i], t, r.scopes.Keys).Some?
        ensures Backs(r, more, t, ParseTrailer(lines[i], t, r.scopes.Keys).value)
      {
        assert Backs(r, passed, t, ParseTrailer(lines[i], t, r.scopes.Keys).value);
      }
    }
  }

  /** What an attestation records is true. */
  lemma RecordedIsTrue(r: Rules, s: State, on: nat, t: Trial)
    requires TrialOf(r, s, on, t) && t.hooks != [] && |t.tree| == SHA_LENGTH
    requires forall h :: h in t.hooks ==> GoesOn(t, h)
    ensures TrueLine(r, s.passed + Added(t, s.history[on].tree), LineOf(t))
  {
    var every := r.scopes.Keys;
    var passed := s.passed + Added(t, s.history[on].tree);
    LineSaysWhatRan(t, every);
    hide ParseTrailer, HookName, FormatTrailer, GoesOn, WhatRan, Writable;
    forall u: string | |u| == SHA_LENGTH && ParseTrailer(LineOf(t), u, every).Some?
      ensures Backs(r, passed, u, ParseTrailer(LineOf(t), u, every).value)
    {
      OfItsTree(t, u, every);
      var a := ParseTrailer(LineOf(t), u, every).value;
      forall h | h in a.hooks && h in r.scopes
        ensures exists tree: Tree :: r.sha(tree) == u && Run(h, tree, Says(a, h)) in passed
      {
        assert Run(h, s.history[on].tree, WhatRan(t, h)) in Added(t, s.history[on].tree);
      }
    }
  }

  lemma OfItsTree(t: Trial, u: string, every: set<string>)
    requires t.hooks != [] && (forall h :: h in t.hooks ==> HookName(h)) && Writable(Some(t.plan))
    requires Writable(Some(t.coveragePlan))
    requires |u| == |t.tree| && ParseTrailer(LineOf(t), u, every).Some?
    ensures u == t.tree
  {
    hide ParseTrailer, HookName, FormatTrailer;
    TrailerNamesItsTree(t.tree, u, t.hooks,
                        if Q_TESTS in t.hooks then Some(WhatRan(t, Q_TESTS)) else None,
                        if Q_COVERAGE in t.hooks then Some(WhatRan(t, Q_COVERAGE)) else None, every);
  }

  /** Every step keeps what commits say of KDB-X true. */
  lemma StepKeepsValid(r: Rules, s: State, step: Step, s': State)
    requires Valid(r, s) && Sound(r, s) && Next(r, s, step, s')
    ensures Valid(r, s')
  {
    hide TrueLines, TrueLine, ParseTrailer, Accepts, MergeBase, ThreeWay, LineOf, Plain;
    match step
    case Author(_) =>
    case FastForward(_, _, _) =>
    case Merge(_, _, _, _) =>
    case Attest(on, t) =>
      RecordedIsTrue(r, s, on, t);
      OneLine(r, s'.passed, LineOf(t));
      forall i | 0 <= i < |s'.history| ensures TrueLines(r, s'.passed, s'.history[i].lines) {
        if i < |s.history| {
          TrueLinesGrow(r, s.passed, s'.passed, s.history[i].lines);
        }
      }
  }

  lemma OneLine(r: Rules, passed: set<Run>, line: string)
    requires TrueLine(r, passed, line)
    ensures TrueLines(r, passed, [line])
  {
  }

  /** What a merge leaves at the tip is vouched for, hook by hook. */
  lemma MergeVouched(r: Rules, s: State, head: nat, m: nat, log: seq<Commit>, s': State, h: string)
    requires Valid(r, s) && Sound(r, s) && Safe(r, s) && h in r.scopes && head < |s.history|
    requires MergeBase(s.history, m, s.tip, head) && LogOf(s.history, head, log)
    requires Accepts(r, s.history, s.tip, head, m, log) && s'.tip < |s'.history| && s'.passed == s.passed
    requires ThreeWay(s.history[m].tree, s.history[s.tip].tree, s.history[head].tree, s'.history[s'.tip].tree)
    requires s'.merged == s.merged + {(s.history[m].tree, s.history[head].tree)}
    ensures Vouched(r, s', h)
  {
    var from, base, to, merged := s.history[m].tree, s.history[s.tip].tree, s.history[head].tree,
      s'.history[s'.tip].tree;
    assert PlainTree(from) && PlainTree(base) && PlainTree(to);
    hide Accepts, MergeBase, Listed, Judged, Needed, Valid, Sound, PlainTree, LogOf;
    if h in Needed(Judged(Listed(from, to), r.scopes), r.scopes) {
      AcceptedPassed(r, s, head, m, log, h);
      var run :| run in s.passed && run.hook == h && run.tree == to && Suits(r, run, from);
      MergesAttestedPaths(r, s.history, s.tip, head, m, log, merged, h);
      assert (from, run.tree) in s'.merged;
    } else {
      NotNeededAgrees(from, to, h, r.scopes);
      assert Vouched(r, s, h);
      var run :| run in s.passed && run.hook == h && Agree(r.scopes[h], run.tree, base)
        && (run.what == All || exists from: Tree ::
              (from, run.tree) in s.merged && run.what == r.select(h, from, run.tree));
      assert Agree(r.scopes[h], run.tree, merged);
    }
  }

  lemma ContainedMerges(h: History, base: nat, head: nat, m: nat)
    requires WellFormed(h) && base < |h| && head < |h| && MergeBase(h, m, base, head) && Ancestor(h, base, head)
    ensures m == base
    ensures ThreeWay(h[m].tree, h[base].tree, h[head].tree, h[head].tree)
  {
    assert Ancestor(h, base, base);
  }

  lemma StepKeepsSafe(r: Rules, s: State, step: Step, s': State)
    requires Valid(r, s) && Sound(r, s) && Safe(r, s) && Next(r, s, step, s')
    ensures Safe(r, s')
  {
    hide Valid, Sound, Accepts, MergeBase, ThreeWay, LogOf, TrueLines, LineOf, GoesOn, Agree;
    forall h | h in r.scopes ensures Vouched(r, s', h) {
      assert Vouched(r, s, h);
      match step
      case Author(_) =>
      case Attest(_, _) =>
      case Merge(head, m, log, _) =>
        MergeVouched(r, s, head, m, log, s', h);
      case FastForward(head, m, log) =>
        ContainedMerges(s.history, s.tip, head, m);
        MergeVouched(r, s, head, m, log, s', h);
    }
  }

  ghost predicate IsRun(r: Rules, states: seq<State>, steps: seq<Step>) {
    && |states| == |steps| + 1
    && (forall k :: 0 <= k < |steps| ==> Next(r, states[k], steps[k], states[k + 1]))
    && (forall k :: 0 <= k < |states| ==> Sound(r, states[k]))
  }

  /** From a tip every hook has passed on, whatever merges: each hook has passed on
      some tree that agrees with the tip on everything in the hook's scope. */
  lemma {:induction false} TipStaysVouched(r: Rules, states: seq<State>, steps: seq<Step>, k: nat)
    requires IsRun(r, states, steps) && Valid(r, states[0]) && Safe(r, states[0]) && k < |states|
    ensures Valid(r, states[k]) && Safe(r, states[k])
  {
    hide Valid, Safe, Next, Sound;
    if k > 0 {
      TipStaysVouched(r, states, steps, k - 1);
      StepKeepsValid(r, states[k - 1], steps[k - 1], states[k]);
      StepKeepsSafe(r, states[k - 1], steps[k - 1], states[k]);
    }
  }

  // ---- a path with white space

  /** `src/` q files, as a hook's scope might take them. */
  const Q_SOURCES: Scope := Scope(p => |p| >= 4 && p[..4] == "src/" && p[|p| - 2..] == ".q", None)

  lemma TwoWords(a: string, b: string)
    requires Plain(a) && Plain(b)
    ensures Words(a + " " + b) == [a, b]
  {
    assert a + " " + b == a + (" " + b);
    FirstWord(a, " " + b);
    SkipSpace(b);
    WordsOfPlain(b);
  }

  /** The scope takes the one path that changed, no hook passed, and the head is
      accepted: the diff's output names the path as two words. */
  lemma SpacedPathIsMissed(r: Rules, h: History)
    requires r.scopes == map[Q_TESTS := Q_SOURCES]
    requires h == [Commit(map["src/a b.q" := "1"], [], []), Commit(map["src/a b.q" := "2"], [0], [])]
    ensures Q_SOURCES.Takes("src/a b.q") && At(h[0].tree, "src/a b.q") != At(h[1].tree, "src/a b.q")
    ensures Accepts(r, h, 0, 1, 0, [h[1], h[0]]) && InLog([h[1], h[0]], r.sha, r.sha(h[1].tree), r.scopes.Keys) == []
  {
    hide Listed, ParseTrailer, Ancestor, SubsetRefused, RunsOf, Covered, Needed, InLog;
    NoneTaken(h[0].tree, h[1].tree);
    NothingSaid([h[1], h[0]], r.sha, r.sha(h[1].tree), r.scopes.Keys);
  }

  lemma {:induction false} NothingSaid(log: seq<Commit>, sha: Tree -> string, tree: string, every: set<string>)
    requires forall i :: 0 <= i < |log| ==> log[i].lines == []
    ensures InLog(log, sha, tree, every) == []
  {
    if log != [] {
      NothingSaid(log[1..], sha, tree, every);
    }
  }

  lemma SpacedWords()
    ensures Words("src/a b.q") == ["src/a", "b.q"]
  {
    assert "src/a b.q" == "src/a" + " " + "b.q";
    assert Plain("src/a") && Plain("b.q");
    TwoWords("src/a", "b.q");
  }

  lemma NoneTaken(from: Tree, to: Tree)
    requires from == map["src/a b.q" := "1"] && to == map["src/a b.q" := "2"]
    ensures Judged(Listed(from, to), map[Q_TESTS := Q_SOURCES]) == {}
  {
    hide Words, IsSpace;
    SpacedWords();
    assert !Q_SOURCES.Takes("src/a") && !Q_SOURCES.Takes("b.q");
    assert Changed(from, to) <= {"src/a b.q"};
    hide Changed;
    assert Listed(from, to) <= {"src/a", "b.q"};
    hide Listed;
    forall w | w in {"src/a", "b.q"} ensures !IsJudged(w, map[Q_TESTS := Q_SOURCES]) {
    }
  }

  // ---- the loop

  method Attestations(log: seq<Commit>, sha: Tree -> string, tree: string,
                      every: set<string>) returns (found: seq<Attested>)
    ensures found == InLog(log, sha, tree, every)
  {
    hide ParseTrailer;
    found := [];
    for i := 0 to |log|
      invariant found + InLog(log[i..], sha, tree, every) == InLog(log, sha, tree, every)
    {
      if sha(log[i].tree) != tree {
        break;
      }
      ghost var before := found;
      var lines := log[i].lines;
      for k := 0 to |lines|
        invariant found + InLines(lines[k..], tree, every) == before + InLines(lines, tree, every)
      {
        var parsed := ReadTrailer(lines[k], tree, every);
        assert lines[k..][1..] == lines[k + 1..];
        if parsed.Some? {
          found := found + [parsed.value];
        }
      }
      assert lines[|lines|..] == [] && found + [] == found;
      assert found == before + InLines(lines, tree, every);
      assert log[i..][1..] == log[i + 1..];
      assert before + InLog(log[i..], sha, tree, every) == found + InLog(log[i + 1..], sha, tree, every);
    }
  }
}
