/** When a head is accepted, said of its trees, the log's lines and the hooks' scopes. */
module MergeRule {
  import opened Options
  import opened Trailers
  import AttestRun
  import opened Attestation

  // ---- what a change needs

  /** Some word of a changed path is in the hook's scope. */
  ghost predicate Touches(from: Tree, to: Tree, scope: Scope) {
    exists p, w :: TouchesAt(from, to, scope, p, w)
  }

  ghost predicate TouchesAt(from: Tree, to: Tree, scope: Scope, p: string, w: string) {
    && At(from, p) != At(to, p) && w in Words(p)
    && scope.files(w) && (scope.exclude.Some? ==> !scope.exclude.value(w))
  }

  lemma ListedIs(from: Tree, to: Tree, w: string)
    ensures w in Listed(from, to) <==> exists p :: At(from, p) != At(to, p) && w in Words(p)
  {
    forall p | At(from, p) != At(to, p) ensures p in Changed(from, to) {}
    hide Words;
  }

  /** Needed are the hooks the change touches. */
  lemma NeededIs(from: Tree, to: Tree, h: string, scopes: map<string, Scope>)
    ensures h in Needed(Judged(Listed(from, to), scopes), scopes) <==> h in scopes && Touches(from, to, scopes[h])
  {
    var judged := Judged(Listed(from, to), scopes);
    if h in Needed(judged, scopes) {
      var w :| w in judged && h in HooksJudging(w, scopes);
      ListedIs(from, to, w);
      var p :| At(from, p) != At(to, p) && w in Words(p);
      assert TouchesAt(from, to, scopes[h], p, w);
    }
    if h in scopes && Touches(from, to, scopes[h]) {
      var p, w :| TouchesAt(from, to, scopes[h], p, w);
      ListedIs(from, to, w);
      TakenIsJudged(from, to, w, h, scopes);
    }
  }

  /** Nothing is judged when no scope is touched. */
  lemma JudgedIs(from: Tree, to: Tree, scopes: map<string, Scope>)
    ensures Judged(Listed(from, to), scopes) == {} <==> forall h :: h in scopes ==> !Touches(from, to, scopes[h])
  {
    hide Touches, Listed;
    var listed := Listed(from, to);
    var judged := Judged(listed, scopes);
    forall h | h in scopes ensures h in Needed(judged, scopes) <==> Touches(from, to, scopes[h]) {
      NeededIs(from, to, h, scopes);
    }
    if w :| w in judged {
      var h :| h in HooksJudging(w, scopes);
      assert h in Needed(judged, scopes);
    }
  }

  /** Where paths hold no white space a scope is touched exactly when the trees differ in it. */
  lemma TouchesPlain(from: Tree, to: Tree, scope: Scope)
    requires PlainTree(from) && PlainTree(to)
    ensures Touches(from, to, scope) <==> !Agree(scope, from, to)
  {
    hide Words, Plain;
    forall p, w ensures TouchesAt(from, to, scope, p, w) <==> p == w && scope.Takes(p) && At(from, p) != At(to, p) {
      if At(from, p) != At(to, p) { WordsOfPlain(p); }
    }
    if !Agree(scope, from, to) {
      var p :| scope.Takes(p) && At(from, p) != At(to, p);
      assert TouchesAt(from, to, scope, p, p);
    }
  }

  // ---- what the log says

  /** Line `k` of commit `i` says of the tree that hook `h` passed on it: on everything, or on `plan`. */
  ghost predicate Vouches(log: seq<Commit>, sha: Tree -> string, tree: string, every: set<string>, plan: What,
                          h: string, i: nat, k: nat) {
    && i < |log| && k < |log[i].lines| && (forall j :: 0 <= j <= i ==> sha(log[j].tree) == tree)
    && var a := ParseTrailer(log[i].lines[k], tree, every);
       a.Some? && h in a.value.hooks && (SaidRun(a.value, h) == All || SaidRun(a.value, h) == plan)
  }

  ghost predicate IsVouchedFor(log: seq<Commit>, sha: Tree -> string, tree: string, every: set<string>, plan: What,
                               h: string) {
    exists i: nat, k: nat :: Vouches(log, sha, tree, every, plan, h, i, k)
  }

  function SaidRun(a: Attested, h: string): What {
    if h == "q-tests" then a.qTests else if h == "q-coverage" then a.qCoverage else All
  }

  /** Line `k` of commit `i` says `a` of the tree, and every commit down to that one has it. */
  predicate Stands(log: seq<Commit>, sha: Tree -> string, tree: string, every: set<string>, a: Attested, i: nat,
                   k: nat) {
    && i < |log| && k < |log[i].lines| && (forall j :: 0 <= j <= i ==> sha(log[j].tree) == tree)
    && ParseTrailer(log[i].lines[k], tree, every) == Some(a)
  }

  lemma {:induction false} InLinesIff(lines: seq<string>, tree: string, every: set<string>, a: Attested)
    ensures a in InLines(lines, tree, every) <==>
              exists k: nat :: k < |lines| && ParseTrailer(lines[k], tree, every) == Some(a)
    decreases |lines|
  {
    hide ParseTrailer;
    if lines != [] {
      InLinesIff(lines[1..], tree, every, a);
      if k: nat :| k < |lines[1..]| && ParseTrailer(lines[1..][k], tree, every) == Some(a) {
        assert lines[k + 1] == lines[1..][k];
      }
      if k: nat :| k < |lines| && ParseTrailer(lines[k], tree, every) == Some(a) {
        if k > 0 { assert lines[1..][k - 1] == lines[k]; }
      }
    }
  }

  /** Found are the lines of the head's tree, down to the first commit with another. */
  lemma {:induction false} InLogIff(log: seq<Commit>, sha: Tree -> string, tree: string, every: set<string>,
                                    a: Attested)
    ensures a in InLog(log, sha, tree, every) <==>
              exists i: nat, k: nat :: Stands(log, sha, tree, every, a, i, k)
    decreases |log|
  {
    hide ParseTrailer, InLines;
    if log != [] && sha(log[0].tree) == tree {
      InLinesIff(log[0].lines, tree, every, a);
      InLogIff(log[1..], sha, tree, every, a);
      if a in InLines(log[0].lines, tree, every) {
        var k: nat :| k < |log[0].lines| && ParseTrailer(log[0].lines[k], tree, every) == Some(a);
        assert Stands(log, sha, tree, every, a, 0, k);
      }
      if i: nat, k: nat :| Stands(log[1..], sha, tree, every, a, i, k) { StandsDown(log, sha, tree, every, a, i, k); }
      if i: nat, k: nat :| Stands(log, sha, tree, every, a, i, k) {
        if i > 0 { StandsUp(log, sha, tree, every, a, i, k); }
      }
    }
  }

  lemma StandsDown(log: seq<Commit>, sha: Tree -> string, tree: string, every: set<string>, a: Attested, i: nat, k: nat)
    requires log != [] && sha(log[0].tree) == tree && Stands(log[1..], sha, tree, every, a, i, k)
    ensures Stands(log, sha, tree, every, a, i + 1, k)
  {
    hide ParseTrailer;
    forall j | 0 <= j <= i + 1 ensures sha(log[j].tree) == tree { if j > 0 { assert log[j] == log[1..][j - 1]; } }
  }

  lemma StandsUp(log: seq<Commit>, sha: Tree -> string, tree: string, every: set<string>, a: Attested, i: nat, k: nat)
    requires i > 0 && Stands(log, sha, tree, every, a, i, k)
    ensures Stands(log[1..], sha, tree, every, a, i - 1, k)
  {
    hide ParseTrailer;
    forall j | 0 <= j <= i - 1 ensures sha(log[1..][j].tree) == tree { assert log[1..][j] == log[j + 1]; }
  }

  /** The hook is vouched for exactly when what was found says so. */
  lemma VouchedIff(log: seq<Commit>, sha: Tree -> string, tree: string, every: set<string>, plan: What, h: string)
    ensures var found := InLog(log, sha, tree, every);
            IsVouchedFor(log, sha, tree, every, plan, h) <==>
            h in Covered(found) && (All in RunsOf(found, h) || plan in RunsOf(found, h))
  {
    hide ParseTrailer, InLog;
    var found := InLog(log, sha, tree, every);
    if IsVouchedFor(log, sha, tree, every, plan, h) {
      var i: nat, k: nat :| Vouches(log, sha, tree, every, plan, h, i, k);
      var a := ParseTrailer(log[i].lines[k], tree, every).value;
      assert Stands(log, sha, tree, every, a, i, k);
      InLogIff(log, sha, tree, every, a);
      var n :| 0 <= n < |found| && found[n] == a;
    }
    if h in Covered(found) && (All in RunsOf(found, h) || plan in RunsOf(found, h)) {
      var what := if All in RunsOf(found, h) then All else plan;
      var n :| 0 <= n < |found| && h in found[n].hooks && AttestRun.Says(found[n], h) == what;
      InLogIff(log, sha, tree, every, found[n]);
      var i: nat, k: nat :| Stands(log, sha, tree, every, found[n], i, k);
      assert Vouches(log, sha, tree, every, plan, h, i, k);
    }
  }

  /** Only the two scoped hooks ever run a subset. */
  lemma OthersRunAll(found: seq<Attested>, h: string)
    requires h in Covered(found) && h != Q_TESTS && h != Q_COVERAGE
    ensures All in RunsOf(found, h)
  {
    var n :| 0 <= n < |found| && h in found[n].hooks;
    assert AttestRun.Says(found[n], h) == All;
  }

  // ---- what is behind what

  /** The commits lead from `b` down to `a`, each to one of its parents. */
  ghost predicate Line(h: History, line: seq<nat>, b: nat, a: nat) {
    && line != [] && line[0] == b && line[|line| - 1] == a
    && forall i :: 0 <= i < |line| - 1 ==> line[i] < |h| && line[i + 1] in h[line[i]].parents
  }

  ghost predicate Behind(h: History, a: nat, b: nat) { exists line :: Line(h, line, b, a) }

  lemma {:induction false} AncestorIff(h: History, a: nat, b: nat)
    requires WellFormed(h) && b < |h|
    ensures Ancestor(h, a, b) <==> Behind(h, a, b)
    decreases b
  {
    if a == b { assert Line(h, [b], b, a); }
    forall k | 0 <= k < |h[b].parents|
      ensures h[b].parents[k] < b && (Ancestor(h, a, h[b].parents[k]) <==> Behind(h, a, h[b].parents[k])) {
      AncestorIff(h, a, h[b].parents[k]);
    }
    if k :| 0 <= k < |h[b].parents| && Behind(h, a, h[b].parents[k]) { BehindParent(h, a, b, h[b].parents[k]); }
    if line :| Line(h, line, b, a) {
      if a != b { ParentBehind(h, a, b, line); }
    }
  }

  lemma BehindParent(h: History, a: nat, b: nat, p: nat)
    requires b < |h| && p in h[b].parents && Behind(h, a, p)
    ensures Behind(h, a, b)
  {
    var line :| Line(h, line, p, a);
    var more := [b] + line;
    forall i | 0 <= i < |more| - 1 ensures more[i] < |h| && more[i + 1] in h[more[i]].parents {
      if i > 0 { assert line[i - 1] < |h| && line[i - 1 + 1] in h[line[i - 1]].parents; }
    }
    assert Line(h, more, b, a);
  }

  lemma ParentBehind(h: History, a: nat, b: nat, line: seq<nat>)
    requires b < |h| && Line(h, line, b, a) && a != b
    ensures exists k :: 0 <= k < |h[b].parents| && Behind(h, a, h[b].parents[k])
  {
    var rest := line[1..];
    assert line[0 + 1] in h[line[0]].parents;
    forall i | 0 <= i < |rest| - 1 ensures rest[i] < |h| && rest[i + 1] in h[rest[i]].parents {
      assert line[i + 1] < |h| && line[i + 1 + 1] in h[line[i + 1]].parents;
    }
    assert Line(h, rest, line[1], a);
    var k :| 0 <= k < |h[b].parents| && h[b].parents[k] == line[1];
  }

  // ---- the rule

  /** Each hook the change touches is vouched for on the head's tree, by a run of
      everything or of the subset selected for the change. */
  ghost predicate AllVouched(r: Rules, from: Tree, to: Tree, log: seq<Commit>) {
    forall h :: h in r.scopes && Touches(from, to, r.scopes[h]) ==>
      IsVouchedFor(log, r.sha, r.sha(to), r.scopes.Keys, r.select(h, from, to), h)
  }

  ghost predicate TouchesNone(scopes: map<string, Scope>, from: Tree, to: Tree) {
    forall h :: h in scopes ==> !Touches(from, to, scopes[h])
  }

  lemma CoverIff(r: Rules, from: Tree, to: Tree, log: seq<Commit>)
    requires !TouchesNone(r.scopes, from, to)
    ensures var needed := Needed(Judged(Listed(from, to), r.scopes), r.scopes);
            var found := InLog(log, r.sha, r.sha(to), r.scopes.Keys);
            AllVouched(r, from, to, log) <==>
            && Covered(found) != {} && needed <= Covered(found)
            && !(Q_TESTS in needed && SubsetRefused(RunsOf(found, Q_TESTS), r.select(Q_TESTS, from, to)))
            && !(Q_COVERAGE in needed && SubsetRefused(RunsOf(found, Q_COVERAGE), r.select(Q_COVERAGE, from, to)))
  {
    hide Touches, InLog, IsVouchedFor, Needed, Judged, Listed, Covered, RunsOf;
    var needed := Needed(Judged(Listed(from, to), r.scopes), r.scopes);
    var found := InLog(log, r.sha, r.sha(to), r.scopes.Keys);
    forall h ensures h in needed <==> h in r.scopes && Touches(from, to, r.scopes[h])
             ensures h in needed && h in Covered(found) && h != Q_TESTS && h != Q_COVERAGE ==> All in RunsOf(found, h)
             ensures h in needed ==>
                       (IsVouchedFor(log, r.sha, r.sha(to), r.scopes.Keys, r.select(h, from, to), h) <==>
                        h in Covered(found) && (All in RunsOf(found, h) || r.select(h, from, to) in RunsOf(found, h))) {
      NeededIs(from, to, h, r.scopes);
      VouchedIff(log, r.sha, r.sha(to), r.scopes.Keys, r.select(h, from, to), h);
      if h in Covered(found) && h != Q_TESTS && h != Q_COVERAGE { OthersRunAll(found, h); }
    }
    var some :| some in r.scopes && Touches(from, to, r.scopes[some]);
    assert some in needed;
  }

  /** THE RULE. A head is accepted if and only if it touches no scope, or each hook it
      touches is vouched for on its tree and the tip it merges into is behind it or
      touches no scope since the merge base. */
  lemma AcceptsIff(r: Rules, h: History, base: nat, head: nat, m: nat, log: seq<Commit>)
    requires WellFormed(h) && base < |h| && head < |h| && m < |h|
    ensures var from, to := h[m].tree, h[head].tree;
            Accepts(r, h, base, head, m, log) <==>
            || TouchesNone(r.scopes, from, to)
            || (&& AllVouched(r, from, to, log)
                && (Behind(h, base, head) || TouchesNone(r.scopes, from, h[base].tree)))
  {
    var from, to := h[m].tree, h[head].tree;
    JudgedIs(from, to, r.scopes);
    JudgedIs(from, h[base].tree, r.scopes);
    AncestorIff(h, base, head);
    hide Ancestor, Behind, Touches, InLog, Needed, Judged, Listed, Covered, RunsOf, SubsetRefused, AllVouched;
    if !TouchesNone(r.scopes, from, to) { CoverIff(r, from, to, log); }
  }

  /** The rule where no path holds white space: a head is accepted if and only if it
      agrees with the merge base on every scope, or each hook whose scope it changes is
      vouched for on its tree and the tip is behind it or agrees with the merge base on
      every scope. */
  lemma PlainHeadAccepted(r: Rules, h: History, base: nat, head: nat, m: nat, log: seq<Commit>)
    requires WellFormed(h) && base < |h| && head < |h| && m < |h|
    requires PlainTree(h[m].tree) && PlainTree(h[head].tree) && PlainTree(h[base].tree)
    ensures var from, to := h[m].tree, h[head].tree;
            Accepts(r, h, base, head, m, log) <==>
            || (forall hook :: hook in r.scopes ==> Agree(r.scopes[hook], from, to))
            || (&& (forall hook :: hook in r.scopes && !Agree(r.scopes[hook], from, to) ==>
                      IsVouchedFor(log, r.sha, r.sha(to), r.scopes.Keys, r.select(hook, from, to), hook))
                && (Behind(h, base, head) ||
                    forall hook :: hook in r.scopes ==> Agree(r.scopes[hook], from, h[base].tree)))
  {
    AcceptsIff(r, h, base, head, m, log);
    hide Behind, Accepts, IsVouchedFor, Agree, Touches, PlainTree;
    forall hook | hook in r.scopes
      ensures Touches(h[m].tree, h[head].tree, r.scopes[hook]) <==> !Agree(r.scopes[hook], h[m].tree, h[head].tree)
      ensures Touches(h[m].tree, h[base].tree, r.scopes[hook]) <==> !Agree(r.scopes[hook], h[m].tree, h[base].tree) {
      TouchesPlain(h[m].tree, h[head].tree, r.scopes[hook]);
      TouchesPlain(h[m].tree, h[base].tree, r.scopes[hook]);
    }
  }
}
