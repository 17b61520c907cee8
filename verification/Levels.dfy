/** How context-bound a function is: as much as the most context-bound function it reaches by calls. */
module Levels {
  import opened Options
  import opened Lexer
  import opened Scanner
  import opened Converter

  type Functions = map<string, Fn>

  /** A chain of recorded calls. */
  ghost predicate IsPath(fs: Functions, p: seq<string>) {
    && p != [] && (forall i :: 0 <= i < |p| ==> p[i] in fs)
    && (forall i :: 0 <= i < |p| - 1 ==> p[i + 1] in fs[p[i]].calls)
  }

  ghost predicate Joins(fs: Functions, p: seq<string>, f: string, g: string) {
    IsPath(fs, p) && p[0] == f && p[|p| - 1] == g
  }

  ghost predicate Reaches(fs: Functions, f: string, g: string) {
    exists p :: Joins(fs, p, f, g)
  }

  lemma ReachesItself(fs: Functions, f: string)
    requires f in fs
    ensures Reaches(fs, f, f)
  {
    assert Joins(fs, [f], f, f);
  }

  lemma ReachesFurther(fs: Functions, f: string, c: string, g: string)
    requires f in fs && c in fs[f].calls && Reaches(fs, c, g)
    ensures Reaches(fs, f, g)
  {
    var p :| Joins(fs, p, c, g);
    var q := [f] + p;
    forall i | 0 <= i < |q| - 1 ensures q[i + 1] in fs[q[i]].calls { if i > 0 { assert p[i] in fs[p[i - 1]].calls; } }
    assert Joins(fs, q, f, g);
  }

  ghost function MaxOf(s: set<nat>): (m: nat)
    ensures forall x :: x in s ==> x <= m
    ensures if s == {} then m == 0 else m in s
  {
    if s == {} then 0
    else
      HasMax(s);
      var m :| m in s && forall x :: x in s ==> x <= m;
      m
  }

  lemma {:induction false} HasMax(s: set<nat>)
    requires s != {}
    ensures exists m :: m in s && forall x :: x in s ==> x <= m
  {
    var x :| x in s;
    if s != {x} {
      HasMax(s - {x});
      var m :| m in s - {x} && forall y :: y in s - {x} ==> y <= m;
      var top := if m < x then x else m;
      assert forall y :: y in s ==> y == x || y in s - {x};
      assert top in s && forall y :: y in s ==> y <= top;
    }
  }

  ghost function ReachedLevels(fs: Functions, f: string): (levels: set<nat>)
    ensures forall g :: g in fs && Reaches(fs, f, g) ==> fs[g].level in levels
    ensures forall x :: x in levels ==> exists g :: g in fs && Reaches(fs, f, g) && fs[g].level == x
  {
    set g | g in fs && Reaches(fs, f, g) :: fs[g].level
  }

  /** The greatest own level of a function reachable from `f`. */
  ghost function TopLevel(fs: Functions, f: string): nat { MaxOf(ReachedLevels(fs, f)) }

  /** What `propagate` settles on. */
  ghost function Settled(fs: Functions): Functions {
    map f | f in fs :: Fn(TopLevel(fs, f), fs[f].calls)
  }

  lemma TopIsReached(fs: Functions, f: string) returns (g: string)
    requires f in fs
    ensures g in fs && Reaches(fs, f, g) && fs[g].level == TopLevel(fs, f)
  {
    hide Reaches;
    ReachesItself(fs, f);
    assert fs[f].level in ReachedLevels(fs, f);
    g :| g in fs && Reaches(fs, f, g) && fs[g].level == TopLevel(fs, f);
  }

  lemma TopIsBound(fs: Functions, f: string, g: string)
    requires g in fs && Reaches(fs, f, g)
    ensures fs[g].level <= TopLevel(fs, f)
  {
    hide Reaches;
    assert fs[g].level in ReachedLevels(fs, f);
  }

  // ---- the loop's invariant

  /** `r` holds levels on their way up: no lower than a function's own, no higher than its top. */
  ghost predicate Rising(fs: Functions, r: Functions) {
    r.Keys == fs.Keys &&
    forall f :: f in fs ==> r[f].calls == fs[f].calls && fs[f].level <= r[f].level <= TopLevel(fs, f)
  }

  lemma RisesByCall(fs: Functions, r: Functions, f: string, c: string)
    requires Rising(fs, r) && f in r && c in r && c in r[f].calls && r[c].level > r[f].level
    ensures Rising(fs, r[f := Fn(r[c].level, r[f].calls)]) && r[c].level <= TopLevel(fs, f)
  {
    hide Reaches, TopLevel;
    var g := TopIsReached(fs, c);
    ReachesFurther(fs, f, c, g);
    TopIsBound(fs, f, g);
  }

  /** No function calls one of a higher level. */
  ghost predicate Closed(r: Functions) {
    forall f, c :: f in r && c in r[f].calls && c in r ==> r[c].level <= r[f].level
  }

  lemma {:induction false} ClosedAlong(fs: Functions, r: Functions, p: seq<string>)
    requires Rising(fs, r) && Closed(r) && IsPath(fs, p)
    ensures fs[p[|p| - 1]].level <= r[p[0]].level
    decreases |p|
  {
    hide TopLevel;
    if |p| > 1 {
      var q := p[1..];
      assert p[0 + 1] in fs[p[0]].calls && p[0] in r && q[0] == p[1];
      forall i | 0 <= i < |q| - 1 ensures q[i + 1] in fs[q[i]].calls { assert p[i + 1 + 1] in fs[p[i + 1]].calls; }
      ClosedAlong(fs, r, q);
    }
  }

  lemma ClosedReached(fs: Functions, r: Functions, f: string, g: string)
    requires Rising(fs, r) && Closed(r) && Reaches(fs, f, g)
    ensures f in fs && g in fs && fs[g].level <= r[f].level
  {
    hide TopLevel, Closed, Rising;
    var p :| Joins(fs, p, f, g);
    ClosedAlong(fs, r, p);
  }

  /** Rising levels that are closed under calls are the tops. */
  lemma ClosedIsSettled(fs: Functions, r: Functions)
    requires Rising(fs, r) && Closed(r)
    ensures r == Settled(fs)
  {
    hide TopLevel, Closed, Reaches;
    forall f | f in fs ensures r[f] == Fn(TopLevel(fs, f), fs[f].calls) {
      var g := TopIsReached(fs, f);
      ClosedReached(fs, r, f, g);
    }
  }

  /** The levels functions have yet to rise through: empty when all are at their tops. */
  ghost function Headroom(fs: Functions, r: Functions): set<(string, nat)> {
    set f, x: nat | f in fs && f in r && r[f].level <= x < TopLevel(fs, f) :: (f, x)
  }

  lemma HeadroomShrinks(fs: Functions, r: Functions, f: string, level: nat)
    requires f in fs && f in r && r[f].level < level <= TopLevel(fs, f)
    ensures Headroom(fs, r[f := Fn(level, r[f].calls)]) < Headroom(fs, r)
  {
    hide TopLevel;
    var r' := r[f := Fn(level, r[f].calls)];
    assert (f, r[f].level) in Headroom(fs, r) && (f, r[f].level) !in Headroom(fs, r');
  }

  // ---- the loop

  /** `f` calls no function of a higher level, those in `left` aside. */
  ghost predicate NoHigher(r: Functions, f: string, left: set<string>)
    requires f in r
  {
    forall c :: c in r[f].calls && c !in left && c in r ==> r[c].level <= r[f].level
  }

  /** No function calls one of a higher level, those in `todo` aside. */
  ghost predicate NoneHigher(r: Functions, todo: set<string>) {
    forall f :: f in r && f !in todo ==> NoHigher(r, f, {})
  }

  lemma NoneLeft(r: Functions)
    requires NoneHigher(r, {})
    ensures Closed(r)
  {
    assert forall f :: f in r ==> NoHigher(r, f, {});
  }

  lemma AllTodo(r: Functions)
    ensures NoneHigher(r, r.Keys)
  {
  }

  lemma AllLeft(r: Functions, f: string)
    requires f in r
    ensures NoHigher(r, f, r[f].calls)
  {
  }

  lemma OneLess(r: Functions, f: string, left: set<string>, c: string)
    requires f in r && NoHigher(r, f, left) && (c in r ==> r[c].level <= r[f].level)
    ensures NoHigher(r, f, left - {c})
  {
  }

  lemma OneDone(r: Functions, f: string, todo: set<string>)
    requires f in r && NoneHigher(r, todo) && NoHigher(r, f, {})
    ensures NoneHigher(r, todo - {f})
  {
    hide NoHigher;
  }

  /** `propagate`: levels raised call by call until nothing changes. Whatever the
      order, each function ends with the greatest own level it reaches. */
  method Propagate(fs: Functions) returns (r: Functions)
    ensures r == Settled(fs)
  {
    hide TopLevel, Reaches, Headroom, Settled, NoHigher, NoneHigher, Closed;
    r := fs;
    OwnIsRising(fs);
    var changed := true;
    while changed
      invariant Rising(fs, r)
      invariant !changed ==> Closed(r)
      decreases Headroom(fs, r), changed
    {
      changed := false;
      ghost var before := r;
      var todo := r.Keys;
      AllTodo(r);
      while todo != {}
        invariant Rising(fs, r) && todo <= r.Keys && r.Keys == fs.Keys
        invariant if changed then Headroom(fs, r) < Headroom(fs, before) else r == before
        invariant !changed ==> NoneHigher(r, todo)
        decreases |todo|
      {
        var f :| f in todo;
        var callees := r[f].calls;
        AllLeft(r, f);
        while callees != {}
          invariant Rising(fs, r) && r.Keys == fs.Keys && f in r && callees <= r[f].calls
          invariant if changed then Headroom(fs, r) < Headroom(fs, before) else r == before
          invariant !changed ==> NoneHigher(r, todo) && NoHigher(r, f, callees)
          decreases |callees|
        {
          var c :| c in callees;
          if c in r && r[c].level > r[f].level {
            RisesByCall(fs, r, f, c);
            HeadroomShrinks(fs, r, f, r[c].level);
            r := r[f := Fn(r[c].level, r[f].calls)];
            changed := true;
          } else if !changed {
            OneLess(r, f, callees, c);
          }
          callees := callees - {c};
        }
        if !changed { OneDone(r, f, todo); }
        todo := todo - {f};
      }
      if !changed { NoneLeft(r); }
    }
    ClosedIsSettled(fs, r);
  }

  lemma OwnIsRising(fs: Functions)
    ensures Rising(fs, fs)
  {
    hide TopLevel, Reaches;
    forall f | f in fs ensures fs[f].level <= TopLevel(fs, f) {
      ReachesItself(fs, f);
      TopIsBound(fs, f, f);
    }
  }

  // ---- load time

  /** Every lookup recorded is one: computed or relative. */
  ghost predicate LookupsCount(st: Scan) {
    forall i :: 0 <= i < |st.lookups| ==> 0 < st.lookups[i].level <= RELATIVE
  }

  lemma StepLevels(c: Code, m: Brackets, pos: nat, st: Scan)
    requires Pairs(c, m) && pos < |c| && st.stack != [] && LookupsCount(st)
    ensures LookupsCount(WalkStep(c, m, pos, st).0)
  {
    hide RoleOf, LookupLevel, Called, InColumnPhrase, RelativeDotted, IsRelative, LambdaAt, Pairs;
  }

  lemma {:induction false} WalkLevels(c: Code, m: Brackets, pos: nat, st: Scan)
    requires Pairs(c, m) && pos <= |c| && st.stack != [] && LookupsCount(st)
    ensures LookupsCount(Walk(c, m, pos, st))
    decreases |c| - pos
  {
    if pos < |c| {
      StepLevels(c, m, pos, st);
      hide WalkStep, Pairs, LookupsCount;
      var (st', next) := WalkStep(c, m, pos, st);
      WalkLevels(c, m, next, st');
    }
  }

  lemma ParseLevels(toks: seq<Tok>, lo: nat, hi: nat)
    requires hi <= |toks| && Parse(toks, lo, hi).Parsed?
    ensures forall i :: 0 <= i < |Parse(toks, lo, hi).lookups| ==> 0 < Parse(toks, lo, hi).lookups[i].level <= RELATIVE
  {
    var c := Significant(toks, lo, hi);
    WalkLevels(c, MatchAll(c), 0, START);
    hide Walk, MatchAll;
  }

  /** The statement runs while the file loads. */
  predicate RunsNow(st: Statement)
    requires st.Parsed?
  {
    st.definition.None?
  }

  /** LOAD-TIME SAFETY. A nested statement accepted without `--allow-computed-names`
      that runs while the file loads looks no name up at run time: not itself, and
      not through any chain of recorded calls, inline lambdas included. */
  lemma LoadTimeSafety(fs: Functions, defined: map<string, set<string>>, toks: seq<Tok>, lo: nat, hi: nat, ctx: string)
    requires hi <= |toks| && Parse(toks, lo, hi).Parsed? && RunsNow(Parse(toks, lo, hi))
    requires !LoadTimeHazard(Known(defined, Settled(fs)), false, toks, Parse(toks, lo, hi), ctx)
    ensures var st := Parse(toks, lo, hi);
            && (forall i :: 0 <= i < |st.lookups| ==> !InlineIn(st.lams, st.lookups[i].lam))
            && (forall f, g :: f in Calls(toks, st, ctx, true) && f in fs && g in fs && Reaches(fs, f, g) ==>
                fs[g].level == 0)
  {
    hide Calls, InlineIn, Parse, Reaches, TopLevel;
    var st := Parse(toks, lo, hi);
    var known := Known(defined, Settled(fs));
    ParseLevels(toks, lo, hi);
    forall f, g | f in Calls(toks, st, ctx, true) && f in fs && g in fs && Reaches(fs, f, g) ensures fs[g].level == 0 {
      assert !Refuses(known.LevelOf(f), false);
      TopIsBound(fs, f, g);
    }
  }
}
