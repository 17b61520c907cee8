/** What the 4.0 conversion writes, token by token. */
module Flatten {
  import opened Options
  import opened Chars
  import opened Lexer
  import opened QWords
  import opened Scanner
  import opened Renaming
  import opened Converter

  // ---- the uses of a parsed statement

  lemma {:induction false} WalkDotted(c: Code, m: Brackets, pos: nat, st: Scan)
    requires Pairs(c, m) && pos <= |c| && st.stack != [] && !Walk(c, m, pos, st).dotted
    ensures !st.dotted
    ensures var uses := Walk(c, m, pos, st).uses;
            forall i :: |st.uses| <= i < |uses| ==> uses[i].pos < |c| && !RelativeDotted(c[uses[i].pos].text)
    decreases |c| - pos
  {
    if pos < |c| {
      var (st', next) := WalkStep(c, m, pos, st);
      WalkDotted(c, m, next, st');
      StepDotted(c, m, pos, st);
      StepUses(c, m, pos, st);
      WalkUses(c, m, next, st');
      hide WalkStep, Pairs, RelativeDotted;
    }
  }

  lemma StepDotted(c: Code, m: Brackets, pos: nat, st: Scan)
    requires Pairs(c, m) && pos < |c| && st.stack != []
    ensures st.dotted ==> WalkStep(c, m, pos, st).0.dotted
    ensures |WalkStep(c, m, pos, st).0.uses| > |st.uses| && RelativeDotted(c[pos].text) ==>
              WalkStep(c, m, pos, st).0.dotted
  {
    hide RoleOf, LookupLevel, Called, InColumnPhrase, RelativeDotted, Pairs;
  }

  /** Every use stands at a name of its statement that is not dotted and relative. */
  ghost predicate UsesAt(toks: seq<Tok>, c: Code, uses: seq<Use>) {
    forall i :: 0 <= i < |uses| ==>
      && uses[i].pos < |c| && uses[i].idx == c[uses[i].pos].idx < |toks|
      && toks[uses[i].idx].kind == Name && c[uses[i].pos].text == toks[uses[i].idx].text
      && !RelativeDotted(toks[uses[i].idx].text)
  }

  lemma ParseUses(toks: seq<Tok>, lo: nat, hi: nat)
    requires hi <= |toks| && Parse(toks, lo, hi).Parsed?
    ensures UsesAt(toks, Significant(toks, lo, hi), Parse(toks, lo, hi).uses)
    ensures forall i :: 0 <= i < |Parse(toks, lo, hi).uses| ==> lo <= Parse(toks, lo, hi).uses[i].idx < hi
  {
    var c := Significant(toks, lo, hi);
    WalkUses(c, MatchAll(c), 0, START);
    WalkDotted(c, MatchAll(c), 0, START);
    hide Walk, RelativeDotted, MatchAll;
  }

  /** Uses stand in the order of their names, one use to a name. */
  ghost predicate UsesOrdered(uses: seq<Use>) {
    forall i, j :: 0 <= i < j < |uses| ==> uses[i].pos < uses[j].pos
  }

  lemma {:induction false} WalkOrdered(c: Code, m: Brackets, pos: nat, st: Scan)
    requires Pairs(c, m) && pos <= |c| && st.stack != []
    requires UsesOrdered(st.uses) && forall i :: 0 <= i < |st.uses| ==> st.uses[i].pos < pos
    ensures UsesOrdered(Walk(c, m, pos, st).uses)
    decreases |c| - pos
  {
    if pos < |c| {
      StepUses(c, m, pos, st);
      hide WalkStep, Pairs;
      var (st', next) := WalkStep(c, m, pos, st);
      WalkOrdered(c, m, next, st');
    }
  }

  /** The frames name lambdas there are, and each plain assignment in a lambda has made its local. */
  ghost predicate LocalsMade(c: Code, st: Scan) {
    && FramesKnown(st.stack, st.lams)
    && (forall i :: 0 <= i < |st.uses| ==> LocalMade(c, st.lams, st.uses[i]))
  }

  ghost predicate LocalMade(c: Code, lams: seq<Lambda>, u: Use) {
    u.pos < |c| && MakesLocal(u.role, u.lam) && IsRelative(c[u.pos].text) ==> IsLocalIn(lams, u.lam, c[u.pos].text)
  }

  /** Lambdas are only added, and locals only added to them. */
  ghost predicate LambdasGrow(lams: seq<Lambda>, lams': seq<Lambda>) {
    |lams| <= |lams'| &&
    forall i :: 0 <= i < |lams| ==>
      lams[i].locals <= lams'[i].locals && lams'[i] == lams[i].(locals := lams'[i].locals)
  }

  lemma StepLambdas(c: Code, m: Brackets, pos: nat, st: Scan)
    requires Pairs(c, m) && pos < |c| && st.stack != []
    ensures LambdasGrow(st.lams, WalkStep(c, m, pos, st).0.lams)
  {
    hide RoleOf, LookupLevel, Called, InColumnPhrase, RelativeDotted, IsRelative, LambdaAt, Pairs, IsBuiltin;
  }

  /** The frames name lambdas there are. */
  ghost predicate FramesKnown(stack: seq<Frame>, lams: seq<Lambda>) {
    forall i :: 0 <= i < |stack| && stack[i].lam.Some? ==> stack[i].lam.value < |lams|
  }

  lemma NameFramesKnown(c: Code, m: Brackets, pos: nat, st: Scan)
    requires m.Matched? && pos < |c| && st.stack != [] && FramesKnown(st.stack, st.lams)
    ensures FramesKnown(NameStep(c, m, pos, st).stack, NameStep(c, m, pos, st).lams)
  {
    hide RoleOf, LookupLevel, Called, InColumnPhrase, RelativeDotted, IsRelative, QSQL_START;
    assert TopOf(st).lam == st.stack[|st.stack| - 1].lam;
  }

  lemma OpFramesKnown(c: Code, m: Brackets, pos: nat, st: Scan)
    requires Pairs(c, m) && pos < |c| && c[pos].kind == Op && st.stack != [] && FramesKnown(st.stack, st.lams)
    ensures FramesKnown(OpStep(c, m, pos, st).0.stack, OpStep(c, m, pos, st).0.lams)
  {
    hide RelativeSymbol, LambdaAt, Pairs, HasParams;
    assert TopOf(st).lam == st.stack[|st.stack| - 1].lam;
  }

  lemma StepFrames(c: Code, m: Brackets, pos: nat, st: Scan)
    requires Pairs(c, m) && pos < |c| && st.stack != [] && FramesKnown(st.stack, st.lams)
    ensures FramesKnown(WalkStep(c, m, pos, st).0.stack, WalkStep(c, m, pos, st).0.lams)
  {
    if c[pos].kind == Name {
      NameFramesKnown(c, m, pos, st);
    } else if c[pos].kind == Op {
      OpFramesKnown(c, m, pos, st);
    }
    hide NameStep, OpStep, Pairs;
  }

  lemma StepLocal(c: Code, m: Brackets, pos: nat, st: Scan)
    requires Pairs(c, m) && pos < |c| && st.stack != [] && FramesKnown(st.stack, st.lams)
    ensures var st' := WalkStep(c, m, pos, st).0;
            |st'.uses| > |st.uses| ==> LocalMade(c, st'.lams, st'.uses[|st.uses|])
  {
    hide RoleOf, LookupLevel, Called, InColumnPhrase, RelativeDotted, IsRelative, LambdaAt, Pairs, IsBuiltin, OpStep;
    assert TopOf(st).lam == st.stack[|st.stack| - 1].lam;
    StepUses(c, m, pos, st);
  }

  lemma {:induction false} WalkLocals(c: Code, m: Brackets, pos: nat, st: Scan)
    requires Pairs(c, m) && pos <= |c| && st.stack != [] && LocalsMade(c, st)
    ensures LocalsMade(c, Walk(c, m, pos, st))
    decreases |c| - pos
  {
    if pos < |c| {
      StepUses(c, m, pos, st);
      StepLambdas(c, m, pos, st);
      StepFrames(c, m, pos, st);
      StepLocal(c, m, pos, st);
      hide WalkStep, Pairs, IsRelative, MakesLocal;
      var (st', next) := WalkStep(c, m, pos, st);
      assert LocalsMade(c, st');
      WalkLocals(c, m, next, st');
    }
  }

  lemma ParseLocals(toks: seq<Tok>, lo: nat, hi: nat)
    requires hi <= |toks| && Parse(toks, lo, hi).Parsed?
    ensures var st := Parse(toks, lo, hi);
            && UsesOrdered(st.uses)
            && (forall i ::
                  0 <= i < |st.uses| && MakesLocal(st.uses[i].role, st.uses[i].lam)
                  && IsRelative(TextOf(toks, st.uses[i].idx))
                  ==> IsLocalIn(st.lams, st.uses[i].lam, TextOf(toks, st.uses[i].idx)))
            && (forall i, j :: 0 <= i < |st.uses| && 0 <= j < |st.uses| && st.uses[i].idx == st.uses[j].idx ==> i == j)
  {
    var c := Significant(toks, lo, hi);
    WalkOrdered(c, MatchAll(c), 0, START);
    WalkLocals(c, MatchAll(c), 0, START);
    ParseUses(toks, lo, hi);
    hide Walk, RelativeDotted, MatchAll, IsRelative, MakesLocal, IsLocalIn;
    var uses := Parse(toks, lo, hi).uses;
    forall i | 0 <= i < |uses| ensures LocalMade(c, Parse(toks, lo, hi).lams, uses[i]) {}
    forall i, j | 0 <= i < j < |uses| ensures uses[i].idx != uses[j].idx {
      assert c[uses[i].pos].idx < c[uses[j].pos].idx;
    }
  }

  // ---- one statement's output

  /** Some use at token `k` is qualified. */
  ghost predicate QualifiedFrom(toks: seq<Tok>, st: Statement, i: nat, mine: set<string>, k: nat)
    requires st.Parsed?
  {
    exists j :: i <= j < |st.uses| && st.uses[j].idx == k &&
      BindingOf(st.lams, st.uses[j], TextOf(toks, k), mine) == Qualify
  }

  ghost predicate RefusedFrom(toks: seq<Tok>, st: Statement, i: nat, mine: set<string>)
    requires st.Parsed?
  {
    exists j :: i <= j < |st.uses| && BindingOf(st.lams, st.uses[j], TextOf(toks, st.uses[j].idx), mine) == Refuse
  }

  lemma {:induction false} BindUsesAt(toks: seq<Tok>, st: Statement, i: nat, ctx: string, mine: set<string>, cv: Conv,
                                      k: nat)
    requires st.Parsed? && i <= |st.uses| && k < |cv.out|
    ensures var r := BindUses(toks, st, i, ctx, mine, cv);
            && r.out[k] == (if QualifiedFrom(toks, st, i, mine, k) then ctx + "." + TextOf(toks, k) else cv.out[k])
            && (r.refused <==> cv.refused || RefusedFrom(toks, st, i, mine))
    decreases |st.uses| - i
  {
    hide BindingOf, TextOf;
    if i < |st.uses| {
      var use := st.uses[i];
      var cv' := BindUse(toks, st.lams, use, ctx, mine, cv);
      BindUsesAt(toks, st, i + 1, ctx, mine, cv', k);
      var b := BindingOf(st.lams, use, TextOf(toks, use.idx), mine);
      assert QualifiedFrom(toks, st, i, mine, k) <==>
             (use.idx == k && b == Qualify) || QualifiedFrom(toks, st, i + 1, mine, k);
      assert RefusedFrom(toks, st, i, mine) <==> b == Refuse || RefusedFrom(toks, st, i + 1, mine);
    }
  }

  /** What the conversion writes for token `k` of statement `s`. */
  ghost function FlatText(known: Known, toks: seq<Tok>, s: Stmt, k: nat): string
    requires s.lo <= k < s.hi <= |toks|
  {
    if toks[s.lo].kind == Tail then toks[k].text
    else if toks[s.lo].kind == Sys then
      (if k == s.lo && ContextOf(toks[k].text).Some? && Nested(ContextOf(toks[k].text).value) then ROOT_LINE
       else toks[k].text)
    else if Nested(s.ctx) && Parse(toks, s.lo, s.hi).Parsed? &&
            QualifiedFrom(toks, Parse(toks, s.lo, s.hi), 0, known.DefinedIn(s.ctx), k) then s.ctx + "." + toks[k].text
    else toks[k].text
  }

  ghost predicate FlatRefused(known: Known, allowComputed: bool, toks: seq<Tok>, s: Stmt)
    requires s.lo < s.hi <= |toks|
  {
    if toks[s.lo].kind == Tail then false
    else if toks[s.lo].kind == Sys then
      match ContextOf(toks[s.lo].text)
      case Some(ctx) => ctx != "" && ctx[0] != '.'
      case None => Nested(s.ctx)
    else
      HidesSwitches(toks, s.lo, s.hi) ||
      (Nested(s.ctx) &&
       var st := Parse(toks, s.lo, s.hi);
       st.Refused? || LoadTimeHazard(known, allowComputed, toks, st, s.ctx) ||
         RefusedFrom(toks, st, 0, known.DefinedIn(s.ctx)))
  }

  /** One statement changes its own tokens alone, as `FlatText` says. */
  lemma ConvertStatementAt(known: Known, allowComputed: bool, toks: seq<Tok>, s: Stmt, cv: Conv, k: nat)
    requires s.lo < s.hi <= |toks| == |cv.out| && k < |toks|
    requires s.lo <= k < s.hi ==> cv.out[k] == toks[k].text
    ensures var r := ConvertStatement(known, allowComputed, Flat, toks, s, cv);
            && r.out[k] == (if s.lo <= k < s.hi then FlatText(known, toks, s, k) else cv.out[k])
            && (r.refused <==> cv.refused || FlatRefused(known, allowComputed, toks, s))
  {
    hide HidesSwitches, LoadTimeHazard, Parse, QualifiedFrom, RefusedFrom, ContextOf, CountOf, BindUses, ROOT_LINE;
    if toks[s.lo].kind != Tail && toks[s.lo].kind != Sys && Nested(s.ctx) && Parse(toks, s.lo, s.hi).Parsed? {
      var st := Parse(toks, s.lo, s.hi);
      var cv' := cv.(refused := cv.refused || HidesSwitches(toks, s.lo, s.hi));
      var mine := known.DefinedIn(s.ctx);
      var cv'' := cv'.(refused := cv'.refused || LoadTimeHazard(known, allowComputed, toks, st, s.ctx));
      BindUsesAt(toks, st, 0, s.ctx, mine, cv'', k);
      if QualifiedFrom(toks, st, 0, mine, k) { QualifiedInside(toks, s, st, mine, k); }
    }
  }

  lemma QualifiedInside(toks: seq<Tok>, s: Stmt, st: Statement, mine: set<string>, k: nat)
    requires s.hi <= |toks| && st == Parse(toks, s.lo, s.hi) && st.Parsed? && QualifiedFrom(toks, st, 0, mine, k)
    ensures s.lo <= k < s.hi && TextOf(toks, k) == toks[k].text
  {
    ParseUses(toks, s.lo, s.hi);
  }

  // ---- the whole file's output

  ghost predicate Ordered(toks: seq<Tok>, ss: seq<Stmt>) {
    && (forall j :: 0 <= j < |ss| ==> ss[j].lo < ss[j].hi <= |toks|)
    && (forall j, k :: 0 <= j < k < |ss| ==> ss[j].hi <= ss[k].lo)
  }

  /** Token `k` as the conversion leaves it: its statement's say, and its own text outside statements. */
  ghost predicate FlatAt(known: Known, toks: seq<Tok>, ss: seq<Stmt>, out: seq<string>, k: nat)
    requires Ordered(toks, ss) && |out| == |toks| && k < |toks|
  {
    && (forall j :: 0 <= j < |ss| && ss[j].lo <= k < ss[j].hi ==> out[k] == FlatText(known, toks, ss[j], k))
    && ((forall j :: 0 <= j < |ss| ==> !(ss[j].lo <= k < ss[j].hi)) ==> out[k] == toks[k].text)
  }

  lemma {:induction false} ConvertFromAt(known: Known, allowComputed: bool, toks: seq<Tok>, ss: seq<Stmt>, i: nat,
                                         cv: Conv, k: nat)
    requires Ordered(toks, ss) && i <= |ss| && |cv.out| == |toks| && k < |toks|
    requires forall j :: i <= j < |ss| && ss[j].lo <= k < ss[j].hi ==> cv.out[k] == toks[k].text
    ensures var r := ConvertFrom(known, allowComputed, Flat, toks, ss, i, cv);
            && (forall j :: i <= j < |ss| && ss[j].lo <= k < ss[j].hi ==> r.out[k] == FlatText(known, toks, ss[j], k))
            && ((forall j :: i <= j < |ss| ==> !(ss[j].lo <= k < ss[j].hi)) ==> r.out[k] == cv.out[k])
    decreases |ss| - i
  {
    hide FlatText, FlatRefused, ConvertStatement;
    if i < |ss| {
      ConvertStatementAt(known, allowComputed, toks, ss[i], cv, k);
      var cv' := ConvertStatement(known, allowComputed, Flat, toks, ss[i], cv);
      ConvertFromAt(known, allowComputed, toks, ss, i + 1, cv', k);
    }
  }

  lemma {:induction false} ConvertFromRefused(known: Known, allowComputed: bool, toks: seq<Tok>, ss: seq<Stmt>, i: nat,
                                              cv: Conv)
    requires Ordered(toks, ss) && i <= |ss| && |cv.out| == |toks|
    requires forall j, k :: i <= j < |ss| && ss[j].lo <= k < ss[j].hi ==> cv.out[k] == toks[k].text
    ensures ConvertFrom(known, allowComputed, Flat, toks, ss, i, cv).refused
            <==> cv.refused || exists j :: i <= j < |ss| && FlatRefused(known, allowComputed, toks, ss[j])
    decreases |ss| - i
  {
    hide FlatText, FlatRefused, ConvertStatement;
    if i < |ss| {
      var cv' := ConvertStatement(known, allowComputed, Flat, toks, ss[i], cv);
      forall j, k | i + 1 <= j < |ss| && ss[j].lo <= k < ss[j].hi ensures cv'.out[k] == toks[k].text {
        ConvertStatementAt(known, allowComputed, toks, ss[i], cv, k);
      }
      ConvertStatementAt(known, allowComputed, toks, ss[i], cv, ss[i].lo);
      ConvertFromRefused(known, allowComputed, toks, ss, i + 1, cv');
    }
  }

  lemma FlatOutputAt(known: Known, allowComputed: bool, toks: seq<Tok>, k: nat)
    requires k < |toks|
    ensures |ConvertToks(known, allowComputed, Flat, toks).out| == |toks|
    ensures FlatAt(known, toks, StatementsOf(toks), ConvertToks(known, allowComputed, Flat, toks).out, k)
  {
    hide FlatText, ConvertStatement, ConvertFrom;
    ConvertFromAt(known, allowComputed, toks, StatementsOf(toks), 0, Conv(Texts(toks), false), k);
  }

  /** The 4.0 conversion, token by token: what it writes, and when it refuses. */
  lemma FlatOutput(known: Known, allowComputed: bool, toks: seq<Tok>)
    ensures var cv := ConvertToks(known, allowComputed, Flat, toks);
            && |cv.out| == |toks|
            && (forall k :: 0 <= k < |toks| ==> FlatAt(known, toks, StatementsOf(toks), cv.out, k))
            && (cv.refused <==> exists j ::
                  0 <= j < |StatementsOf(toks)| && FlatRefused(known, allowComputed, toks, StatementsOf(toks)[j]))
  {
    hide FlatText, FlatRefused, FlatAt, ConvertStatement, ConvertFrom, StatementsOf;
    var ss := StatementsOf(toks);
    assert Ordered(toks, ss);
    ConvertFromRefused(known, allowComputed, toks, ss, 0, Conv(Texts(toks), false));
    forall k | 0 <= k < |toks| ensures FlatAt(known, toks, ss, ConvertToks(known, allowComputed, Flat, toks).out, k) {
      FlatOutputAt(known, allowComputed, toks, k);
    }
  }
}
