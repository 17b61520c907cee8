/** A moved statement flattened again, and what the inputs define once blocks have moved. */
module RoundTrip {
  import opened Lexer
  import opened LexerProofs
  import opened QWords
  import opened Scanner
  import opened Renaming
  import opened Converter
  import opened Layout
  import opened Flatten
  import opened FlattenLexing
  import opened Meaning
  import opened Nesting
  import opened NestLexing
  import opened RunContexts
  import opened NestedFile
  import opened Moving
  import opened MovedStatements

  // ---- one moved statement, flattened again

  /** A parsed statement and its moved self, and every use's names in both. */
  ghost predicate Moved(known: Known, toks: seq<Tok>, toks': seq<Tok>, st: Statement, st': Statement, ctx: string) {
    && st.Parsed? && st'.Parsed? && SameParse(st, st') && UsesMoved(known, toks, toks', st, ctx)
  }

  lemma MovedUse(known: Known, toks: seq<Tok>, toks': seq<Tok>, st: Statement, st': Statement, ctx: string, i: nat)
    requires Moved(known, toks, toks', st, st', ctx) && i < |st.uses|
    ensures var u := st.uses[i];
            && u.idx < |toks| && u.idx < |toks'| && st'.uses == st.uses && st'.lams == st.lams
            && TextOf(toks, u.idx) == toks[u.idx].text && TextOf(toks', u.idx) == toks'[u.idx].text
            && toks'[u.idx].text == MovedName(st.lams, u, toks[u.idx].text, ctx)
            && UseOk(known, st.lams, u, toks[u.idx].text, ctx)
  {
    hide UseOk, MovedName;
    assert UseMoved(known, toks, toks', st, ctx, i);
  }

  lemma MovedIsParsed(known: Known, toks: seq<Tok>, toks': seq<Tok>, st: Statement, st': Statement, ctx: string)
    requires Moved(known, toks, toks', st, st', ctx)
    ensures st.Parsed? && st'.Parsed? && st'.uses == st.uses
  {
  }

  lemma UseAmends(toks: seq<Tok>, st: Statement, i: nat)
    requires st.Parsed? && AmendsLocals(toks, st) && i < |st.uses| && st.uses[i].idx < |toks|
    ensures AmendsLocal(st.lams, st.uses[i], toks[st.uses[i].idx].text)
  {
    hide AmendsLocal;
    assert TextOf(toks, st.uses[i].idx) == toks[st.uses[i].idx].text;
  }

  /** Flattening binds use `i` of the moved statement, of `toks'`, back to the root's own name. */
  ghost predicate UseBack(toks: seq<Tok>, toks': seq<Tok>, st': Statement, ctx: string, mine: set<string>, i: nat)
    requires st'.Parsed? && i < |st'.uses|
  {
    var u := st'.uses[i];
    var b := BindingOf(st'.lams, u, TextOf(toks', u.idx), mine);
    && u.idx < |toks| && u.idx < |toks'| && b != Refuse
    && toks[u.idx].text == if b == Qualify then ctx + "." + toks'[u.idx].text else toks'[u.idx].text
  }

  /** Each use comes back if and only if it amends no relative name but a plain local. */
  lemma MovedBinding(known: Known, toks: seq<Tok>, toks': seq<Tok>, st: Statement, st': Statement, ctx: string, i: nat)
    requires Moved(known, toks, toks', st, st', ctx) && i < |st.uses|
    ensures st'.Parsed? && i < |st'.uses|
    ensures UseBack(toks, toks', st', ctx, known.DefinedIn(ctx), i)
            <==> AmendsLocal(st.lams, st.uses[i], TextOf(toks, st.uses[i].idx))
  {
    assert st.Parsed? && st'.Parsed?;
    hide Moved, UseOk, AmendsLocal, MovedName, BindingOf, ShortOf;
    MovedUse(known, toks, toks', st, st', ctx, i);
    UseRestored(known, st.lams, st.uses[i], toks[st.uses[i].idx].text, ctx);
  }

  /** A use that amends anything else does not come back, whatever the inputs define. */
  lemma MovedAmend(known: Known, toks: seq<Tok>, toks': seq<Tok>, st: Statement, st': Statement, ctx: string, i: nat,
                   mine: set<string>)
    requires Moved(known, toks, toks', st, st', ctx) && i < |st.uses|
    requires !AmendsLocal(st.lams, st.uses[i], TextOf(toks, st.uses[i].idx))
    ensures st'.Parsed? && i < |st'.uses| && !UseBack(toks, toks', st', ctx, mine, i)
  {
    assert st.Parsed? && st'.Parsed?;
    hide Moved, UseOk, AmendsLocal, MovedName, BindingOf, ShortOf;
    MovedUse(known, toks, toks', st, st', ctx, i);
    UseNotRestored(known, st.lams, st.uses[i], toks[st.uses[i].idx].text, ctx, mine);
  }

  ghost predicate UsesBack(toks: seq<Tok>, toks': seq<Tok>, st': Statement, ctx: string, mine: set<string>)
    requires st'.Parsed?
  {
    forall i :: 0 <= i < |st'.uses| ==> UseBack(toks, toks', st', ctx, mine, i)
  }

  /** A moved statement comes back use by use if and only if it amends no relative name but plain locals. */
  lemma StatementRestored(known: Known, toks: seq<Tok>, toks': seq<Tok>, st: Statement, st': Statement, ctx: string)
    requires Moved(known, toks, toks', st, st', ctx)
    ensures st.Parsed? && st'.Parsed?
    ensures UsesBack(toks, toks', st', ctx, known.DefinedIn(ctx)) <==> AmendsLocals(toks, st)
  {
    assert st.Parsed? && st'.Parsed? && st'.uses == st.uses;
    hide Moved, UseBack, AmendsLocal;
    forall i | 0 <= i < |st.uses|
      ensures UseBack(toks, toks', st', ctx, known.DefinedIn(ctx), i)
              <==> AmendsLocal(st.lams, st.uses[i], TextOf(toks, st.uses[i].idx))
    {
      MovedBinding(known, toks, toks', st, st', ctx, i);
    }
  }

  /** Whatever the inputs define, only a statement that amends no relative name but plain locals comes back. */
  lemma OnlyLocalsRestored(known: Known, toks: seq<Tok>, toks': seq<Tok>, st: Statement, st': Statement, ctx: string,
                           mine: set<string>)
    requires Moved(known, toks, toks', st, st', ctx)
    ensures st.Parsed? && st'.Parsed?
    ensures UsesBack(toks, toks', st', ctx, mine) ==> AmendsLocals(toks, st)
  {
    assert st.Parsed? && st'.Parsed? && st'.uses == st.uses;
    hide Moved, UseBack, AmendsLocal;
    forall i | 0 <= i < |st.uses| && UsesBack(toks, toks', st', ctx, mine)
      ensures AmendsLocal(st.lams, st.uses[i], TextOf(toks, st.uses[i].idx))
    {
      if !AmendsLocal(st.lams, st.uses[i], TextOf(toks, st.uses[i].idx)) {
        MovedAmend(known, toks, toks', st, st', ctx, i, mine);
      }
    }
  }

  /** The uses come back if and only if none is refused and each use's token is written as at the root. */
  lemma {:induction false} UsesBackAt(toks: seq<Tok>, toks': seq<Tok>, st': Statement, ctx: string, mine: set<string>)
    requires st'.Parsed?
    requires forall i :: 0 <= i < |st'.uses| ==> st'.uses[i].idx < |toks| == |toks'|
    requires forall i, j :: 0 <= i < |st'.uses| && 0 <= j < |st'.uses| && st'.uses[i].idx == st'.uses[j].idx ==> i == j
    ensures UsesBack(toks, toks', st', ctx, mine)
            <==> !RefusedFrom(toks', st', 0, mine) && forall i :: 0 <= i < |st'.uses| ==>
                   UsedText(toks', st', ctx, mine, st'.uses[i].idx) == toks[st'.uses[i].idx].text
  {
    hide BindingOf;
    forall i | 0 <= i < |st'.uses|
      ensures UseBack(toks, toks', st', ctx, mine, i)
              <==> BindingOf(st'.lams, st'.uses[i], TextOf(toks', st'.uses[i].idx), mine) != Refuse
                   && UsedText(toks', st', ctx, mine, st'.uses[i].idx) == toks[st'.uses[i].idx].text
    {
      OneUse(toks', st', mine, i);
    }
    hide UseBack, UsedText;
    assert RefusedFrom(toks', st', 0, mine) <==>
             exists i :: 0 <= i < |st'.uses| && BindingOf(st'.lams, st'.uses[i], TextOf(toks', st'.uses[i].idx),
                                                          mine) == Refuse;
  }

  /** What flattening writes for token `k` of the statement. */
  ghost function UsedText(toks': seq<Tok>, st': Statement, ctx: string, mine: set<string>, k: nat): string
    requires st'.Parsed? && k < |toks'|
  {
    if QualifiedFrom(toks', st', 0, mine, k) then ctx + "." + toks'[k].text else toks'[k].text
  }

  lemma OneUse(toks': seq<Tok>, st': Statement, mine: set<string>, i: nat)
    requires st'.Parsed? && i < |st'.uses|
    requires forall a, b :: 0 <= a < |st'.uses| && 0 <= b < |st'.uses| && st'.uses[a].idx == st'.uses[b].idx ==> a == b
    ensures QualifiedFrom(toks', st', 0, mine, st'.uses[i].idx)
            <==> BindingOf(st'.lams, st'.uses[i], TextOf(toks', st'.uses[i].idx), mine) == Qualify
  {
    hide BindingOf;
  }

  lemma {:induction false} MovedCalls(known: Known, toks: seq<Tok>, toks': seq<Tok>, st: Statement, st': Statement,
                                      ctx: string, b: bool)
    requires Moved(known, toks, toks', st, st', ctx) && AmendsLocals(toks, st)
    ensures Calls(toks', st', ctx, b) == Calls(toks, st, ".", b)
  {
    assert st'.uses == st.uses;
    hide Moved, UseOk, AmendsLocal, AmendsLocals, MovedName, IsLocalIn, IsBuiltin, InlineIn, Qualified;
    forall i: nat | i < |st.uses|
      ensures IsCall(toks', st', st'.uses[i], b) <==> IsCall(toks, st, st.uses[i], b)
      ensures IsCall(toks, st, st.uses[i], b) ==>
                Qualified(ctx, TextOf(toks', st'.uses[i].idx)) == Qualified(".", TextOf(toks, st.uses[i].idx))
    {
      MovedUse(known, toks, toks', st, st', ctx, i);
      UseAmends(toks, st, i);
      UseCollected(known, st.lams, st.uses[i], toks[st.uses[i].idx].text, ctx);
    }
  }

  lemma {:induction false} MovedDefines(known: Known, toks: seq<Tok>, toks': seq<Tok>, st: Statement, st': Statement,
                                        ctx: string, i: nat,
                                        defined: map<string, set<string>>)
    requires Moved(known, toks, toks', st, st', ctx) && AmendsLocals(toks, st) && i <= |st.uses| == |st'.uses|
    ensures CollectUses(toks', st', ctx, i, defined) == CollectUses(toks, st, ".", i, defined)
    decreases |st.uses| - i
  {
    if i < |st.uses| {
      assert st'.uses == st.uses;
      hide Moved, UseOk, AmendsLocal, AmendsLocals, MovedName, IsLocalIn, IsBuiltin, InlineIn, Qualified, AddName;
      MovedUse(known, toks, toks', st, st', ctx, i);
      UseAmends(toks, st, i);
      UseCollected(known, st.lams, st.uses[i], toks[st.uses[i].idx].text, ctx);
      assert Defines(toks', st', st'.uses[i]) <==> UseDefines(st.lams, st.uses[i], toks'[st.uses[i].idx].text);
      assert Defines(toks, st, st.uses[i]) <==> UseDefines(st.lams, st.uses[i], toks[st.uses[i].idx].text);
      var next := if Defines(toks, st, st.uses[i]) then AddName(defined, Qualified(".", TextOf(toks, st.uses[i].idx)))
        else defined;
      MovedDefines(known, toks, toks', st, st', ctx, i + 1, next);
    }
  }

  /** A moved statement does nothing at load time that 4.0 refuses. */
  lemma MovedNoHazard(known: Known, allowComputed: bool, toks: seq<Tok>, toks': seq<Tok>, st: Statement, st': Statement,
                      ctx: string)
    requires Moved(known, toks, toks', st, st', ctx) && AmendsLocals(toks, st) && !Unmovable(known, toks, st, ctx)
    ensures !LoadTimeHazard(known, allowComputed, toks', st', ctx)
  {
    MovedCalls(known, toks, toks', st, st', ctx, true);
    assert st'.lookups == st.lookups && st'.lams == st.lams && st'.definition.Some? == st.definition.Some?;
    hide Moved, Calls, InlineIn, UseStays, AmendsLocals;
  }

  // ---- definitions

  /** The name a definition defines is its first use. */
  lemma DefinitionUse(c: Code)
    requires ParseCode(c).Parsed? && ParseCode(c).definition.Some? && ParseCode(c).definition.value !in QSQL_START
    requires forall p :: 0 <= p < |c| && c[p].text == ":" ==> c[p].kind == Op
    ensures |c| > 0 && ParseCode(c).definition.value == c[0].text
    ensures |ParseCode(c).uses| > 0 && IsFirstUse(c, ParseCode(c).uses[0])
  {
    var m := MatchAll(c);
    assert c[0].kind == Name && c[1].text == ":" && c[1].kind == Op && |c| >= 4;
    var st := WalkStep(c, m, 0, START).0;
    hide Pairs, MatchAll, DefinitionOf;
    FirstStep(c, m);
    FirstName(c, m);
    hide WalkStep, Walk;
    WalkUses(c, m, 1, st);
  }

  ghost predicate IsFirstUse(c: Code, u: Use) {
    |c| > 0 && u.pos == 0 && u.idx == c[0].idx && u.lam.None? && u.role == Assign
  }

  lemma FirstStep(c: Code, m: Brackets)
    requires Pairs(c, m) && |c| > 0 && c[0].kind == Name
    ensures Walk(c, m, 0, START) == Walk(c, m, 1, WalkStep(c, m, 0, START).0)
  {
    hide NameStep, Pairs;
  }

  lemma FirstName(c: Code, m: Brackets)
    requires Pairs(c, m) && |c| >= 4 && c[0].kind == Name && c[1].text == ":" && c[1].kind == Op
    requires c[0].text !in QSQL_START
    ensures var uses := WalkStep(c, m, 0, START).0.uses;
            |uses| == 1 && IsFirstUse(c, uses[0])
  {
    hide Pairs, LookupLevel, Called, RelativeDotted;
    assert TextAt(c, 1) == ":";
  }

  lemma ColonIsOp(ps: seq<Piece>, k: nat)
    requires Valid(ps, LineStart) && k < |ps| && ps[k].text == ":"
    ensures ps[k].kind == Op
  {
    ValidAt(ps, LineStart, k);
    var r := Concat(ps[k..][1..]);
    assert ps[k..][0] == ps[k] && Concat(ps[k..]) == ":" + r;
    hide Step, Valid;
    ColonCut(r, ModeAt(ps, LineStart, k));
  }

  lemma ColonCut(r: string, m: Mode)
    requires Step(":" + r, m).Cut?
    ensures Step(":" + r, m).kind == Op
  {
    assert (":" + r)[0] == ':';
  }

  /** A definition's name in the context qualifies to the name it has at the root. */
  lemma MovedDefinition(known: Known, toks: seq<Tok>, s: Stmt, toks': seq<Tok>, ctx: string)
    requires s.lo < s.hi <= |toks| == |toks'| && SameLayout(toks, toks') && Valid(Unplaced(toks), LineStart)
    requires Moved(known, toks, toks', Parse(toks, s.lo, s.hi), Parse(toks', s.lo, s.hi), ctx)
    requires Kept(toks, Parse(toks, s.lo, s.hi)) && Parse(toks, s.lo, s.hi).definition.Some?
    ensures var st, st' := Parse(toks, s.lo, s.hi), Parse(toks', s.lo, s.hi);
            st'.definition.Some? && Qualified(ctx, st'.definition.value) == Qualified(".", st.definition.value)
  {
    var st, st' := Parse(toks, s.lo, s.hi), Parse(toks', s.lo, s.hi);
    var c, d := Significant(toks, s.lo, s.hi), Significant(toks', s.lo, s.hi);
    SignificantSame(toks, toks', s.lo, s.hi);
    assert st == ParseCode(c) && st' == ParseCode(d) && st'.definition.Some? && st.definition.value !in QSQL_START;
    assert AmendsLocals(toks, st);
    hide Parse, ParseCode, Significant, Moved, Valid, Qualified, QSQL_START, Kept, AmendsLocals;
    forall p | 0 <= p < |c| && c[p].text == ":" ensures c[p].kind == Op {
      assert Unplaced(toks)[c[p].idx] == Piece(toks[c[p].idx].kind, toks[c[p].idx].text);
      ColonIsOp(Unplaced(toks), c[p].idx);
    }
    DefinitionUse(c);
    DefinitionText(d);
    MovedUse(known, toks, toks', st, st', ctx, 0);
    UseAmends(toks, st, 0);
    UseCollected(known, st.lams, st.uses[0], toks[st.uses[0].idx].text, ctx);
    hide UseOk, AmendsLocal, MovedName;
  }

  lemma DefinitionText(d: Code)
    requires ParseCode(d).Parsed? && ParseCode(d).definition.Some?
    ensures |d| > 0 && ParseCode(d).definition.value == d[0].text
  {
    hide Walk, MatchAll;
  }

  // ---- the files

  /** The statement's lambdas take no absolute name as a parameter. */
  predicate ParamsIn(toks: seq<Tok>, s: Stmt)
    requires s.lo < s.hi <= |toks|
  {
    var st := Parse(toks, s.lo, s.hi);
    st.Parsed? ==> ParamsRelative(st.lams)
  }

  /** The statement amends no relative name but plain locals. */
  predicate AmendsIn(toks: seq<Tok>, s: Stmt)
    requires s.lo < s.hi <= |toks|
  {
    var st := Parse(toks, s.lo, s.hi);
    st.Parsed? ==> AmendsLocals(toks, st)
  }

  /** The statement defines no word that opens a qSQL phrase. */
  predicate DefinesIn(toks: seq<Tok>, s: Stmt)
    requires s.lo < s.hi <= |toks|
  {
    var st := Parse(toks, s.lo, s.hi);
    st.Parsed? && st.definition.Some? ==> st.definition.value !in QSQL_START
  }

  /** What collecting needs of a statement that moves. */
  predicate Kept(toks: seq<Tok>, st: Statement)
    requires st.Parsed?
  {
    AmendsLocals(toks, st) && (st.definition.Some? ==> st.definition.value !in QSQL_START)
  }

  predicate ReadyIn(toks: seq<Tok>, s: Stmt)
    requires s.lo < s.hi <= |toks|
  {
    ParamsIn(toks, s) && AmendsIn(toks, s) && DefinesIn(toks, s)
  }

  /** What a file's moved blocks must be for it to collect to the same once nested. */
  ghost predicate Ready(known: Known, toks: seq<Tok>, ss: seq<Stmt>)
    requires Ordered(toks, ss)
  {
    && LeavesNamed(known, toks, ss) && NoneStranded(known, toks, ss)
    && (forall j: nat :: j < |ss| && MovesTo(known, toks, ss, j).Some? ==> ReadyIn(toks, ss[j]))
  }

  lemma ReadyParams(toks: seq<Tok>, s: Stmt)
    requires s.lo < s.hi <= |toks| && ReadyIn(toks, s)
    ensures ParamsIn(toks, s)
  {
    hide Parse, AmendsLocals, ParamsRelative, QSQL_START;
  }

  lemma ReadyToKept(toks: seq<Tok>, s: Stmt)
    requires s.lo < s.hi <= |toks| && ReadyIn(toks, s) && Parse(toks, s.lo, s.hi).Parsed?
    ensures ParamsIn(toks, s) && Kept(toks, Parse(toks, s.lo, s.hi))
  {
    hide Parse, AmendsLocals, ParamsRelative, QSQL_START;
  }

  lemma StatementIsMoved(known: Known, toks: seq<Tok>, ss: seq<Stmt>, toks': seq<Tok>, j: nat)
    requires Nestled(known, toks, toks') && ss == StatementsOf(toks) && Ordered(toks, ss) && j < |ss|
    requires |toks| == |toks'|
    requires MovesTo(known, toks, ss, j).Some? && Valid(Unplaced(toks), LineStart)
    requires LeavesNamed(known, toks, ss) && ParamsIn(toks, ss[j])
    ensures var st, st' := Parse(toks, ss[j].lo, ss[j].hi), Parse(toks', ss[j].lo, ss[j].hi);
            && Moved(known, toks, toks', st, st', MovesTo(known, toks, ss, j).value)
            && !Unmovable(known, toks, st, MovesTo(known, toks, ss, j).value)
  {
    hide StatementsOf, Nestled, Valid, LeavesNamed, Parse, UsesMoved, ParamsRelative, Unmovable, SameParse;
    hide AmendsRoot;
    assert IsCodeStatement(toks, ss[j]);
    MovesIsMovable(known, toks, ss, j);
    StatementMoved(known, toks, ss, toks', j);
    NestParse(known, toks, ss, toks', j);
    assert Parse(toks', ss[j].lo, ss[j].hi).Parsed? by {
      SameParsed(Parse(toks, ss[j].lo, ss[j].hi), Parse(toks', ss[j].lo, ss[j].hi));
    }
  }

  lemma SameParsed(s: Statement, t: Statement)
    requires SameParse(s, t) && s.Parsed?
    ensures t.Parsed? && t.definition.Some? == s.definition.Some?
  {
  }

  // ---- collecting

  lemma MovedFunctions(known: Known, toks: seq<Tok>, s: Stmt, toks': seq<Tok>, ctx: string)
    requires s.lo < s.hi <= |toks| == |toks'| && SameLayout(toks, toks') && Valid(Unplaced(toks), LineStart)
    requires Moved(known, toks, toks', Parse(toks, s.lo, s.hi), Parse(toks', s.lo, s.hi), ctx)
    requires Kept(toks, Parse(toks, s.lo, s.hi))
    ensures var st, st' := Parse(toks, s.lo, s.hi), Parse(toks', s.lo, s.hi);
            && st.Parsed? && st'.Parsed? && st'.lookups == st.lookups && |st'.uses| == |st.uses|
            && st'.definition.Some? == st.definition.Some?
            && Calls(toks', st', ctx, false) == Calls(toks, st, ".", false)
            && (st.definition.Some? ==> Qualified(ctx, st'.definition.value) == Qualified(".", st.definition.value))
  {
    var st, st' := Parse(toks, s.lo, s.hi), Parse(toks', s.lo, s.hi);
    assert st.Parsed? && st'.Parsed? && st'.lookups == st.lookups && st'.uses == st.uses;
    assert st'.definition.Some? == st.definition.Some?;
    assert AmendsLocals(toks, st);
    hide Parse, Moved, Valid, Qualified, Kept, AmendsLocals, Calls, SameLayout;
    if st.definition.Some? { MovedDefinition(known, toks, s, toks', ctx); }
    MovedCalls(known, toks, toks', st, st', ctx, false);
  }

  lemma {:induction false} MovedCollects(known: Known, toks: seq<Tok>, s: Stmt, toks': seq<Tok>, ctx: string,
                                         all: Known)
    requires s.lo < s.hi <= |toks| == |toks'| && SameLayout(toks, toks') && Valid(Unplaced(toks), LineStart)
    requires Moved(known, toks, toks', Parse(toks, s.lo, s.hi), Parse(toks', s.lo, s.hi), ctx)
    requires Kept(toks, Parse(toks, s.lo, s.hi)) && s.ctx == "."
    ensures CollectStatement(toks', Stmt(s.lo, s.hi, ctx), all) == CollectStatement(toks, s, all)
  {
    assert toks[s.lo].kind == toks'[s.lo].kind;
    assert AmendsLocals(toks, Parse(toks, s.lo, s.hi));
    hide Parse, Moved, Valid, Qualified, Kept, AmendsLocals, Calls, CollectUses, SameLayout, OwnLevel;
    MovedFunctions(known, toks, s, toks', ctx);
    MovedDefines(known, toks, toks', Parse(toks, s.lo, s.hi), Parse(toks', s.lo, s.hi), ctx, 0, all.defined);
  }

  /** The uses' texts in a statement that did not move. */
  ghost predicate SameUseTexts(toks: seq<Tok>, toks': seq<Tok>, st: Statement)
    requires st.Parsed?
  {
    forall i :: 0 <= i < |st.uses| ==> TextOf(toks, st.uses[i].idx) == TextOf(toks', st.uses[i].idx)
  }

  lemma {:induction false} UnmovedDefines(toks: seq<Tok>, toks': seq<Tok>, st: Statement, ctx: string, i: nat,
                                          defined: map<string, set<string>>)
    requires st.Parsed? && SameUseTexts(toks, toks', st) && i <= |st.uses|
    ensures CollectUses(toks', st, ctx, i, defined) == CollectUses(toks, st, ctx, i, defined)
    decreases |st.uses| - i
  {
    hide IsLocalIn, AddName, Qualified, TextOf;
    if i < |st.uses| {
      var next := if Defines(toks, st, st.uses[i]) then AddName(defined, Qualified(ctx, TextOf(toks, st.uses[i].idx)))
        else defined;
      UnmovedDefines(toks, toks', st, ctx, i + 1, next);
    }
  }

  lemma UnmovedCalls(toks: seq<Tok>, toks': seq<Tok>, st: Statement, ctx: string, b: bool)
    requires st.Parsed? && SameUseTexts(toks, toks', st)
    ensures Calls(toks', st, ctx, b) == Calls(toks, st, ctx, b)
  {
    hide IsLocalIn, Qualified, TextOf, InlineIn, IsBuiltin;
  }

  lemma UnmovedUses(known: Known, toks: seq<Tok>, ss: seq<Stmt>, toks': seq<Tok>, j: nat)
    requires Nestled(known, toks, toks') && ss == StatementsOf(toks) && Ordered(toks, ss) && j < |ss|
    requires IsCodeStatement(toks, ss[j]) && MovesTo(known, toks, ss, j).None?
    requires Parse(toks, ss[j].lo, ss[j].hi).Parsed?
    ensures SameUseTexts(toks, toks', Parse(toks, ss[j].lo, ss[j].hi))
  {
    hide Nestled, StatementsOf, MovesTo, Parse, RelativeDotted;
    var st := Parse(toks, ss[j].lo, ss[j].hi);
    ParseUses(toks, ss[j].lo, ss[j].hi);
    forall i | 0 <= i < |st.uses| ensures TextOf(toks, st.uses[i].idx) == TextOf(toks', st.uses[i].idx) {
      UnmovedText(known, toks, ss, toks', j, st.uses[i].idx);
    }
  }

  lemma UnmovedCollects(known: Known, toks: seq<Tok>, ss: seq<Stmt>, toks': seq<Tok>, j: nat, all: Known)
    requires Nestled(known, toks, toks') && ss == StatementsOf(toks) && Ordered(toks, ss) && j < |ss|
    requires |toks| == |toks'|
    requires IsCodeStatement(toks, ss[j]) && MovesTo(known, toks, ss, j).None?
    requires Valid(Unplaced(toks), LineStart) && LeavesNamed(known, toks, ss)
    ensures CollectStatement(toks', ss[j], all) == CollectStatement(toks, ss[j], all)
  {
    hide StatementsOf, MovesTo, Parse, Valid, LeavesNamed, SameUseTexts, CollectUses, Calls, Qualified, SameParse;
    assert toks[ss[j].lo].kind == toks'[ss[j].lo].kind;
    NestParse(known, toks, ss, toks', j);
    var st := Parse(toks, ss[j].lo, ss[j].hi);
    if st.Parsed? {
      UnmovedUses(known, toks, ss, toks', j);
      UnmovedDefines(toks, toks', st, ss[j].ctx, 0, all.defined);
      UnmovedCalls(toks, toks', st, ss[j].ctx, false);
    }
  }

  /** A block that moves runs at the root before it does. */
  lemma {:induction false} MovedFromRoot(known: Known, toks: seq<Tok>, ss: seq<Stmt>, i: nat, j: nat)
    requires ss == StatementsOf(toks) && Ordered(toks, ss) && i < j < |ss| && OpensRoot(toks[ss[i].lo])
    requires forall a :: i < a < j ==> IsCodeStatement(toks, ss[a])
    ensures ss[j].ctx == "."
    decreases j
  {
    hide StatementsOf, ContextOf;
    StatementContext(toks, j);
    if i + 1 < j {
      MovedFromRoot(known, toks, ss, i, j - 1);
      assert IsCodeStatement(toks, ss[j - 1]);
    }
  }

  lemma MovedAtRoot(known: Known, toks: seq<Tok>, ss: seq<Stmt>, j: nat)
    requires ss == StatementsOf(toks) && Ordered(toks, ss) && j < |ss| && MovesTo(known, toks, ss, j).Some?
    ensures ss[j].ctx == "."
  {
    hide StatementsOf, HomeIn, OpensRoot;
    var i := HeadBefore(toks, ss, j).value;
    HomeOpens(known, toks, ss, i);
    MovedFromRoot(known, toks, ss, i, j);
  }

  /** A project's state collects the same statement by statement, before and after blocks move. */
  lemma {:induction false} StatementCollects(known: Known, toks: seq<Tok>, ss: seq<Stmt>, toks': seq<Tok>, j: nat,
                                             s': Stmt, all: Known)
    requires Nestled(known, toks, toks') && ss == StatementsOf(toks) && Ordered(toks, ss) && j < |ss|
    requires |toks| == |toks'|
    requires Valid(Unplaced(toks), LineStart) && LeavesNamed(known, toks, ss)
    requires MovesTo(known, toks, ss, j).Some? ==> ReadyIn(toks, ss[j])
    requires s' == Stmt(ss[j].lo, ss[j].hi, s'.ctx)
    requires IsCodeStatement(toks, ss[j]) ==>
               s'.ctx == if MovesTo(known, toks, ss, j).Some? then MovesTo(known, toks, ss, j).value else ss[j].ctx
    ensures CollectStatement(toks', s', all) == CollectStatement(toks, ss[j], all)
  {
    assert SameLayout(toks, toks');
    var s := ss[j];
    assert toks[s.lo].kind == toks'[s.lo].kind;
    if IsCodeStatement(toks, s) {
      hide Nestled, StatementsOf, MovesTo, Valid, LeavesNamed, CollectStatement, Kept, Moved, Unmovable;
      hide ReadyIn, SameLayout;
      if MovesTo(known, toks, ss, j).Some? {
        MovedAtRoot(known, toks, ss, j);
        ReadyParams(toks, s);
        StatementIsMoved(known, toks, ss, toks', j);
        ReadyToKept(toks, s);
        MovedCollects(known, toks, s, toks', MovesTo(known, toks, ss, j).value, all);
      } else {
        UnmovedCollects(known, toks, ss, toks', j, all);
      }
    }
  }

  /** Where nothing is stranded, code that does not move has no block open around it. */
  lemma CodeRunsIn(known: Known, toks: seq<Tok>, ss: seq<Stmt>, j: nat)
    requires Ordered(toks, ss) && j < |ss| && Ready(known, toks, ss)
    ensures IsCodeStatement(toks, ss[j]) && MovesTo(known, toks, ss, j).None? ==> LeftIn(known, toks, ss, j).None?
  {
    hide LeavesNamed, ReadyIn, MovesTo, LeftIn;
    assert !Stranded(known, toks, ss, j);
  }

  lemma {:induction false} FileCollects(known: Known, toks: seq<Tok>, ss: seq<Stmt>, toks': seq<Tok>, ss': seq<Stmt>,
                                        i: nat, all: Known)
    requires Nestled(known, toks, toks') && ss == StatementsOf(toks) && ss' == StatementsOf(toks') && |toks| == |toks'|
    requires Ordered(toks, ss) && SameStatements(ss, ss') && Valid(Unplaced(toks), LineStart) && Ready(known, toks, ss)
    requires i <= |ss|
    ensures forall j :: 0 <= j < |ss'| ==> ss'[j].lo < ss'[j].hi <= |toks'|
    ensures CollectFrom(toks', ss', i, all) == CollectFrom(toks, ss, i, all)
    decreases |ss| - i
  {
    hide Nestled, StatementsOf, MovesTo, Valid, LeavesNamed, NoneStranded, CollectStatement, ReadyIn, LeftIn;
    hide HomeIn;
    if i < |ss| {
      NestContexts(known, toks, toks', i);
      CodeRunsIn(known, toks, ss, i);
      StatementCollects(known, toks, ss, toks', i, ss'[i], all);
      FileCollects(known, toks, ss, toks', ss', i + 1, CollectStatement(toks, ss[i], all));
    }
  }

  lemma ReadyLeaves(known: Known, toks: seq<Tok>, ss: seq<Stmt>)
    requires Ordered(toks, ss) && Ready(known, toks, ss)
    ensures LeavesNamed(known, toks, ss)
  {
    hide NoneStranded, LeavesNamed, MovesTo, ReadyIn;
  }

  /** A ready file collects to the same once nested. */
  lemma {:induction false} FileCollectsSame(known: Known, text: string, all: Known)
    requires LexOf(text).Lexed? && Ready(known, LexOf(text).toks, StatementsOf(LexOf(text).toks))
    ensures Collect(NestedText(known, LexOf(text).toks), all) == Collect(text, all)
  {
    hide Nestled, LexOf, StatementsOf, Valid, Ready, NestedText, CollectFrom, LeavesNamed;
    var toks := LexOf(text).toks;
    ReadyLeaves(known, toks, StatementsOf(toks));
    NestledFile(known, text);
    var toks' := LexOf(NestedText(known, toks)).toks;
    FileCollects(known, toks, StatementsOf(toks), toks', StatementsOf(toks'), 0, all);
  }
}
