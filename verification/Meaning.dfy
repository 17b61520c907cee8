/** What a name denotes, and that flattening changes none of it. */
module Meaning {
  import opened Chars
  import opened Lexer
  import opened LexerProofs
  import opened QWords
  import opened Scanner
  import opened Renaming
  import opened Converter
  import opened Layout
  import opened Flatten
  import opened FlattenLexing

  datatype Denotation =
    | LocalName(name: string)
    | BuiltinName(name: string)
    | ColumnName(name: string)
    | GlobalName(full: string)

  /** In a qSQL phrase the name is a column, if its table has one of that name, else a global. */
  predicate MayBeColumn(lams: seq<Lambda>, use: Use, name: string) {
    && use.role == Ref && use.columnCtx && IsRelative(name) && name != "i"
    && !IsLocalIn(lams, use.lam, name) && !IsBuiltin(name)
  }

  /** What the use of a name in context `ctx` denotes; `isColumn` says whether its table has a column of that name. */
  function Denotes(lams: seq<Lambda>, use: Use, name: string, ctx: string, isColumn: bool): Denotation {
    if use.role == Column then ColumnName(name)
    else if !IsRelative(name) then GlobalName(name)
    else if IsLocalIn(lams, use.lam, name) then LocalName(name)
    else if IsBuiltin(name) then BuiltinName(name)
    else if use.role == Ref && use.columnCtx && (name == "i" || isColumn) then ColumnName(name)
    else GlobalName(Qualified(ctx, name))
  }

  /** Every qSQL name of the statement is a column of its table, or a global the inputs define in `ctx`. */
  predicate NamesResolve(known: Known, toks: seq<Tok>, st: Statement, ctx: string, columns: set<nat>)
    requires st.Parsed?
  {
    forall i :: 0 <= i < |st.uses| && MayBeColumn(st.lams, st.uses[i], TextOf(toks, st.uses[i].idx)) ==>
      st.uses[i].idx in columns || TextOf(toks, st.uses[i].idx) in known.DefinedIn(ctx)
  }

  function FlatContext(ctx: string): string { if Nested(ctx) then "." else ctx }

  // ---- the flattened file's statements and contexts

  ghost predicate Flattened(known: Known, toks: seq<Tok>, toks': seq<Tok>) {
    SameLayout(toks, toks') && FlatTokens(known, toks, StatementsOf(toks), Texts(toks'))
  }

  lemma TokenFlatText(known: Known, toks: seq<Tok>, toks': seq<Tok>, j: nat, k: nat)
    requires Flattened(known, toks, toks') && j < |StatementsOf(toks)|
    requires StatementsOf(toks)[j].lo <= k < StatementsOf(toks)[j].hi
    ensures toks'[k].text == FlatText(known, toks, StatementsOf(toks)[j], k)
  {
    hide StatementsOf, FlatText;
    assert FlatAt(known, toks, StatementsOf(toks), Texts(toks'), k);
    assert toks'[k].text == Texts(toks')[k];
  }

  lemma FlatSystemLine(known: Known, toks: seq<Tok>, toks': seq<Tok>, j: nat)
    requires Flattened(known, toks, toks') && j < |StatementsOf(toks)|
    ensures var t, t' := toks[StatementsOf(toks)[j].lo], toks'[StatementsOf(toks)[j].lo];
            && t.kind == t'.kind
            && (t.kind == Sys ==> t'.text == if SwitchesNested(t) then ROOT_LINE else t.text)
  {
    TokenFlatText(known, toks, toks', j, StatementsOf(toks)[j].lo);
    hide ContextOf, CountOf, Parse, QualifiedFrom, ROOT_LINE, StatementsOf, FlatTokens;
  }

  lemma NextContextFlat(t: Tok, t': Tok, ctx: string)
    requires t.kind == t'.kind && (t.kind == Sys ==> t'.text == if SwitchesNested(t) then ROOT_LINE else t.text)
    ensures NextContext(t', FlatContext(ctx)) == FlatContext(NextContext(t, ctx))
  {
    RootLine();
    hide ContextOf, CountOf, ROOT_LINE;
  }

  lemma FlatNextContext(known: Known, toks: seq<Tok>, toks': seq<Tok>, j: nat)
    requires Flattened(known, toks, toks') && j < |StatementsOf(toks)|
    ensures var s := StatementsOf(toks)[j];
            NextContext(toks'[s.lo], FlatContext(s.ctx)) == FlatContext(NextContext(toks[s.lo], s.ctx))
  {
    FlatSystemLine(known, toks, toks', j);
    var s := StatementsOf(toks)[j];
    hide StatementsOf, FlatTokens, ContextOf, CountOf, ROOT_LINE;
    NextContextFlat(toks[s.lo], toks'[s.lo], s.ctx);
  }

  /** Statement by statement, a nested context becomes the root and any other stays. */
  lemma {:induction false} FlatContexts(known: Known, toks: seq<Tok>, toks': seq<Tok>, j: nat)
    requires Flattened(known, toks, toks') && j < |StatementsOf(toks)|
    ensures SameStatements(StatementsOf(toks), StatementsOf(toks'))
    ensures StatementsOf(toks')[j].ctx == FlatContext(StatementsOf(toks)[j].ctx)
    decreases j
  {
    hide *;
    FlattenedLayout(known, toks, toks');
    LayoutKeepsStatements(toks, toks');
    SameAt(StatementsOf(toks), StatementsOf(toks'), j);
    StatementContext(toks, j);
    StatementContext(toks', j);
    if j > 0 {
      SameAt(StatementsOf(toks), StatementsOf(toks'), j - 1);
      FlatContexts(known, toks, toks', j - 1);
      FlatNextContext(known, toks, toks', j - 1);
    } else {
      RootIsFlat();
    }
  }

  lemma FlattenedLayout(known: Known, toks: seq<Tok>, toks': seq<Tok>)
    requires Flattened(known, toks, toks')
    ensures SameLayout(toks, toks')
  {
    hide StatementsOf, FlatTokens, SameLayout;
  }

  lemma RootIsFlat()
    ensures FlatContext(".") == "."
  {
  }

  // ---- its parses

  lemma {:induction false} SignificantSame(toks: seq<Tok>, toks': seq<Tok>, lo: nat, hi: nat)
    requires SameLayout(toks, toks') && hi <= |toks|
    ensures var c, d := Significant(toks, lo, hi), Significant(toks', lo, hi);
            && |c| == |d|
            && forall i :: 0 <= i < |c| ==> c[i].idx == d[i].idx && c[i].kind == d[i].kind
                                            && c[i].text == toks[c[i].idx].text && d[i].text == toks'[c[i].idx].text
    decreases hi - lo
  {
    if lo < hi { SignificantSame(toks, toks', lo + 1, hi); }
  }

  /** A statement's changed tokens are names it qualifies itself. */
  lemma FlatChangedToken(known: Known, toks: seq<Tok>, toks': seq<Tok>, j: nat, k: nat)
    requires Flattened(known, toks, toks') && j < |StatementsOf(toks)|
    requires var s := StatementsOf(toks)[j]; IsCodeStatement(toks, s) && s.lo <= k < s.hi
    ensures var s := StatementsOf(toks)[j];
            toks'[k].text != toks[k].text ==>
                QualifiedIn(known, toks, s, k) && toks'[k].text == s.ctx + "." + toks[k].text
  {
    var ss := StatementsOf(toks);
    hide ContextOf, CountOf, Parse, QualifiedFrom, ROOT_LINE, StatementsOf;
    assert FlatAt(known, toks, ss, Texts(toks'), k);
    assert toks'[k].text == Texts(toks')[k] == FlatText(known, toks, ss[j], k);
  }

  lemma QualifiedIsFree(ctx: string, name: string)
    requires ctx != "" && ctx[0] == '.'
    ensures Free(ctx + "." + name)
  {
    var full := ctx + "." + name;
    assert full[0] == '.';
    hide IsPlainWord;
    if IsBuiltin(full) { BuiltinIsBare(full); }
  }

  /** Some use at token `i` of the code, making no local. */
  ghost predicate UsedPlainly(uses: seq<Use>, i: nat) {
    exists u :: 0 <= u < |uses| && uses[u].pos == i && !MakesLocal(uses[u].role, uses[u].lam)
  }

  lemma FlatToken1(known: Known, toks: seq<Tok>, toks': seq<Tok>, j: nat, i: nat)
    requires Flattened(known, toks, toks') && j < |StatementsOf(toks)|
    requires IsCodeStatement(toks, StatementsOf(toks)[j])
    requires Valid(Unplaced(toks), LineStart)
    requires var s := StatementsOf(toks)[j]; i < |Significant(toks, s.lo, s.hi)|
    ensures var s := StatementsOf(toks)[j];
            var c, d := Significant(toks, s.lo, s.hi), Significant(toks', s.lo, s.hi);
            && |c| == |d| && SameSig(c[i], d[i])
            && (c[i].text != d[i].text ==>
                  Nested(s.ctx) && Parse(toks, s.lo, s.hi).Parsed? && UsedPlainly(Parse(toks, s.lo, s.hi).uses, i))
  {
    var s := StatementsOf(toks)[j];
    var c, d := Significant(toks, s.lo, s.hi), Significant(toks', s.lo, s.hi);
    FlattenedLayout(known, toks, toks');
    SignificantSame(toks, toks', s.lo, s.hi);
    FlatChangedToken(known, toks, toks', j, c[i].idx);
    hide StatementsOf, Flattened, Parse, Valid, Free, Significant, CountOf, MakesLocal, QualifiedFrom;
    if c[i].text != d[i].text {
      FlatFree(known, toks, s, c[i].idx);
      var u := QualifiedUse(known, toks, s, i);
    }
  }

  lemma RenamedFrom(c: Code, d: Code, uses: seq<Use>)
    requires |c| == |d| && forall i :: 0 <= i < |c| ==> SameSig(c[i], d[i])
    ensures Renamed(c, d)
    ensures (forall i: nat :: i < |c| && c[i].text != d[i].text ==> UsedPlainly(uses, i)) ==> Allowed(c, d, 0, uses, 0)
  {
    hide SameSig;
  }

  lemma AllSame(c: Code, d: Code)
    requires |c| == |d| && forall i :: 0 <= i < |c| ==> SameSig(c[i], d[i]) && c[i].text == d[i].text
    ensures c == d
  {
    hide Free;
    forall i | 0 <= i < |c| ensures c[i] == d[i] { assert SameSig(c[i], d[i]); }
  }

  lemma {:induction false} FlatRenamed(known: Known, toks: seq<Tok>, toks': seq<Tok>, j: nat)
    requires Flattened(known, toks, toks') && j < |StatementsOf(toks)|
    requires IsCodeStatement(toks, StatementsOf(toks)[j])
    requires Valid(Unplaced(toks), LineStart)
    ensures var s := StatementsOf(toks)[j];
            var c, d := Significant(toks, s.lo, s.hi), Significant(toks', s.lo, s.hi);
            && Renamed(c, d) && |c| == |d|
            && (Parse(toks, s.lo, s.hi).Parsed? ==> Allowed(c, d, 0, Parse(toks, s.lo, s.hi).uses, 0))
            && (!(Nested(s.ctx) && Parse(toks, s.lo, s.hi).Parsed?) ==> c == d)
  {
    hide *;
    var s := StatementsOf(toks)[j];
    FlattenedLayout(known, toks, toks');
    LayoutLength(toks, toks');
    SignificantSame(toks, toks', s.lo, s.hi);
    var st := Parse(toks, s.lo, s.hi);
    var c, d := Significant(toks, s.lo, s.hi), Significant(toks', s.lo, s.hi);
    forall i: nat | i < |c|
      ensures SameSig(c[i], d[i])
      ensures c[i].text != d[i].text ==> Nested(s.ctx) && st.Parsed? && UsedPlainly(st.uses, i)
    {
      FlatToken1(known, toks, toks', j, i);
    }
    RenamedFrom(c, d, if st.Parsed? then st.uses else []);
    if !(Nested(s.ctx) && st.Parsed?) { AllSame(c, d); }
  }

  lemma LayoutLength(toks: seq<Tok>, toks': seq<Tok>)
    requires SameLayout(toks, toks')
    ensures |toks| == |toks'|
  {
  }

  lemma FlatFree(known: Known, toks: seq<Tok>, s: Stmt, k: nat)
    requires s.lo < s.hi <= |toks| && QualifiedIn(known, toks, s, k) && Valid(Unplaced(toks), LineStart)
    ensures toks[k].kind == Name && Free(toks[k].text) && Free(s.ctx + "." + toks[k].text)
  {
    QualifiedName(known, toks, s, k);
    QualifiedIsFree(s.ctx, toks[k].text);
    hide QualifiedIn, Valid, IsBuiltin, RelativeDotted;
    assert Unplaced(toks)[k] == Piece(toks[k].kind, toks[k].text);
    NamePiece(Unplaced(toks), k);
    NameStarts(toks[k].text);
  }

  lemma QualifiedUse(known: Known, toks: seq<Tok>, s: Stmt, i: nat) returns (u: nat)
    requires s.lo < s.hi <= |toks| && i < |Significant(toks, s.lo, s.hi)|
    requires QualifiedIn(known, toks, s, Significant(toks, s.lo, s.hi)[i].idx)
    ensures var st := Parse(toks, s.lo, s.hi);
            && st.Parsed? && u < |st.uses| && st.uses[u].pos == i && !MakesLocal(st.uses[u].role, st.uses[u].lam)
  {
    var st := Parse(toks, s.lo, s.hi);
    var c := Significant(toks, s.lo, s.hi);
    var k, mine := c[i].idx, known.DefinedIn(s.ctx);
    assert st.Parsed? && QualifiedFrom(toks, st, 0, mine, k);
    hide Parse, CountOf, IsBuiltin, RelativeDotted, BindingOf, IsLocalIn, MakesLocal, QualifiedIn, Significant;
    ParseUses(toks, s.lo, s.hi);
    u :| 0 <= u < |st.uses| && st.uses[u].idx == k && BindingOf(st.lams, st.uses[u], TextOf(toks, k), mine) == Qualify;
    assert c[st.uses[u].pos].idx == k;
    QualifiedPlain(st.lams, st.uses[u], TextOf(toks, k), mine);
  }

  lemma QualifiedPlain(lams: seq<Lambda>, use: Use, name: string, mine: set<string>)
    requires BindingOf(lams, use, name, mine) == Qualify
    ensures !MakesLocal(use.role, use.lam)
  {
    hide IsBuiltin, IsLocalIn;
  }

  /** Each statement parses to the same uses, lookups and lambdas after flattening. */
  lemma {:induction false} FlatParse(known: Known, toks: seq<Tok>, toks': seq<Tok>, j: nat)
    requires Flattened(known, toks, toks') && j < |StatementsOf(toks)|
    requires IsCodeStatement(toks, StatementsOf(toks)[j])
    requires Valid(Unplaced(toks), LineStart)
    ensures var s := StatementsOf(toks)[j];
            SameParse(Parse(toks, s.lo, s.hi), Parse(toks', s.lo, s.hi))
  {
    var s := StatementsOf(toks)[j];
    FlatRenamed(known, toks, toks', j);
    var c, d := Significant(toks, s.lo, s.hi), Significant(toks', s.lo, s.hi);
    hide StatementsOf, Flattened, Valid, Renamed, Allowed, ParseCode, Significant;
    if Parse(toks, s.lo, s.hi).Parsed? {
      ParseSame(c, d);
    }
  }

  // ---- what each use denotes

  /** Before and after, the use denotes the same, its qSQL names resolving as `columns` says. */
  ghost predicate SameDenotation(lams: seq<Lambda>, use: Use, name: string, ctx: string, name': string, ctx': string,
                                 columns: set<nat>) {
    Denotes(lams, use, name, ctx, use.idx in columns) == Denotes(lams, use, name', ctx', use.idx in columns)
  }

  lemma QualifiedMeaning(lams: seq<Lambda>, use: Use, name: string, ctx: string, mine: set<string>, columns: set<nat>)
    requires Nested(ctx) && BindingOf(lams, use, name, mine) == Qualify
    ensures SameDenotation(lams, use, name, ctx, ctx + "." + name, ".", columns)
  {
    hide CountOf, IsPlainWord;
    assert (ctx + "." + name)[0] == '.';
    assert !Nested(".") by { RootLine(); }
  }

  lemma NestedIsNotRoot(ctx: string)
    requires Nested(ctx)
    ensures ctx != "" && ctx != "." && ctx[0] == '.'
  {
    assert CountOf(".", '.') == 1;
  }

  /** A global that is kept is a local's assignment or a qSQL name. */
  lemma KeptCases(lams: seq<Lambda>, use: Use, name: string, mine: set<string>)
    requires BindingOf(lams, use, name, mine) == Keep
    ensures IsRelative(name) && use.role != Column && !IsLocalIn(lams, use.lam, name) && !IsBuiltin(name) ==>
              MakesLocal(use.role, use.lam) || (use.role == Ref && use.columnCtx && (name == "i" || name !in mine))
  {
    hide IsPlainWord, IsLocalIn;
  }

  /** A name kept as it is denotes the same at the root, unless it is a qSQL
      name that is neither `i` nor a column: that one moves with its context. */
  lemma KeptMeaning(lams: seq<Lambda>, use: Use, name: string, ctx: string, mine: set<string>, columns: set<nat>)
    requires Nested(ctx) && BindingOf(lams, use, name, mine) == Keep
    requires MakesLocal(use.role, use.lam) && IsRelative(name) ==> IsLocalIn(lams, use.lam, name)
    ensures SameDenotation(lams, use, name, ctx, name, ".", columns)
            <==> (MayBeColumn(lams, use, name) ==> use.idx in columns)
    ensures MayBeColumn(lams, use, name) ==> name !in mine
  {
    KeptCases(lams, use, name, mine);
    NestedIsNotRoot(ctx);
    hide Nested, IsBuiltin, IsLocalIn, BindingOf;
    if MayBeColumn(lams, use, name) {
      assert |ctx + "." + name| > |name|;
    }
  }

  /** In a nested statement that flattens, every use denotes what it did, if and
      only if each qSQL name it leaves bare is a column of its table. */
  lemma {:induction false} FlatUseMeaning(known: Known, toks: seq<Tok>, toks': seq<Tok>, j: nat, i: nat,
                                          columns: set<nat>)
    requires Flattened(known, toks, toks') && j < |StatementsOf(toks)|
    requires IsCodeStatement(toks, StatementsOf(toks)[j]) && Nested(StatementsOf(toks)[j].ctx)
    requires var s := StatementsOf(toks)[j]; var st := Parse(toks, s.lo, s.hi);
             st.Parsed? && i < |st.uses| && !RefusedFrom(toks, st, 0, known.DefinedIn(s.ctx))
    ensures var s := StatementsOf(toks)[j]; var st := Parse(toks, s.lo, s.hi); var u := st.uses[i];
            && u.idx < |toks|
            && (SameDenotation(st.lams, u, toks[u.idx].text, s.ctx, toks'[u.idx].text, ".", columns)
                <==> (MayBeColumn(st.lams, u, toks[u.idx].text) ==> u.idx in columns))
            && (MayBeColumn(st.lams, u, toks[u.idx].text) ==> toks[u.idx].text !in known.DefinedIn(s.ctx))
  {
    hide StatementsOf, Parse, CountOf, IsPlainWord, IsLocalIn, Denotes, BindingOf, MayBeColumn, Flattened;
    hide SameDenotation;
    var s := StatementsOf(toks)[j];
    var st := Parse(toks, s.lo, s.hi);
    var u := st.uses[i];
    ParseUses(toks, s.lo, s.hi);
    ParseLocals(toks, s.lo, s.hi);
    FlatChangedToken(known, toks, toks', j, u.idx);
    var name := toks[u.idx].text;
    var mine := known.DefinedIn(s.ctx);
    var b := BindingOf(st.lams, u, name, mine);
    assert TextOf(toks, u.idx) == name;
    assert b != Refuse;
    if b == Qualify {
      assert QualifiedIn(known, toks, s, u.idx);
      UseQualifies(known, toks, toks', j, u.idx);
      QualifiedMeaning(st.lams, u, name, s.ctx, mine, columns);
      QualifiedNoColumn(st.lams, u, name, mine);
    } else {
      forall v | 0 <= v < |st.uses| && st.uses[v].idx == u.idx
        ensures BindingOf(st.lams, st.uses[v], TextOf(toks, u.idx), mine) != Qualify
      {
        assert v == i;
      }
      assert !QualifiedFrom(toks, st, 0, mine, u.idx);
      KeptMeaning(st.lams, u, name, s.ctx, mine, columns);
    }
  }

  lemma UseQualifies(known: Known, toks: seq<Tok>, toks': seq<Tok>, j: nat, k: nat)
    requires Flattened(known, toks, toks') && j < |StatementsOf(toks)| && k < |toks|
    requires QualifiedIn(known, toks, StatementsOf(toks)[j], k)
    ensures toks'[k].text == StatementsOf(toks)[j].ctx + "." + toks[k].text
  {
    assert Texts(toks')[k] == toks'[k].text;
    hide QualifiedIn, StatementsOf;
  }

  lemma QualifiedNoColumn(lams: seq<Lambda>, use: Use, name: string, mine: set<string>)
    requires BindingOf(lams, use, name, mine) == Qualify
    ensures !MayBeColumn(lams, use, name)
  {
    hide IsPlainWord, IsLocalIn;
  }

  /** Every use of the statement denotes after flattening what it denoted before. */
  ghost predicate MeaningKept(toks: seq<Tok>, toks': seq<Tok>, s: Stmt, s': Stmt, columns: set<nat>)
    requires s.lo < s.hi <= |toks| == |toks'|
  {
    var st := Parse(toks, s.lo, s.hi);
    st.Parsed? ==>
      forall i :: 0 <= i < |st.uses| ==>
        st.uses[i].idx < |toks| &&
        SameDenotation(st.lams, st.uses[i], toks[st.uses[i].idx].text, s.ctx, toks'[st.uses[i].idx].text, s'.ctx,
                       columns)
  }

  lemma {:induction false} NestedMeaning(known: Known, toks: seq<Tok>, toks': seq<Tok>, j: nat, columns: set<nat>)
    requires Flattened(known, toks, toks') && j < |StatementsOf(toks)|
    requires IsCodeStatement(toks, StatementsOf(toks)[j]) && Nested(StatementsOf(toks)[j].ctx)
    requires var s := StatementsOf(toks)[j]; var st := Parse(toks, s.lo, s.hi);
             && st.Parsed? && !RefusedFrom(toks, st, 0, known.DefinedIn(s.ctx))
             && NamesResolve(known, toks, st, s.ctx, columns)
    ensures var s := StatementsOf(toks)[j]; MeaningKept(toks, toks', s, Stmt(s.lo, s.hi, "."), columns)
  {
    var s := StatementsOf(toks)[j];
    var st := Parse(toks, s.lo, s.hi);
    ParseUses(toks, s.lo, s.hi);
    assert |toks'| == |toks|;
    hide StatementsOf, Parse, CountOf, Flattened, SameDenotation, MayBeColumn, RefusedFrom;
    forall i | 0 <= i < |st.uses|
      ensures st.uses[i].idx < |toks| &&
        SameDenotation(st.lams, st.uses[i], toks[st.uses[i].idx].text, s.ctx, toks'[st.uses[i].idx].text, ".", columns)
    {
      FlatUseMeaning(known, toks, toks', j, i, columns);
    }
  }

  lemma {:induction false} UnnestedMeaning(known: Known, toks: seq<Tok>, toks': seq<Tok>, j: nat, columns: set<nat>)
    requires Flattened(known, toks, toks') && j < |StatementsOf(toks)|
    requires IsCodeStatement(toks, StatementsOf(toks)[j]) && !Nested(StatementsOf(toks)[j].ctx)
    ensures var s := StatementsOf(toks)[j]; MeaningKept(toks, toks', s, s, columns)
  {
    var s := StatementsOf(toks)[j];
    var st := Parse(toks, s.lo, s.hi);
    assert |toks'| == |toks|;
    if st.Parsed? {
      ParseUses(toks, s.lo, s.hi);
      hide StatementsOf, Parse, CountOf, Flattened, Denotes, QualifiedFrom;
      forall i | 0 <= i < |st.uses| ensures toks'[st.uses[i].idx].text == toks[st.uses[i].idx].text {
        FlatChangedToken(known, toks, toks', j, st.uses[i].idx);
      }
    }
  }

  lemma {:induction false} FlatStatementMeaning(known: Known, allowComputed: bool, toks: seq<Tok>, toks': seq<Tok>,
                                                j: nat, columns: set<nat>)
    requires Flattened(known, toks, toks') && j < |StatementsOf(toks)|
    requires IsCodeStatement(toks, StatementsOf(toks)[j])
    requires !FlatRefused(known, allowComputed, toks, StatementsOf(toks)[j])
    requires var s := StatementsOf(toks)[j]; var st := Parse(toks, s.lo, s.hi);
             Nested(s.ctx) && st.Parsed? ==> NamesResolve(known, toks, st, s.ctx, columns)
    ensures SameStatements(StatementsOf(toks), StatementsOf(toks'))
    ensures MeaningKept(toks, toks', StatementsOf(toks)[j], StatementsOf(toks')[j], columns)
  {
    var s := StatementsOf(toks)[j];
    FlatContexts(known, toks, toks', j);
    assert StatementsOf(toks')[j] == Stmt(s.lo, s.hi, FlatContext(s.ctx));
    hide StatementsOf, Parse, CountOf, Flattened, NamesResolve, HidesSwitches, LoadTimeHazard, RefusedFrom, MeaningKept;
    if Nested(s.ctx) {
      NestedMeaning(known, toks, toks', j, columns);
    } else {
      UnnestedMeaning(known, toks, toks', j, columns);
    }
  }

  lemma FlattenedOf(known: Known, allowComputed: bool, text: string)
    requires LexOf(text).Lexed? && ContextsNamed(known, LexOf(text).toks, StatementsOf(LexOf(text).toks))
    ensures var toks := LexOf(text).toks; var out := ConvertToks(known, allowComputed, Flat, toks).out;
            && LexOf(Join(out)).Lexed? && Flattened(known, toks, LexOf(Join(out)).toks)
            && Texts(LexOf(Join(out)).toks) == out
            && Valid(Unplaced(toks), LineStart)
  {
    hide Valid, LexOf, ConvertToks, StatementsOf;
    var toks := LexOf(text).toks;
    var out := ConvertToks(known, allowComputed, Flat, toks).out;
    LexIsLossless(text);
    FlatOutputTokens(known, allowComputed, toks);
    FlatRewrites(known, toks, StatementsOf(toks), out);
    FlatBoundaries(known, toks, StatementsOf(toks), out);
    RelexKeepsLayout(text, out);
  }

  /** FLATTENING PRESERVES MEANING. An accepted 4.0 output lexes again into the
      same statements, each at the root or in the context it had; every
      statement parses to the same uses, run-time lookups and lambdas; and each
      name denotes the same local, builtin, column or absolute global. */
  lemma {:induction false} FlatteningPreservesMeaning(known: Known, allowComputed: bool, text: string,
                                                      columns: set<nat>)
    requires Convert(known, allowComputed, Flat, text).Written?
    requires ContextsNamed(known, LexOf(text).toks, StatementsOf(LexOf(text).toks))
    requires var toks := LexOf(text).toks;
             forall j :: 0 <= j < |StatementsOf(toks)| && IsCodeStatement(toks, StatementsOf(toks)[j]) ==>
               var s := StatementsOf(toks)[j]; var st := Parse(toks, s.lo, s.hi);
               Nested(s.ctx) && st.Parsed? ==> NamesResolve(known, toks, st, s.ctx, columns)
    ensures var toks := LexOf(text).toks; var lexed := LexOf(Convert(known, allowComputed, Flat, text).text);
            lexed.Lexed? && SameLayout(toks, lexed.toks) &&
            SameStatements(StatementsOf(toks), StatementsOf(lexed.toks)) &&
            forall j :: 0 <= j < |StatementsOf(toks)| ==>
              var s := StatementsOf(toks)[j];
              && StatementsOf(lexed.toks)[j].ctx == FlatContext(s.ctx)
              && (IsCodeStatement(toks, s) ==>
                    && SameParse(Parse(toks, s.lo, s.hi), Parse(lexed.toks, s.lo, s.hi))
                    && MeaningKept(toks, lexed.toks, s, StatementsOf(lexed.toks)[j], columns))
  {
    hide LexOf, ConvertToks, StatementsOf, Parse, NamesResolve, Valid, FlatRefused, MeaningKept, SameParse, FlatContext;
    hide CountOf;
    var toks := LexOf(text).toks;
    FlattenedOf(known, allowComputed, text);
    FlatOutput(known, allowComputed, toks);
    var toks' := LexOf(Join(ConvertToks(known, allowComputed, Flat, toks).out)).toks;
    LayoutKeepsStatements(toks, toks');
    forall j | 0 <= j < |StatementsOf(toks)|
      ensures StatementsOf(toks')[j].ctx == FlatContext(StatementsOf(toks)[j].ctx)
      ensures IsCodeStatement(toks, StatementsOf(toks)[j]) ==>
                && SameParse(Parse(toks, StatementsOf(toks)[j].lo, StatementsOf(toks)[j].hi),
                             Parse(toks', StatementsOf(toks)[j].lo, StatementsOf(toks)[j].hi))
                && MeaningKept(toks, toks', StatementsOf(toks)[j], StatementsOf(toks')[j], columns)
    {
      FlatContexts(known, toks, toks', j);
      if IsCodeStatement(toks, StatementsOf(toks)[j]) {
        FlatParse(known, toks, toks', j);
        FlatStatementMeaning(known, allowComputed, toks, toks', j, columns);
      }
    }
  }
}
