/** What nesting does to what names denote. */
module NestMeaning {
  import opened Chars
  import opened Lexer
  import opened LexerProofs
  import opened QWords
  import opened Scanner
  import opened Renaming
  import opened Converter
  import opened Layout
  import opened Flatten
  import opened FlattenLexing
  import opened Meaning
  import opened Nesting
  import opened NestLexing
  import opened RunContexts
  import opened NestedFile
  import opened Moving
  import opened MovedStatements
  import opened RoundTrip

  /** The use amends a global by a relative name: the one kind of use a block that moves takes along. */
  predicate AmendsBare(toks: seq<Tok>, st: Statement, use: Use)
    requires st.Parsed?
  {
    var name := TextOf(toks, use.idx);
    Amends(use) && IsRelative(name) && !IsBuiltin(name) && !IsLocalIn(st.lams, use.lam, name)
  }

  predicate NoneAmendsBare(toks: seq<Tok>, st: Statement)
    requires st.Parsed?
  {
    forall i :: 0 <= i < |st.uses| ==> !AmendsBare(toks, st, st.uses[i])
  }

  /** The statement's lambdas take relative parameters, and its qSQL names are columns or root globals. */
  ghost predicate Sound(known: Known, toks: seq<Tok>, s: Stmt, columns: set<nat>)
    requires s.lo < s.hi <= |toks|
  {
    var st := Parse(toks, s.lo, s.hi);
    st.Parsed? ==> ParamsRelative(st.lams) && NamesResolve(known, toks, st, ".", columns)
  }

  lemma MovedUseMeaning(known: Known, toks: seq<Tok>, toks': seq<Tok>, st: Statement, ctx: string, i: nat,
                        columns: set<nat>)
    requires st.Parsed? && UsesMoved(known, toks, toks', st, ctx) && i < |st.uses|
    requires NamesResolve(known, toks, st, ".", columns)
    ensures var u := st.uses[i];
            && u.idx < |toks| && u.idx < |toks'|
            && (SameDenotation(st.lams, u, toks[u.idx].text, ".", toks'[u.idx].text, ctx, columns) <==>
                !AmendsBare(toks, st, u))
  {
    var u := st.uses[i];
    hide UseOk, MovedName, MayBeColumn, SameDenotation, IsBuiltin, IsLocalIn;
    assert UseMoved(known, toks, toks', st, ctx, i);
    assert TextOf(toks, u.idx) == toks[u.idx].text;
    UseMeaningKept(known, st.lams, u, toks[u.idx].text, ctx, columns);
  }

  /** Use by use is statement by statement. */
  lemma {:induction false} UsesMeaning(known: Known, toks: seq<Tok>, toks': seq<Tok>, st: Statement, s: Stmt, s': Stmt,
                                       columns: set<nat>)
    requires s.lo < s.hi <= |toks| == |toks'| && st == Parse(toks, s.lo, s.hi) && st.Parsed? && s.ctx == "."
    requires UsesMoved(known, toks, toks', st, s'.ctx) && NamesResolve(known, toks, st, ".", columns)
    ensures MeaningKept(toks, toks', s, s', columns) <==> NoneAmendsBare(toks, st)
  {
    hide Parse, UsesMoved, NamesResolve, SameDenotation, AmendsBare;
    forall i: nat | i < |st.uses|
      ensures var u := st.uses[i];
              && u.idx < |toks| && u.idx < |toks'|
              && (SameDenotation(st.lams, u, toks[u.idx].text, ".", toks'[u.idx].text, s'.ctx, columns) <==>
                  !AmendsBare(toks, st, u))
    {
      MovedUseMeaning(known, toks, toks', st, s'.ctx, i, columns);
    }
  }

  lemma SoundIs(known: Known, toks: seq<Tok>, s: Stmt, columns: set<nat>)
    requires s.lo < s.hi <= |toks| && Sound(known, toks, s, columns)
    ensures Parse(toks, s.lo, s.hi).Parsed? ==>
              ParamsRelative(Parse(toks, s.lo, s.hi).lams) &&
                NamesResolve(known, toks, Parse(toks, s.lo, s.hi), ".", columns)
  {
    hide Parse, ParamsRelative, NamesResolve;
  }

  /** A moved statement means what it meant at the root, if and only if it amends no global by a relative name. */
  lemma {:induction false} MovedMeaning(known: Known, toks: seq<Tok>, ss: seq<Stmt>, toks': seq<Tok>, j: nat,
                                        columns: set<nat>)
    requires Nestled(known, toks, toks') && ss == StatementsOf(toks) && Ordered(toks, ss) && j < |ss|
    requires |toks| == |toks'|
    requires MovesTo(known, toks, ss, j).Some? && Valid(Unplaced(toks), LineStart) && Sound(known, toks, ss[j], columns)
    ensures var s := ss[j]; var st := Parse(toks, s.lo, s.hi);
            && st.Parsed? && s.ctx == "."
            && (MeaningKept(toks, toks', s, Stmt(s.lo, s.hi, MovesTo(known, toks, ss, j).value), columns) <==>
                NoneAmendsBare(toks, st))
  {
    hide *;
    MovedIsCode(known, toks, ss, j);
    MovedAtRoot(known, toks, ss, j);
    SoundIs(known, toks, ss[j], columns);
    StatementMoved(known, toks, ss, toks', j);
    var s := ss[j];
    UsesMeaning(known, toks, toks', Parse(toks, s.lo, s.hi), s, Stmt(s.lo, s.hi, MovesTo(known, toks, ss, j).value),
                columns);
  }

  /** A statement whose uses have the names they had means what it meant. */
  lemma SameNamesMean(toks: seq<Tok>, toks': seq<Tok>, s: Stmt, columns: set<nat>)
    requires s.lo < s.hi <= |toks| == |toks'|
    requires forall k :: s.lo <= k < s.hi ==> toks'[k].text == toks[k].text
    ensures MeaningKept(toks, toks', s, s, columns)
  {
    hide Parse, Denotes, RelativeDotted;
    if Parse(toks, s.lo, s.hi).Parsed? { ParseUses(toks, s.lo, s.hi); }
  }

  /** The use denotes a global, and says so by a relative name. */
  predicate GlobalByRelative(toks: seq<Tok>, st: Statement, use: Use, ctx: string, columns: set<nat>)
    requires st.Parsed?
  {
    var name := TextOf(toks, use.idx);
    IsRelative(name) && Denotes(st.lams, use, name, ctx, use.idx in columns).GlobalName?
  }

  predicate NoGlobalByRelative(toks: seq<Tok>, st: Statement, ctx: string, columns: set<nat>)
    requires st.Parsed?
  {
    forall i :: 0 <= i < |st.uses| ==> !GlobalByRelative(toks, st, st.uses[i], ctx, columns)
  }

  lemma UseLeftMeaning(lams: seq<Lambda>, use: Use, name: string, home: string, isColumn: bool)
    requires Nested(home)
    ensures Denotes(lams, use, name, ".", isColumn) == Denotes(lams, use, name, home, isColumn)
            <==> !(IsRelative(name) && Denotes(lams, use, name, ".", isColumn).GlobalName?)
  {
    NestedIsNoRoot();
    assert |home + "." + name| > |name|;
    hide IsBuiltin, IsLocalIn, CountOf;
  }

  /** A statement left inside a context it did not move into means what it meant
      at the root, if and only if it denotes no global by a relative name. */
  lemma LeftMeaning(toks: seq<Tok>, toks': seq<Tok>, s: Stmt, home: string, columns: set<nat>)
    requires s.lo < s.hi <= |toks| == |toks'| && s.ctx == "." && Nested(home) && Parse(toks, s.lo, s.hi).Parsed?
    requires forall k :: s.lo <= k < s.hi ==> toks'[k].text == toks[k].text
    ensures MeaningKept(toks, toks', s, Stmt(s.lo, s.hi, home), columns)
            <==> NoGlobalByRelative(toks, Parse(toks, s.lo, s.hi), ".", columns)
  {
    hide Parse, Denotes, RelativeDotted, Nested;
    ParseUses(toks, s.lo, s.hi);
    var st := Parse(toks, s.lo, s.hi);
    forall i: nat | i < |st.uses|
      ensures var u := st.uses[i];
              && u.idx < |toks| && u.idx < |toks'|
              && (SameDenotation(st.lams, u, toks[u.idx].text, ".", toks'[u.idx].text, home, columns) <==>
                  !GlobalByRelative(toks, st, u, ".", columns))
    {
      var u := st.uses[i];
      assert TextOf(toks, u.idx) == toks[u.idx].text;
      UseLeftMeaning(st.lams, u, toks[u.idx].text, home, u.idx in columns);
    }
  }

  /** What nesting keeps of statement `j`. It parses alike, and runs where it did
      exactly when no block that moved is left open there. A moved one means what
      it meant unless it amends bare; one left inside a block it did not move with,
      unless it denotes a global by a relative name; any other does. */
  ghost predicate NestKeeps(known: Known, toks: seq<Tok>, ss: seq<Stmt>, toks': seq<Tok>, s': Stmt, j: nat,
                            columns: set<nat>)
    requires Ordered(toks, ss) && j < |ss| && |toks| == |toks'|
  {
    var s := ss[j];
    var st := Parse(toks, s.lo, s.hi);
    var moved, left := MovesTo(known, toks, ss, j), LeftIn(known, toks, ss, j);
    && SameParse(st, Parse(toks', s.lo, s.hi))
    && (s'.ctx == s.ctx <==> left.None?)
    && (left.Some? ==> s.ctx == "." && s'.ctx == left.value)
    && (moved.Some? ==> left == moved && st.Parsed?)
    && (moved.Some? ==> (MeaningKept(toks, toks', s, s', columns) <==> NoneAmendsBare(toks, st)))
    && (moved.None? && left.Some? && st.Parsed? ==>
          (MeaningKept(toks, toks', s, s', columns) <==> NoGlobalByRelative(toks, st, ".", columns)))
    && (left.None? ==> MeaningKept(toks, toks', s, s', columns))
  }

  lemma UnmovedTexts(known: Known, toks: seq<Tok>, ss: seq<Stmt>, toks': seq<Tok>, j: nat)
    requires Nestled(known, toks, toks') && ss == StatementsOf(toks) && Ordered(toks, ss) && j < |ss|
    requires |toks| == |toks'| && IsCodeStatement(toks, ss[j]) && MovesTo(known, toks, ss, j).None?
    ensures forall k :: ss[j].lo <= k < ss[j].hi ==> toks'[k].text == toks[k].text
  {
    assert ss[j].lo < ss[j].hi <= |toks|;
    hide *;
    forall k | ss[j].lo <= k < ss[j].hi ensures toks'[k].text == toks[k].text {
      UnmovedText(known, toks, ss, toks', j, k);
    }
  }

  /** The statement at `j` of the nested file. */
  ghost predicate StandsAt(known: Known, toks: seq<Tok>, ss: seq<Stmt>, s': Stmt, j: nat)
    requires Ordered(toks, ss) && j < |ss|
  {
    var left := LeftIn(known, toks, ss, j);
    && s' == Stmt(ss[j].lo, ss[j].hi, if left.Some? then left.value else ss[j].ctx)
    && (left.Some? ==> ss[j].ctx == "." && Nested(left.value))
    && (MovesTo(known, toks, ss, j).Some? ==> left == MovesTo(known, toks, ss, j))
  }

  lemma NestedStatement(known: Known, toks: seq<Tok>, ss: seq<Stmt>, toks': seq<Tok>, s': Stmt, j: nat,
                        columns: set<nat>)
    requires Nestled(known, toks, toks') && ss == StatementsOf(toks) && Ordered(toks, ss) && j < |ss|
    requires |toks| == |toks'| && StandsAt(known, toks, ss, s', j)
    requires Valid(Unplaced(toks), LineStart) && LeavesNamed(known, toks, ss) && IsCodeStatement(toks, ss[j])
    requires MovesTo(known, toks, ss, j).Some? ==> Sound(known, toks, ss[j], columns)
    ensures NestKeeps(known, toks, ss, toks', s', j, columns)
  {
    hide StatementsOf, MovesTo, Valid, Nestled, Parse, LeavesNamed, SameParse, MeaningKept, NoneAmendsBare, Sound;
    hide LeftIn, Nested, NoGlobalByRelative;
    NestedIsNoRoot();
    NestParse(known, toks, ss, toks', j);
    if MovesTo(known, toks, ss, j).Some? {
      MovedMeaning(known, toks, ss, toks', j, columns);
    } else {
      UnmovedTexts(known, toks, ss, toks', j);
      if LeftIn(known, toks, ss, j).None? {
        SameNamesMean(toks, toks', ss[j], columns);
      } else if Parse(toks, ss[j].lo, ss[j].hi).Parsed? {
        LeftMeaning(toks, toks', ss[j], LeftIn(known, toks, ss, j).value, columns);
      }
    }
  }

  /** The shortened names are names of their own, and what moves is sound. */
  ghost predicate NestsSoundly(known: Known, toks: seq<Tok>, columns: set<nat>) {
    var ss := StatementsOf(toks);
    && LeavesNamed(known, toks, ss)
    && forall j: nat :: j < |ss| && MovesTo(known, toks, ss, j).Some? ==> Sound(known, toks, ss[j], columns)
  }

  /** The text lexes into the statements of `toks`, each code statement kept as `NestKeeps` says. */
  ghost predicate MeansAlike(known: Known, toks: seq<Tok>, text: string, columns: set<nat>) {
    var ss, lexed := StatementsOf(toks), LexOf(text);
    && lexed.Lexed? && SameLayout(toks, lexed.toks) && SameStatements(ss, StatementsOf(lexed.toks))
    && KeepsAll(known, toks, ss, lexed.toks, StatementsOf(lexed.toks), columns)
  }

  ghost predicate KeepsAll(known: Known, toks: seq<Tok>, ss: seq<Stmt>, toks': seq<Tok>, ss': seq<Stmt>,
                           columns: set<nat>)
    requires Ordered(toks, ss) && |toks| == |toks'| && |ss| == |ss'|
  {
    forall j: nat :: j < |ss| && IsCodeStatement(toks, ss[j]) ==> NestKeeps(known, toks, ss, toks', ss'[j], j, columns)
  }

  lemma Stands(known: Known, toks: seq<Tok>, ss: seq<Stmt>, toks': seq<Tok>, ss': seq<Stmt>, j: nat)
    requires Nestled(known, toks, toks') && ss == StatementsOf(toks) && ss' == StatementsOf(toks') && Ordered(toks, ss)
    requires SameStatements(ss, ss') && Valid(Unplaced(toks), LineStart) && j < |ss|
    ensures StandsAt(known, toks, ss, ss'[j], j)
  {
    hide StatementsOf, Valid, Nestled, MovesTo, LeftIn, SameStatements, Nested;
    NestContexts(known, toks, toks', j);
    RunsInLeft(known, toks, ss, j);
    SameAt(ss, ss', j);
  }

  lemma {:induction false} NestedStatements(known: Known, toks: seq<Tok>, ss: seq<Stmt>, toks': seq<Tok>,
                                            ss': seq<Stmt>, columns: set<nat>)
    requires Nestled(known, toks, toks') && ss == StatementsOf(toks) && ss' == StatementsOf(toks') && Ordered(toks, ss)
    requires |toks| == |toks'| && SameStatements(ss, ss') && Valid(Unplaced(toks), LineStart)
    requires LeavesNamed(known, toks, ss)
    requires forall j: nat :: j < |ss| && MovesTo(known, toks, ss, j).Some? ==> Sound(known, toks, ss[j], columns)
    ensures KeepsAll(known, toks, ss, toks', ss', columns)
  {
    hide StatementsOf, MovesTo, Valid, Nestled, LeavesNamed, Sound, NestKeeps, StandsAt;
    forall j: nat | j < |ss| && IsCodeStatement(toks, ss[j])
      ensures NestKeeps(known, toks, ss, toks', ss'[j], j, columns)
    {
      Stands(known, toks, ss, toks', ss', j);
      NestedStatement(known, toks, ss, toks', ss'[j], j, columns);
    }
  }

  /** The nested text lexes into the file's statements, and each is kept as `NestKeeps` says. */
  lemma {:induction false} NestedTextMeaning(known: Known, text: string, columns: set<nat>)
    requires LexOf(text).Lexed? && NestsSoundly(known, LexOf(text).toks, columns)
    ensures MeansAlike(known, LexOf(text).toks, NestedText(known, LexOf(text).toks), columns)
  {
    hide LexOf, StatementsOf, MovesTo, Valid, NestTokens, LeavesNamed, Sound, KeepsAll, NestedText;
    hide SameLayout, SameStatements;
    var toks := LexOf(text).toks;
    NestledFile(known, text);
    var toks' := LexOf(NestedText(known, toks)).toks;
    NestedStatements(known, toks, StatementsOf(toks), toks', StatementsOf(toks'), columns);
  }

  /** NESTING AND MEANING. When the shortened names are names of their own, an
      accepted 5.0 output lexes again into the same statements. A statement keeps
      its context exactly when no block that moved is left open around it, and then
      its meaning. A moved one keeps its meaning exactly when it amends no global
      by a relative name (which only a qSQL phrase lets through); one a bare closing
      line left inside, exactly when it denotes no global by a relative name. */
  lemma {:induction false} NestingPreservesMeaning(known: Known, allowComputed: bool, text: string, columns: set<nat>)
    requires Convert(known, allowComputed, Target.Nest, text).Written?
    requires NestsSoundly(known, LexOf(text).toks, columns)
    ensures MeansAlike(known, LexOf(text).toks, Convert(known, allowComputed, Target.Nest, text).text, columns)
  {
    hide *;
    AcceptedNests(known, allowComputed, text);
    NestedTextMeaning(known, text, columns);
  }
}
