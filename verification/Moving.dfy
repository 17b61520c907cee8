/** One statement moved into a context: what its names then bind to, define and call. */
module Moving {
  import opened Options
  import opened Chars
  import opened Lexer
  import opened QWords
  import opened Scanner
  import opened Renaming
  import opened Converter
  import opened FlattenLexing
  import opened Meaning
  import opened Nesting

  // ---- what a root statement must be for the round trip

  /** No lambda takes an absolute name as a parameter. */
  predicate ParamsRelative(lams: seq<Lambda>) {
    forall k :: 0 <= k < |lams| ==> forall p :: p in lams[k].params ==> IsRelative(p)
  }

  /** A relative name the use amends is a local, not reserved, and not amended by `::`. */
  predicate AmendsLocal(lams: seq<Lambda>, use: Use, name: string) {
    Amends(use) && IsRelative(name) ==> !IsBuiltin(name) && IsLocalIn(lams, use.lam, name) && use.role != GAssign
  }

  predicate AmendsLocals(toks: seq<Tok>, st: Statement)
    requires st.Parsed?
  {
    forall i :: 0 <= i < |st.uses| ==> AmendsLocal(st.lams, st.uses[i], TextOf(toks, st.uses[i].idx))
  }

  // ---- locals are relative names

  ghost predicate LocalsRelative(lams: seq<Lambda>) {
    forall k :: 0 <= k < |lams| ==> forall n :: n in lams[k].locals ==> IsRelative(n)
  }

  lemma StepLocalsRelative(c: Code, m: Brackets, pos: nat, st: Scan)
    requires Pairs(c, m) && pos < |c| && st.stack != [] && LocalsRelative(st.lams)
    ensures LocalsRelative(WalkStep(c, m, pos, st).0.lams)
  {
    hide RoleOf, LookupLevel, Called, InColumnPhrase, RelativeDotted, IsRelative, HasParams, ParamNames, Pairs;
    hide IsBuiltin;
  }

  lemma {:induction false} WalkLocalsRelative(c: Code, m: Brackets, pos: nat, st: Scan)
    requires Pairs(c, m) && pos <= |c| && st.stack != [] && LocalsRelative(st.lams)
    ensures LocalsRelative(Walk(c, m, pos, st).lams)
    decreases |c| - pos
  {
    if pos < |c| {
      StepLocalsRelative(c, m, pos, st);
      hide WalkStep, Pairs, LocalsRelative;
      var (st', next) := WalkStep(c, m, pos, st);
      WalkLocalsRelative(c, m, next, st');
    }
  }

  lemma ParseLocalsRelative(toks: seq<Tok>, lo: nat, hi: nat)
    requires hi <= |toks| && Parse(toks, lo, hi).Parsed?
    ensures LocalsRelative(Parse(toks, lo, hi).lams)
  {
    var c := Significant(toks, lo, hi);
    WalkLocalsRelative(c, MatchAll(c), 0, START);
    hide Walk, MatchAll, LocalsRelative;
  }

  lemma AbsoluteIsNoLocal(lams: seq<Lambda>, lam: Option<nat>, name: string)
    requires ParamsRelative(lams) && LocalsRelative(lams) && !IsRelative(name)
    ensures !IsLocalIn(lams, lam, name)
  {
    assert forall n :: n in IMPLICIT ==> IsRelative(n);
  }

  // ---- one use

  /** The use's name as the moved statement has it. */
  function MovedName(lams: seq<Lambda>, use: Use, name: string, ctx: string): string {
    var short := ShortOf(lams, use, name, ctx);
    if short.Some? then short.value else name
  }

  /** Inside the context the use still means what it meant at the root. */
  predicate UseMoves(known: Known, lams: seq<Lambda>, use: Use, name: string, ctx: string) {
    IsRelative(name) && !IsBuiltin(name) && use.role != Column && !IsLocalIn(lams, use.lam, name) ==>
      (use.role == Assign && use.lam.Some?) ||
      (use.columnCtx && (name == "i" || (name !in known.DefinedIn(".") && name !in known.DefinedIn(ctx))))
  }

  lemma StaysOrMoves(known: Known, toks: seq<Tok>, st: Statement, use: Use, ctx: string)
    requires st.Parsed? && !UseStays(known, toks, st, use, ctx)
    ensures UseMoves(known, st.lams, use, TextOf(toks, use.idx), ctx)
  {
    hide IsPlainWord, IsLocalIn;
  }

  ghost predicate UseOk(known: Known, lams: seq<Lambda>, use: Use, name: string, ctx: string) {
    && name != "" && Nested(ctx) && ParamsRelative(lams) && LocalsRelative(lams)
    && (MakesLocal(use.role, use.lam) && IsRelative(name) ==> IsLocalIn(lams, use.lam, name))
    && UseMoves(known, lams, use, name, ctx)
  }

  lemma ShortFacts(lams: seq<Lambda>, use: Use, name: string, ctx: string)
    requires ShortOf(lams, use, name, ctx).Some? && ctx != "" && ctx[0] == '.'
    ensures var leaf := ShortOf(lams, use, name, ctx).value;
            && !IsRelative(name) && name == ctx + "." + leaf && IsRelative(leaf) && !IsBuiltin(leaf) &&
              leaf !in QSQL_START
            && !IsLocalIn(lams, use.lam, leaf) && !use.columnCtx && use.role != Column && !MakesLocal(use.role, use.lam)
  {
    ShortIsLeaf(lams, use, name, ctx);
    hide IsPlainWord;
  }

  /** A use that amends anything but a local is refused on the way back, or
      qualified to another name, whatever the inputs define. */
  lemma UseNotRestored(known: Known, lams: seq<Lambda>, use: Use, name: string, ctx: string, mine: set<string>)
    requires UseOk(known, lams, use, name, ctx) && !AmendsLocal(lams, use, name)
    ensures var moved := MovedName(lams, use, name, ctx);
            var b := BindingOf(lams, use, moved, mine);
            b == Refuse || (b == Qualify && ctx + "." + moved != name)
  {
    hide IsPlainWord, CountOf, LocalsRelative, ParamsRelative, UseMoves;
    assert |ctx + "." + name| > |name|;
    if ShortOf(lams, use, name, ctx).Some? {
      ShortFacts(lams, use, name, ctx);
    }
    hide ShortOf, IsLocalIn;
  }

  /** What flattening makes of a moved use is the root's name if and only if the
      use amends no relative name but a plain local; it is then qualified
      exactly when it was shortened. */
  lemma UseRestored(known: Known, lams: seq<Lambda>, use: Use, name: string, ctx: string)
    requires UseOk(known, lams, use, name, ctx)
    ensures var moved := MovedName(lams, use, name, ctx);
            var b := BindingOf(lams, use, moved, known.DefinedIn(ctx));
            && (b != Refuse && name == (if b == Qualify then ctx + "." + moved else moved)
                <==> AmendsLocal(lams, use, name))
            && (AmendsLocal(lams, use, name) ==> (b == Qualify <==> ShortOf(lams, use, name, ctx).Some?))
  {
    if !AmendsLocal(lams, use, name) {
      UseNotRestored(known, lams, use, name, ctx, known.DefinedIn(ctx));
    }
    hide IsPlainWord, CountOf, LocalsRelative, ParamsRelative;
    if ShortOf(lams, use, name, ctx).Some? {
      ShortFacts(lams, use, name, ctx);
    }
    hide ShortOf, IsLocalIn;
  }

  /** Moving a use keeps what it denotes, if and only if it does not amend a relative name that is no local. */
  lemma UseMeaningKept(known: Known, lams: seq<Lambda>, use: Use, name: string, ctx: string, columns: set<nat>)
    requires UseOk(known, lams, use, name, ctx)
    requires MayBeColumn(lams, use, name) ==> use.idx in columns || name in known.DefinedIn(".")
    ensures SameDenotation(lams, use, name, ".", MovedName(lams, use, name, ctx), ctx, columns)
            <==> !(Amends(use) && IsRelative(name) && !IsBuiltin(name) && !IsLocalIn(lams, use.lam, name))
  {
    hide IsPlainWord, ParamsRelative, CountOf, ShortOf, IsLocalIn;
    RootLine();
    assert |ctx + "." + name| > |name|;
    if ShortOf(lams, use, name, ctx).Some? {
      ShortFacts(lams, use, name, ctx);
    }
  }

  predicate UseDefines(lams: seq<Lambda>, use: Use, name: string) {
    ((use.role == Assign && use.lam.None?) || use.role == GAssign) && !IsLocalIn(lams, use.lam, name)
  }

  predicate UseCalls(lams: seq<Lambda>, use: Use, name: string, inlineOnly: bool) {
    && use.role == Ref && use.called && !use.columnCtx && !IsBuiltin(name) && !IsLocalIn(lams, use.lam, name)
    && (inlineOnly ==> InlineIn(lams, use.lam))
  }

  /** Inside the context a moved use defines, and calls, the absolute names it did at the root. */
  lemma UseCollected(known: Known, lams: seq<Lambda>, use: Use, name: string, ctx: string)
    requires UseOk(known, lams, use, name, ctx) && AmendsLocal(lams, use, name)
    ensures var moved := MovedName(lams, use, name, ctx);
            && (UseDefines(lams, use, moved) <==> UseDefines(lams, use, name))
            && (forall b :: UseCalls(lams, use, moved, b) <==> UseCalls(lams, use, name, b))
            && (UseDefines(lams, use, name) || UseCalls(lams, use, name, false) || UseCalls(lams, use, name, true)
                ==> Qualified(ctx, moved) == Qualified(".", name))
  {
    RootLine();
    hide IsPlainWord, CountOf;
    if ShortOf(lams, use, name, ctx).Some? {
      ShortFacts(lams, use, name, ctx);
      AbsoluteIsNoLocal(lams, use.lam, name);
      hide LocalsRelative, ParamsRelative, ShortOf, IsLocalIn;
      if IsBuiltin(name) { BuiltinIsBare(name); }
    }
    hide LocalsRelative, ParamsRelative, ShortOf, IsLocalIn;
  }
}
