/** The statements of the 5.0 output: moved ones parse as they did, and each name is bound anew. */
module MovedStatements {
  import opened Options
  import opened Chars
  import opened Lexer
  import opened LexerProofs
  import opened QWords
  import opened Scanner
  import opened Renaming
  import opened Converter
  import opened Flatten
  import opened FlattenLexing
  import opened Meaning
  import opened Nesting
  import opened NestLexing
  import opened Moving

  /** What makes statement `s` movable into `ctx`. */
  ghost predicate MovableStatement(known: Known, toks: seq<Tok>, s: Stmt, ctx: string)
    requires s.lo < s.hi <= |toks|
  {
    && Nested(ctx) && Parse(toks, s.lo, s.hi).Parsed?
    && !Unmovable(known, toks, Parse(toks, s.lo, s.hi), ctx) && !AmendsRoot(toks, Parse(toks, s.lo, s.hi))
  }

  /** A statement that moves is in the block its head opens. */
  lemma InItsBlock(known: Known, toks: seq<Tok>, ss: seq<Stmt>, j: nat) returns (i: nat)
    requires Ordered(toks, ss) && j < |ss| && MovesTo(known, toks, ss, j).Some?
    ensures i < j < BlockStop(toks, ss, i + 1) && HomeIn(known, toks, ss, i) == MovesTo(known, toks, ss, j)
  {
    hide HomeIn;
    i := HeadBefore(toks, ss, j).value;
    StopPast(toks, ss, i, j);
  }

  lemma MemberMovable(known: Known, toks: seq<Tok>, block: seq<Stmt>, b: nat)
    requires Ordered(toks, block) && b < |block| && HomeOf(known, toks, block).Some?
    ensures Parse(toks, block[b].lo, block[b].hi).Parsed?
    ensures !Unmovable(known, toks, Parse(toks, block[b].lo, block[b].hi), HomeOf(known, toks, block).value)
    ensures !AmendsRoot(toks, Parse(toks, block[b].lo, block[b].hi))
  {
    hide HomeOf, AmendsRoot, Unmovable, Parse;
    HomeParses(known, toks, block);
    ParsedIn(toks, block, b);
  }

  lemma MovesIsMovable(known: Known, toks: seq<Tok>, ss: seq<Stmt>, j: nat)
    requires Ordered(toks, ss) && j < |ss| && MovesTo(known, toks, ss, j).Some? && Valid(Unplaced(toks), LineStart)
    ensures MovableStatement(known, toks, ss[j], MovesTo(known, toks, ss, j).value)
  {
    hide MovesTo, HomeIn, HomeOf, AmendsRoot, Unmovable, Parse, CountOf, NameShaped, Valid, SwitchShaped, ContextOf;
    hide BlockStop;
    var i := InItsBlock(known, toks, ss, j);
    var block := HomeInIs(known, toks, ss, i);
    HomeIsName(known, toks, ss, i);
    assert block[j - i - 1] == ss[j];
    MemberMovable(known, toks, block, j - i - 1);
  }

  lemma ParsedIn(toks: seq<Tok>, block: seq<Stmt>, b: nat)
    requires Ordered(toks, block) && AllParse(toks, block) && b < |block|
    ensures Parse(toks, block[b].lo, block[b].hi).Parsed?
  {
    hide Parse;
  }

  lemma {:induction false} StopPast(toks: seq<Tok>, ss: seq<Stmt>, i: nat, j: nat)
    requires Ordered(toks, ss) && i < j < |ss| && forall a :: i < a <= j ==> IsCodeStatement(toks, ss[a])
    ensures j < BlockStop(toks, ss, i + 1)
  {
    var k := BlockStop(toks, ss, i + 1);
    assert k < |ss| ==> !IsCodeStatement(toks, ss[k]);
  }

  // ---- the texts of a moved statement's uses

  /** The uses of a moved statement, each with its name at the root and its name in the context. */
  ghost predicate UsesMoved(known: Known, toks: seq<Tok>, toks': seq<Tok>, st: Statement, ctx: string)
    requires st.Parsed?
  {
    forall i :: 0 <= i < |st.uses| ==> UseMoved(known, toks, toks', st, ctx, i)
  }

  ghost predicate UseMoved(known: Known, toks: seq<Tok>, toks': seq<Tok>, st: Statement, ctx: string, i: nat)
    requires st.Parsed? && i < |st.uses|
  {
    var u := st.uses[i];
    && u.idx < |toks| && u.idx < |toks'|
    && toks'[u.idx].text == MovedName(st.lams, u, toks[u.idx].text, ctx)
    && UseOk(known, st.lams, u, toks[u.idx].text, ctx)
  }

  lemma MovedTokenText(known: Known, toks: seq<Tok>, ss: seq<Stmt>, toks': seq<Tok>, j: nat, k: nat)
    requires Nestled(known, toks, toks') && ss == StatementsOf(toks) && Ordered(toks, ss) && j < |ss|
    requires ss[j].lo <= k < ss[j].hi
    ensures k < |toks'| && toks'[k].text == NestText(known, toks, ss, j, k)
  {
    hide StatementsOf, NestText;
    assert toks'[k].text == Texts(toks')[k];
  }

  lemma UseText(toks: seq<Tok>, s: Stmt, ctx: string, i: nat)
    requires s.lo < s.hi <= |toks| && Parse(toks, s.lo, s.hi).Parsed? && i < |Parse(toks, s.lo, s.hi).uses|
    ensures var st := Parse(toks, s.lo, s.hi); var u := st.uses[i];
            s.lo <= u.idx < s.hi && MovedText(toks, s, ctx, u.idx) == MovedName(st.lams, u, toks[u.idx].text, ctx)
  {
    hide Parse, ShortOf;
    var st := Parse(toks, s.lo, s.hi);
    var u := st.uses[i];
    ParseUses(toks, s.lo, s.hi);
    ParseLocals(toks, s.lo, s.hi);
    var name := toks[u.idx].text;
    assert TextOf(toks, u.idx) == name;
    if ShortOf(st.lams, u, name, ctx).Some? {
      ShortIsLeaf(st.lams, u, name, ctx);
      assert ShortenedFrom(toks, st, 0, ctx, u.idx);
    } else {
      forall v | 0 <= v < |st.uses| && st.uses[v].idx == u.idx
        ensures ShortOf(st.lams, st.uses[v], TextOf(toks, u.idx), ctx).None?
      {
        assert v == i;
      }
      assert !ShortenedFrom(toks, st, 0, ctx, u.idx);
    }
  }

  lemma UseIsOk(known: Known, toks: seq<Tok>, s: Stmt, ctx: string, i: nat)
    requires s.lo < s.hi <= |toks| && MovableStatement(known, toks, s, ctx) && Valid(Unplaced(toks), LineStart)
    requires i < |Parse(toks, s.lo, s.hi).uses| && ParamsRelative(Parse(toks, s.lo, s.hi).lams)
    ensures var st := Parse(toks, s.lo, s.hi); var u := st.uses[i];
            u.idx < |toks| && UseOk(known, st.lams, u, toks[u.idx].text, ctx)
  {
    var st := Parse(toks, s.lo, s.hi);
    var u := st.uses[i];
    ParseUses(toks, s.lo, s.hi);
    ParseLocals(toks, s.lo, s.hi);
    ParseLocalsRelative(toks, s.lo, s.hi);
    hide Parse, UseStays, UseMoves, Valid, ParamsRelative, LocalsRelative, MakesLocal, IsLocalIn, AmendsRoot;
    assert !UseStays(known, toks, st, u, ctx);
    StaysOrMoves(known, toks, st, u, ctx);
    assert Unplaced(toks)[u.idx] == Piece(toks[u.idx].kind, toks[u.idx].text);
    NamePiece(Unplaced(toks), u.idx);
    NameStarts(toks[u.idx].text);
  }

  lemma {:induction false} StatementMoved(known: Known, toks: seq<Tok>, ss: seq<Stmt>, toks': seq<Tok>, j: nat)
    requires Nestled(known, toks, toks') && ss == StatementsOf(toks) && Ordered(toks, ss) && j < |ss|
    requires MovesTo(known, toks, ss, j).Some? && Valid(Unplaced(toks), LineStart)
    requires Parse(toks, ss[j].lo, ss[j].hi).Parsed? ==> ParamsRelative(Parse(toks, ss[j].lo, ss[j].hi).lams)
    ensures Parse(toks, ss[j].lo, ss[j].hi).Parsed?
    ensures UsesMoved(known, toks, toks', Parse(toks, ss[j].lo, ss[j].hi), MovesTo(known, toks, ss, j).value)
  {
    hide StatementsOf, MovesTo, Valid, Nestled, Unmovable, AmendsRoot, Parse, UseOk, MovedName, MovedText;
    hide ParamsRelative, NestText;
    var s := ss[j];
    var ctx := MovesTo(known, toks, ss, j).value;
    MovesIsMovable(known, toks, ss, j);
    var st := Parse(toks, s.lo, s.hi);
    forall i: nat | i < |st.uses| ensures UseMoved(known, toks, toks', st, ctx, i) {
      UseText(toks, s, ctx, i);
      UseIsOk(known, toks, s, ctx, i);
      MovedTokenText(known, toks, ss, toks', j, st.uses[i].idx);
      ShortenedText(known, toks, ss, j, st.uses[i].idx);
    }
  }

  // ---- its parse

  lemma MovedFree(toks: seq<Tok>, s: Stmt, ctx: string, k: nat)
    requires s.lo < s.hi <= |toks| && Shortened(toks, s, ctx, k) && ctx != "" && ctx[0] == '.'
    requires StartsBare(MovedText(toks, s, ctx, k))
    ensures toks[k].kind == Name && Free(toks[k].text) && Free(MovedText(toks, s, ctx, k))
  {
    ShortenedName(toks, s, ctx, k);
    hide Shortened, MovedText, IsPlainWord;
    if IsBuiltin(toks[k].text) { BuiltinIsBare(toks[k].text); }
  }

  lemma ShortenedUse(toks: seq<Tok>, s: Stmt, ctx: string, i: nat) returns (u: nat)
    requires s.lo < s.hi <= |toks| && i < |Significant(toks, s.lo, s.hi)|
    requires Shortened(toks, s, ctx, Significant(toks, s.lo, s.hi)[i].idx)
    ensures var st := Parse(toks, s.lo, s.hi);
            && st.Parsed? && u < |st.uses| && st.uses[u].pos == i && !MakesLocal(st.uses[u].role, st.uses[u].lam)
  {
    var st := Parse(toks, s.lo, s.hi);
    var c := Significant(toks, s.lo, s.hi);
    var k := c[i].idx;
    ParseUses(toks, s.lo, s.hi);
    hide Parse, IsBuiltin, RelativeDotted, IsLocalIn;
    u :| 0 <= u < |st.uses| && st.uses[u].idx == k && ShortOf(st.lams, st.uses[u], TextOf(toks, k), ctx).Some?;
    assert c[st.uses[u].pos].idx == k;
  }

  lemma MovedToken(known: Known, toks: seq<Tok>, ss: seq<Stmt>, toks': seq<Tok>, j: nat, k: nat)
    requires Nestled(known, toks, toks') && ss == StatementsOf(toks) && Ordered(toks, ss) && j < |ss|
    requires |toks| == |toks'|
    requires MovesTo(known, toks, ss, j).Some? && LeavesNamed(known, toks, ss) && ss[j].lo <= k < ss[j].hi
    requires Nested(MovesTo(known, toks, ss, j).value)
    ensures toks'[k].text != toks[k].text ==>
              && Shortened(toks, ss[j], MovesTo(known, toks, ss, j).value, k)
              && toks[k].kind == Name && Free(toks[k].text) && Free(toks'[k].text)
  {
    hide StatementsOf, Nestled, Free, MovesTo, MovedText, StartsBare, NestText, Shortened, CountOf;
    var ctx := MovesTo(known, toks, ss, j).value;
    MovedTokenText(known, toks, ss, toks', j, k);
    ShortenedText(known, toks, ss, j, k);
    MovedOrSame(toks, ss[j], ctx, k);
    if Shortened(toks, ss[j], ctx, k) {
      assert LeafNamed(known, toks, ss, j, k);
      MovedFree(toks, ss[j], ctx, k);
    }
  }

  /** A code token list and its rewriting, whose changed tokens are free names used and not made local. */
  lemma {:induction false} RenamedByUses(c: Code, d: Code, uses: seq<Use>)
    requires |c| == |d| && forall i :: 0 <= i < |c| ==> SameSig(c[i], d[i])
    requires forall i: nat :: i < |c| && c[i].text != d[i].text ==> UsedPlainly(uses, i)
    ensures Renamed(c, d) && Allowed(c, d, 0, uses, 0)
  {
    hide SameSig;
  }

  lemma {:induction false} MovedRenamed(known: Known, toks: seq<Tok>, ss: seq<Stmt>, toks': seq<Tok>, j: nat)
    requires Nestled(known, toks, toks') && ss == StatementsOf(toks) && Ordered(toks, ss) && j < |ss|
    requires |toks| == |toks'|
    requires MovesTo(known, toks, ss, j).Some? && Valid(Unplaced(toks), LineStart) && LeavesNamed(known, toks, ss)
    ensures var s := ss[j]; var c, d := Significant(toks, s.lo, s.hi), Significant(toks', s.lo, s.hi);
            && Parse(toks, s.lo, s.hi).Parsed? && Renamed(c, d) && |c| == |d| &&
              Allowed(c, d, 0, Parse(toks, s.lo, s.hi).uses, 0)
  {
    hide StatementsOf, Parse, Valid, Free, Significant, MovesTo, NestText, Shortened, Renamed, Allowed, LeavesNamed;
    hide Unmovable, AmendsRoot, CountOf;
    var s := ss[j];
    SignificantSame(toks, toks', s.lo, s.hi);
    MovesIsMovable(known, toks, ss, j);
    var ctx := MovesTo(known, toks, ss, j).value;
    var c, d := Significant(toks, s.lo, s.hi), Significant(toks', s.lo, s.hi);
    forall i: nat | i < |c|
      ensures SameSig(c[i], d[i]) && (c[i].text != d[i].text ==> UsedPlainly(Parse(toks, s.lo, s.hi).uses, i))
    {
      MovedToken(known, toks, ss, toks', j, c[i].idx);
      if c[i].text != d[i].text { var u := ShortenedUse(toks, s, ctx, i); }
    }
    RenamedByUses(c, d, Parse(toks, s.lo, s.hi).uses);
  }

  lemma MovedOrSame(toks: seq<Tok>, s: Stmt, ctx: string, k: nat)
    requires s.lo <= k < s.hi <= |toks|
    ensures !Shortened(toks, s, ctx, k) ==> MovedText(toks, s, ctx, k) == toks[k].text
  {
    hide Shortened;
  }

  lemma UnmovedText(known: Known, toks: seq<Tok>, ss: seq<Stmt>, toks': seq<Tok>, j: nat, k: nat)
    requires Nestled(known, toks, toks') && ss == StatementsOf(toks) && Ordered(toks, ss) && j < |ss|
    requires IsCodeStatement(toks, ss[j]) && MovesTo(known, toks, ss, j).None? && ss[j].lo <= k < ss[j].hi
    ensures k < |toks'| && toks'[k].text == toks[k].text
  {
    MovedTokenText(known, toks, ss, toks', j, k);
    hide MovesTo, HomeIn, StatementsOf, Nestled;
  }

  /** Every code statement parses in the 5.0 output as it did, and one that did not move is unchanged. */
  lemma {:induction false} NestParse(known: Known, toks: seq<Tok>, ss: seq<Stmt>, toks': seq<Tok>, j: nat)
    requires Nestled(known, toks, toks') && ss == StatementsOf(toks) && Ordered(toks, ss) && j < |ss|
    requires IsCodeStatement(toks, ss[j]) && Valid(Unplaced(toks), LineStart) && LeavesNamed(known, toks, ss)
    ensures |toks| == |toks'| && SameParse(Parse(toks, ss[j].lo, ss[j].hi), Parse(toks', ss[j].lo, ss[j].hi))
    ensures MovesTo(known, toks, ss, j).None? ==> Parse(toks, ss[j].lo, ss[j].hi) == Parse(toks', ss[j].lo, ss[j].hi)
  {
    hide StatementsOf, Valid, ParseCode, Significant, MovesTo, Renamed, Allowed, LeavesNamed;
    var s := ss[j];
    SignificantSame(toks, toks', s.lo, s.hi);
    var c, d := Significant(toks, s.lo, s.hi), Significant(toks', s.lo, s.hi);
    if MovesTo(known, toks, ss, j).Some? {
      MovedRenamed(known, toks, ss, toks', j);
      ParseSame(c, d);
    } else {
      forall i | 0 <= i < |c| ensures c[i] == d[i] { UnmovedText(known, toks, ss, toks', j, c[i].idx); }
      assert c == d;
    }
  }
}
