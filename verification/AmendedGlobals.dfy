/** A file whose block 5.0 moves although a qSQL phrase in it amends a global, so
    that the global it means is another one. */
module AmendedGlobals {
  import opened Options
  import opened Chars
  import opened Lexer
  import opened LexerProofs
  import opened QWords
  import opened Scanner
  import opened Renaming
  import opened Converter
  import opened Layout
  import opened Flatten
  import opened FlattenLexing
  import opened Meaning
  import opened Idempotence
  import opened Nesting
  import opened NestLexing
  import opened NestedFile
  import opened Moving
  import opened MovedStatements
  import opened RoundTrip
  import opened Returning
  import opened NestMeaning
  import opened Projects
  import opened Evaluation
  import opened RefusedReturn

  const SPACE: Piece := Piece(Ws, " ")

  /** `\d .`, `.a.b.f:{select n+:1 from .a.b.t}`, `\d .`. */
  const AMENDING: seq<Piece> :=
    [ROOT, NEWLINE, F, COLON, OPEN, Piece(Name, "select"), SPACE, Piece(Name, "n"), Piece(Op, "+"), COLON, ONE, SPACE,
     Piece(Name, "from"), SPACE, Piece(Name, ".a.b.t"), CLOSE, NEWLINE, ROOT, NEWLINE]

  /** `\d .a.b`, `f:{select n+:1 from t}`, `\d .`. */
  const AMENDING_NESTED: seq<Piece> :=
    [Piece(Sys, "\\d .a.b"), NEWLINE, Piece(Name, "f"), COLON, OPEN, Piece(Name, "select"), SPACE, Piece(Name, "n"),
     Piece(Op, "+"), COLON, ONE, SPACE, Piece(Name, "from"), SPACE, Piece(Name, "t"), CLOSE, NEWLINE, ROOT, NEWLINE]

  const CODE_AT: seq<nat> := [2, 3, 4, 5, 7, 8, 9, 10, 12, 14, 15]

  lemma NamesAre()
    ensures NameShaped("select") && NameShaped("n") && NameShaped("from") && NameShaped(".a.b.t")
    ensures ".a.b.t" == HOME + "." + "t"
  {
    assert !IsDigit(".a.b.t"[0]) && !IsDigit(".a.b.t"[1]);
    NameShapedIs("select");
    NameShapedIs("n");
    NameShapedIs("from");
    NameShapedIs(".a.b.t");
  }

  lemma AmendingFront(ps: seq<Piece>)
    requires ps == AMENDING
    ensures |ps| == 19 && forall k :: 0 <= k < 10 ==> Clear(ps, k)
  {
    hide LineShaped, ROOT_LINE;
    FIsName();
    RootIsLine();
    assert Clear(ps, 0) && Clear(ps, 1) && Clear(ps, 2) && Clear(ps, 3) && Clear(ps, 4);
    AmendingMiddle(ps);
  }

  lemma AmendingMiddle(ps: seq<Piece>)
    requires ps == AMENDING
    ensures |ps| == 19 && forall k :: 5 <= k < 10 ==> Clear(ps, k)
  {
    NamesAre();
    hide NameShaped, LineShaped, ROOT_LINE;
    assert Clear(ps, 5) && Clear(ps, 6) && Clear(ps, 7) && Clear(ps, 8) && Clear(ps, 9);
  }

  lemma AmendingBack(ps: seq<Piece>)
    requires ps == AMENDING
    ensures |ps| == 19 && forall k :: 10 <= k < 19 ==> Clear(ps, k)
  {
    NamesAre();
    RootIsLine();
    hide NameShaped, LineShaped, ROOT_LINE;
    assert Clear(ps, 10) && Clear(ps, 11) && Clear(ps, 12) && Clear(ps, 13) && Clear(ps, 14);
    assert Clear(ps, 15) && Clear(ps, 16) && Clear(ps, 17) && Clear(ps, 18);
  }

  lemma AmendingBlock()
    ensures OneBlock(AMENDING, 16)
  {
    hide ROOT_LINE;
  }

  lemma AmendingSpelled()
    ensures Spelled(AMENDING) && OneBlock(AMENDING, 16)
  {
    AmendingFront(AMENDING);
    AmendingBack(AMENDING);
    AmendingBlock();
    hide Clear, OneBlock, AMENDING;
  }

  // ---- its parse

  predicate Amending(c: Code) {
    && |c| == 11 && c[0] == Sig(Name, ".a.b.f", 2) && c[1] == Sig(Op, ":", 3) && c[2] == Sig(Op, "{", 4)
    && c[3] == Sig(Name, "select", 5) && c[4] == Sig(Name, "n", 7) && c[5] == Sig(Op, "+", 8) && c[6] == Sig(Op, ":", 9)
    && c[7] == Sig(Num, "1", 10) && c[8] == Sig(Name, "from", 12) && c[9] == Sig(Name, ".a.b.t", 14) &&
      c[10] == Sig(Op, "}", 15)
  }

  const FUN: Lambda := Lambda(false, None, false, {}, {}, 2, 10)
  const U0: Use := Use(0, 2, None, Assign, false, false)
  const U1: Use := Use(4, 7, Some(0), Compound, true, false)
  const U2: Use := Use(9, 14, Some(0), Ref, false, false)
  const PARSE: Statement := Parsed([U0, U1, U2], [], [FUN], Some(".a.b.f"))

  const COLUMNS: Frame := Frame(InLambda, Some(0), Cols, false)
  const FROM: Frame := Frame(InLambda, Some(0), From, false)

  lemma AmendingTokens(c: Code)
    requires Amending(c)
    ensures |c| == 11 && OpensFunction(c) && c[0].text == ".a.b.f" && c[10].kind == Op && c[10].text == "}"
    ensures c[5].kind == Op && c[5].text == "+" && c[6].kind == Op && c[6].text == ":" && c[7].kind == Num
  {
    DottedIsPlain(".a.b.f");
    hide PlainName;
  }

  lemma AmendingBrackets(c: Code)
    requires Amending(c)
    ensures MatchAll(c) == Matched(map[2 := 10], map[10 := 2]) && Pairs(c, MatchAll(c))
  {
    forall p: nat | p < 11 && p != 2 && p != 10 ensures NoBracket(c, p) {
      assert p == 0 || p == 1 || p == 3 || p == 4 || p == 5 || p == 6 || p == 7 || p == 8 || p == 9;
    }
    hide NoBracket, Pairs, MatchAll;
    OneBrace(c, 2, 10);
  }

  lemma SelectStep(c: Code, m: Brackets)
    requires Amending(c) && Pairs(c, m)
    ensures WalkStep(c, m, 3, Inside(BODY, FUN, [U0])) == (Inside(COLUMNS.(segStart := true), FUN, [U0]), 4)
  {
    InsideTop(BODY, FUN, [U0], COLUMNS.(segStart := true));
    hide Pairs, WithTop, TopOf, Inside;
  }

  lemma AmendStep(c: Code, m: Brackets)
    requires Amending(c) && Pairs(c, m)
    ensures WalkStep(c, m, 4, Inside(COLUMNS.(segStart := true), FUN, [U0])) == (Inside(COLUMNS, FUN, [U0, U1]), 5)
  {
    assert TextAt(c, 5) == "+" && TextAt(c, 6) == ":" && TextAt(c, 3) == "select";
    assert RoleOf(c, m, 4, COLUMNS.(segStart := true)) == Compound && LookupLevel(c, m, 4) == 0 && !Called(c, 4);
    assert [U0] + [U1] == [U0, U1] && NextPhrase(Cols, "n") == NoPhrase;
    hide Pairs, WalkStep, RoleOf, LookupLevel, Called;
    UseStep(c, m, 4, COLUMNS.(segStart := true), FUN, [U0], Compound);
  }

  lemma FromStep(c: Code, m: Brackets)
    requires Amending(c) && Pairs(c, m)
    ensures WalkStep(c, m, 8, Inside(COLUMNS, FUN, [U0, U1])) == (Inside(FROM, FUN, [U0, U1]), 9)
  {
    InsideTop(COLUMNS, FUN, [U0, U1], FROM);
    assert NextPhrase(Cols, "from") == From;
    hide Pairs, WithTop, TopOf, Inside;
  }

  lemma TableFacts(c: Code, m: Brackets)
    requires Amending(c) && m.Matched?
    ensures RoleOf(c, m, 9, FROM) == Ref && LookupLevel(c, m, 9) == 0 && !Called(c, 9)
    ensures PlainName(".a.b.t") && NextPhrase(From, ".a.b.t") == NoPhrase
  {
    DottedIsPlain(".a.b.t");
    assert TextAt(c, 10) == "}" && TextAt(c, 8) == "from";
  }

  lemma TableStep(c: Code, m: Brackets)
    requires Amending(c) && Pairs(c, m)
    ensures WalkStep(c, m, 9, Inside(FROM, FUN, [U0, U1])) == (Inside(FROM, FUN, [U0, U1, U2]), 10)
  {
    TableFacts(c, m);
    assert [U0, U1] + [U2] == [U0, U1, U2];
    hide Pairs, WalkStep, RoleOf, LookupLevel, Called, NextPhrase, READERS, WRITERS, QSQL_START, RelativeDotted;
    UseStep(c, m, 9, FROM, FUN, [U0, U1], Ref);
  }

  lemma OpenedIs(c: Code)
    requires Amending(c)
    ensures Opened(c) == Inside(BODY, FUN, [U0])
  {
  }

  lemma QuietColumns(c: Code, m: Brackets, pos: nat)
    requires Pairs(c, m) && pos < |c|
    requires (c[pos].kind == Num || (c[pos].kind == Op && (c[pos].text == ":" || c[pos].text == "+")))
    ensures WalkStep(c, m, pos, Inside(COLUMNS, FUN, [U0, U1])) == (Inside(COLUMNS, FUN, [U0, U1]), pos + 1)
  {
    hide Pairs, WalkStep;
    QuietStep(c, m, pos, COLUMNS, FUN, [U0, U1]);
  }

  lemma ParseIs(c: Code)
    requires Amending(c)
    ensures PARSE == Parsed([U0, U1, U2], [], [FUN], Some(".a.b.f")) && FROM.kind == InLambda
  {
  }

  /** What the function parses to: the phrase amends `n`, by a name of its own. */
  lemma AmendingParse(c: Code)
    requires Amending(c)
    ensures ParseCode(c) == PARSE
  {
    hide *;
    AmendingTokens(c);
    AmendingBrackets(c);
    ParseIs(c);
    var m := MatchAll(c);
    OpensBody(c, m);
    OpenedIs(c);
    HasFrames(BODY, FUN, [U0]);
    OneRound(c, m, 3, Opened(c));
    SelectStep(c, m);
    HasFrames(COLUMNS.(segStart := true), FUN, [U0]);
    OneRound(c, m, 4, Inside(COLUMNS.(segStart := true), FUN, [U0]));
    AmendStep(c, m);
    HasFrames(COLUMNS, FUN, [U0, U1]);
    OneRound(c, m, 5, Inside(COLUMNS, FUN, [U0, U1]));
    QuietColumns(c, m, 5);
    OneRound(c, m, 6, Inside(COLUMNS, FUN, [U0, U1]));
    QuietColumns(c, m, 6);
    OneRound(c, m, 7, Inside(COLUMNS, FUN, [U0, U1]));
    QuietColumns(c, m, 7);
    OneRound(c, m, 8, Inside(COLUMNS, FUN, [U0, U1]));
    FromStep(c, m);
    HasFrames(FROM, FUN, [U0, U1]);
    OneRound(c, m, 9, Inside(FROM, FUN, [U0, U1]));
    TableStep(c, m);
    HasFrames(FROM, FUN, [U0, U1, U2]);
    OneRound(c, m, 10, Inside(FROM, FUN, [U0, U1, U2]));
    CloseStep(c, m, 10, FROM, FUN, [U0, U1, U2]);
    WalkEnds(c, m, Scan([TOP], [FUN], [U0, U1, U2], [], false));
    ParsedAs(c, m, FUN, [U0, U1, U2]);
  }

  // ---- its tokens

  /** The file's tokens, one by one. */
  predicate HasTokens(toks: seq<Tok>) {
    && |toks| == 19 && toks[1].kind == Nl && toks[16].kind == Nl && toks[6].kind == Ws && toks[11].kind == Ws &&
      toks[13].kind == Ws
    && Amending(SigsAt(toks, CODE_AT))
  }

  lemma AmendingTexts(toks: seq<Tok>)
    requires TokensOf(toks, AMENDING)
    ensures |toks| == 19
    ensures forall k :: 0 <= k < 19 ==> toks[k].kind == AMENDING[k].kind && toks[k].text == AMENDING[k].text
  {
    assert |AMENDING| == 19;
    hide Starts, AMENDING;
    forall k | 0 <= k < 19 ensures toks[k].kind == AMENDING[k].kind && toks[k].text == AMENDING[k].text {
      assert TokenIs(toks, AMENDING, k);
    }
  }

  lemma AmendingSigs(toks: seq<Tok>)
    requires TokensOf(toks, AMENDING)
    ensures HasTokens(toks)
  {
    AmendingTexts(toks);
    hide TokensOf;
    var c := SigsAt(toks, CODE_AT);
    assert |c| == 11 && c[0] == SigOf(toks, 2) && c[1] == SigOf(toks, 3) && c[2] == SigOf(toks, 4);
    assert c[3] == SigOf(toks, 5);
    assert c[4] == SigOf(toks, 7) && c[5] == SigOf(toks, 8) && c[6] == SigOf(toks, 9) && c[7] == SigOf(toks, 10);
    assert c[8] == SigOf(toks, 12) && c[9] == SigOf(toks, 14) && c[10] == SigOf(toks, 15);
  }

  lemma AmendingKinds(toks: seq<Tok>)
    requires HasTokens(toks)
    ensures forall i :: 0 <= i < 11 ==> IsCode(toks[CODE_AT[i]].kind)
  {
    var c := SigsAt(toks, CODE_AT);
    forall i | 0 <= i < 11 ensures IsCode(toks[CODE_AT[i]].kind) {
      assert c[i] == SigOf(toks, CODE_AT[i]);
    }
    hide SigsAt;
  }

  lemma AmendingPicks(toks: seq<Tok>)
    requires |toks| == 19 && toks[16].kind == Nl && toks[6].kind == Ws && toks[11].kind == Ws && toks[13].kind == Ws
    requires forall i :: 0 <= i < 11 ==> IsCode(toks[CODE_AT[i]].kind)
    ensures Picks(toks, 2, 17, CODE_AT)
  {
    forall k | 2 <= k < 17 && IsCode(toks[k].kind) ensures k in CODE_AT {
      assert k != 6 && k != 11 && k != 13 && k != 16;
      var i := if k < 6 then k - 2 else if k < 11 then k - 3 else if k < 13 then k - 4 else k - 5;
      assert CODE_AT[i] == k;
    }
  }

  lemma FileParses(toks: seq<Tok>)
    requires HasTokens(toks)
    ensures |toks| == 19 && Parse(toks, 2, 17) == PARSE
  {
    AmendingKinds(toks);
    hide Picks, Significant, SigsAt, ParseCode, Amending;
    AmendingPicks(toks);
    SignificantIs(toks, 2, 17, CODE_AT);
    AmendingParse(SigsAt(toks, CODE_AT));
  }

  lemma UseTexts(toks: seq<Tok>)
    requires HasTokens(toks)
    ensures TextOf(toks, 2) == ".a.b.f" && TextOf(toks, 7) == "n" && TextOf(toks, 14) == ".a.b.t"
    ensures forall k :: 2 <= k < 17 && k != 2 && k != 14 && IsCode(toks[k].kind) ==>
              toks[k].text != "" && toks[k].text[0] != '.'
  {
    hide SigsAt, Picks;
    var c := SigsAt(toks, CODE_AT);
    AmendingKinds(toks);
    AmendingPicks(toks);
    assert c[0] == SigOf(toks, 2) && c[4] == SigOf(toks, 7) && c[9] == SigOf(toks, 14);
    forall k | 2 <= k < 17 && k != 2 && k != 14 && IsCode(toks[k].kind)
      ensures toks[k].text != "" && toks[k].text[0] != '.'
    {
      var i :| 0 <= i < 11 && CODE_AT[i] == k;
      assert c[i] == SigOf(toks, k) && i != 0 && i != 9;
    }
  }

  // ---- it moves

  lemma AmendSlips(known: Known, toks: seq<Tok>)
    requires TextOf(toks, 7) == "n" && "n" !in known.DefinedIn(".") && "n" !in known.DefinedIn(HOME)
    ensures !UseStays(known, toks, PARSE, U1, HOME) && AmendsBare(toks, PARSE, U1)
  {
    LetterIsFree("n");
    hide IsBuiltin;
  }

  lemma AmendingMovable(known: Known, toks: seq<Tok>)
    requires HasTokens(toks) && "n" !in known.DefinedIn(".") && "n" !in known.DefinedIn(HOME)
    ensures !Unmovable(known, toks, PARSE, HOME)
  {
    UseTexts(toks);
    ParseUsesAre();
    AbsoluteLeaves(known, toks, PARSE, U0);
    AmendSlips(known, toks);
    AbsoluteLeaves(known, toks, PARSE, U2);
    hide UseStays, HasTokens, TextOf, Calls, PARSE, AmendsBare;
    forall i | 0 <= i < |PARSE.uses| ensures !UseStays(known, toks, PARSE, PARSE.uses[i], HOME) {
      assert i == 0 || i == 1 || i == 2;
    }
  }

  lemma ParseUsesAre()
    ensures PARSE.Parsed? && PARSE.definition.Some? && |PARSE.uses| == 3 && PARSE.lams == [FUN]
    ensures PARSE.uses[0] == U0 && PARSE.uses[1] == U1 && PARSE.uses[2] == U2 && U0.idx == 2 && U1.idx == 7
    ensures U2.idx == 14
  {
  }

  lemma AmendingGoes(known: Known, toks: seq<Tok>)
    requires HasTokens(toks) && "n" !in known.DefinedIn(".") && "n" !in known.DefinedIn(HOME)
    ensures |toks| == 19 && Goes(known, toks, Parse(toks, 2, 17), "f")
  {
    hide *;
    UseTexts(toks);
    FileParses(toks);
    AmendingMovable(known, toks);
    ParseGoes(known, toks);
  }

  lemma ParseGoes(known: Known, toks: seq<Tok>)
    requires TextOf(toks, 2) == ".a.b.f" && !Unmovable(known, toks, PARSE, HOME)
    ensures Goes(known, toks, PARSE, "f")
  {
    FIsName();
    assert U0.lam.None? && U0.role == Assign && U0.idx == 2 && U1.lam.Some? && U2.lam.Some?;
    ParseUsesAre();
    hide Unmovable, TextOf, NameShaped, PARSE, U0, U1, U2;
    forall i | 1 <= i < |PARSE.uses| ensures !(PARSE.uses[i].lam.None? && Amends(PARSE.uses[i])) {
      assert i == 1 || i == 2;
    }
  }

  lemma AmendingShape(known: Known, toks: seq<Tok>, ss: seq<Stmt>)
    requires TokensOf(toks, AMENDING) && ss == StatementsOf(toks) && OneBlock(AMENDING, 16)
    requires "n" !in known.DefinedIn(".") && "n" !in known.DefinedIn(HOME)
    ensures HasTokens(toks) && |toks| == 19 && IsFlat(toks)
    ensures BlockOf(toks, ss, 16) && |ss| == 3 && Ordered(toks, ss) && BlockMoved(known, toks, ss, HOME)
    ensures ss[1] == Stmt(2, 17, ".")
  {
    hide *;
    AmendingSigs(toks);
    BlockIsFlat(toks, AMENDING, 16);
    OneBlockIs(toks, AMENDING, 16);
    AmendingGoes(known, toks);
    BlockGoes(known, toks, ss, 16, "f");
    BlockBounds(toks, ss, 16);
  }

  // ---- what is written

  lemma AmendingLeaf(toks: seq<Tok>, k: nat)
    requires HasTokens(toks) && 2 <= k < 17
    ensures |toks| == 19
    ensures MovedText(toks, Stmt(2, 17, "."), HOME, k) == if k == 2 then "f" else if k == 14 then "t" else toks[k].text
    ensures k != 2 && k != 14 ==> !Shortened(toks, Stmt(2, 17, "."), HOME, k)
  {
    FileParses(toks);
    UseTexts(toks);
    hide *;
    if k == 2 {
      HeadShort(toks);
    } else if k == 14 {
      TableShort(toks);
    } else {
      NotUsed(toks, k);
    }
  }

  lemma HeadShort(toks: seq<Tok>)
    requires |toks| == 19 && Parse(toks, 2, 17) == PARSE && TextOf(toks, 2) == ".a.b.f"
    ensures MovedText(toks, Stmt(2, 17, "."), HOME, 2) == "f"
  {
    hide *;
    ParseUsesAre();
    FIsName();
    TextAtToken(toks, 2);
    LetterIsFree("f");
    UseText(toks, Stmt(2, 17, "."), HOME, 0);
    ShortUse(U0, "f");
  }

  lemma TableShort(toks: seq<Tok>)
    requires |toks| == 19 && Parse(toks, 2, 17) == PARSE && TextOf(toks, 14) == ".a.b.t"
    ensures MovedText(toks, Stmt(2, 17, "."), HOME, 14) == "t"
  {
    hide *;
    ParseUsesAre();
    NamesAre();
    TextAtToken(toks, 14);
    LetterIsFree("t");
    UseText(toks, Stmt(2, 17, "."), HOME, 2);
    ShortUse(U2, "t");
  }

  lemma ShortUse(u: Use, leaf: string)
    requires (u == U0 && leaf == "f") || (u == U2 && leaf == "t")
    requires !IsBuiltin(leaf) && leaf !in QSQL_START && leaf !in QSQL_NEXT
    ensures MovedName([FUN], u, HOME + "." + leaf, HOME) == leaf
  {
    hide IsBuiltin, ShortOf, QSQL_START, QSQL_NEXT;
    LeafIs([FUN], u, leaf);
  }

  lemma NotUsed(toks: seq<Tok>, k: nat)
    requires |toks| == 19 && 2 <= k < 17 && (IsCode(toks[k].kind) ==> toks[k].text != "" && toks[k].text[0] != '.')
    ensures MovedText(toks, Stmt(2, 17, "."), HOME, k) == toks[k].text && !Shortened(toks, Stmt(2, 17, "."), HOME, k)
  {
    var s := Stmt(2, 17, ".");
    if IsCode(toks[k].kind) {
      Undotted(toks[k].text);
      NotShortened(toks, s, HOME, k);
    } else {
      if Shortened(toks, s, HOME, k) { ShortenedName(toks, s, HOME, k); }
      MovedOrSame(toks, s, HOME, k);
    }
    hide Shortened, MovedText;
  }

  lemma AmendingLeaves(toks: seq<Tok>)
    requires HasTokens(toks)
    ensures |toks| == 19 && LeavesOwn(toks, Stmt(2, 17, "."), HOME) && ParamsIn(toks, Stmt(2, 17, "."))
  {
    hide *;
    Spaces(toks);
    AmendingLeaf(toks, 2);
    AmendingLeaf(toks, 14);
    forall k | 2 <= k < 17 && k != 2 && k != 14 ensures !Shortened(toks, Stmt(2, 17, "."), HOME, k) {
      AmendingLeaf(toks, k);
    }
    TwoLeaves(toks, Stmt(2, 17, "."), HOME, 2, 14);
    AmendingParams(toks);
  }

  lemma Spaces(toks: seq<Tok>)
    requires HasTokens(toks)
    ensures |toks| == 19 && toks[1].kind == Nl && toks[13].kind == Ws && StartsBare("f") && StartsBare("t")
  {
    hide SigsAt, Amending;
  }

  lemma AmendingParams(toks: seq<Tok>)
    requires HasTokens(toks)
    ensures |toks| == 19 && ParamsIn(toks, Stmt(2, 17, "."))
  {
    FileParses(toks);
    ParamsAre();
    hide HasTokens, Parse, PARSE, ParamsRelative;
  }

  lemma ParamsAre()
    ensures PARSE.Parsed? && ParamsRelative(PARSE.lams)
  {
  }

  lemma NestedPieceIs(k: nat)
    requires k < 19
    ensures |AMENDING| == 19 && |AMENDING_NESTED| == 19
    ensures AMENDING_NESTED[k] == Piece(AMENDING[k].kind,
                if k == 0 then "\\d " + HOME else if k == 2 then "f" else if k == 14 then "t" else AMENDING[k].text)
  {
    assert "\\d " + HOME == "\\d .a.b";
    hide ROOT_LINE;
  }

  lemma AmendingWritten(known: Known, toks: seq<Tok>, ss: seq<Stmt>, out: seq<string>)
    requires TokensOf(toks, AMENDING) && HasTokens(toks)
    requires BlockOf(toks, ss, 16) && |ss| == 3 && Ordered(toks, ss) && BlockMoved(known, toks, ss, HOME)
    requires NestTokens(known, toks, ss, out) && ss[1] == Stmt(2, 17, ".")
    ensures |out| == |toks| == 19 && Retexted(toks, out) == AMENDING_NESTED
  {
    hide *;
    BlockIsWritten(known, toks, ss, 16, out);
    AmendingTexts(toks);
    NestedPieceIs(0);
    forall k | 0 <= k < 19 ensures Retexted(toks, out)[k] == AMENDING_NESTED[k] {
      NestedPieceIs(k);
      if 2 <= k < 17 { AmendingLeaf(toks, k); }
    }
  }

  // ---- what it means

  lemma AmendingSound(known: Known, toks: seq<Tok>, columns: set<nat>)
    requires HasTokens(toks)
    ensures |toks| == 19 && Sound(known, toks, Stmt(2, 17, "."), columns)
  {
    FileParses(toks);
    ParamsAre();
    ParseUsesAre();
    assert U0.role != Ref && U1.role != Ref && !U2.columnCtx;
    hide HasTokens, Parse, PARSE, ParamsRelative, U0, U1, U2, IsLocalIn, IsBuiltin;
    forall i | 0 <= i < |PARSE.uses| ensures !MayBeColumn(PARSE.lams, PARSE.uses[i], TextOf(toks, PARSE.uses[i].idx)) {
      assert i == 0 || i == 1 || i == 2;
    }
  }

  lemma BodySound(known: Known, toks: seq<Tok>, ss: seq<Stmt>, columns: set<nat>)
    requires |ss| == 3 && Ordered(toks, ss) && BlockMoved(known, toks, ss, HOME) && Sound(known, toks, ss[1], columns)
    ensures forall j: nat :: j < |ss| && MovesTo(known, toks, ss, j).Some? ==> Sound(known, toks, ss[j], columns)
  {
    hide MovesTo, HomeIn, Ordered, Sound;
  }

  lemma SoundlyNests(known: Known, toks: seq<Tok>, ss: seq<Stmt>, columns: set<nat>)
    requires ss == StatementsOf(toks) && Ordered(toks, ss)
    requires LeavesNamed(known, toks, ss)
    requires forall j: nat :: j < |ss| && MovesTo(known, toks, ss, j).Some? ==> Sound(known, toks, ss[j], columns)
    ensures NestsSoundly(known, toks, columns)
  {
    hide LeavesNamed, MovesTo, Sound, StatementsOf;
  }

  lemma AmendingNestsSoundly(known: Known, toks: seq<Tok>, ss: seq<Stmt>, columns: set<nat>)
    requires HasTokens(toks) && ss == StatementsOf(toks) && |toks| == 19 && IsFlat(toks)
    requires BlockOf(toks, ss, 16) && |ss| == 3 && Ordered(toks, ss) && BlockMoved(known, toks, ss, HOME)
    requires ss[1] == Stmt(2, 17, ".")
    ensures NestsSoundly(known, toks, columns)
  {
    hide *;
    AmendingLeaves(toks);
    BlockLeaves(known, toks, ss);
    AmendingSound(known, toks, columns);
    BodySound(known, toks, ss, columns);
    SoundlyNests(known, toks, ss, columns);
  }

  lemma KeepsAt(known: Known, toks: seq<Tok>, ss: seq<Stmt>, text: string, columns: set<nat>)
    requires MeansAlike(known, toks, text, columns) && ss == StatementsOf(toks) && Ordered(toks, ss)
    requires |ss| == 3 && IsCodeStatement(toks, ss[1]) && MovesTo(known, toks, ss, 1).Some?
    requires Parse(toks, ss[1].lo, ss[1].hi).Parsed?
    ensures var lexed := LexOf(text); var ss' := StatementsOf(lexed.toks);
            && lexed.Lexed? && |lexed.toks| == |toks| && |ss'| == 3
            && (MeaningKept(toks, lexed.toks, ss[1], ss'[1], columns) <==>
                NoneAmendsBare(toks, Parse(toks, ss[1].lo, ss[1].hi)))
  {
    var lexed := LexOf(text);
    assert SameLayout(toks, lexed.toks) && |StatementsOf(lexed.toks)| == 3;
    assert NestKeeps(known, toks, ss, lexed.toks, StatementsOf(lexed.toks)[1], 1, columns) by {
      hide LexOf, StatementsOf, NestKeeps, MovesTo, Parse, SameLayout;
    }
    hide LexOf, StatementsOf, MovesTo, Parse, MeaningKept, NoneAmendsBare, SameParse, KeepsAll, MeansAlike, SameLayout;
  }

  lemma SomeAmends(known: Known, toks: seq<Tok>)
    requires TextOf(toks, 7) == "n" && "n" !in known.DefinedIn(".") && "n" !in known.DefinedIn(HOME)
    ensures PARSE.Parsed? && !NoneAmendsBare(toks, PARSE)
  {
    ParseUsesAre();
    AmendSlips(known, toks);
    hide AmendsBare, PARSE, UseStays;
  }

  /** THE SLIP. Where nothing defines `n`, 5.0 nests the file, the statement that
      amended the root's `n` then amends the context's, so its meaning is not
      kept, and no flattening gives the file back. */
  lemma AmendSlipsThrough(known: Known, known': Known, allowComputed: bool, columns: set<nat>)
    requires "n" !in known.DefinedIn(".") && "n" !in known.DefinedIn(HOME)
    ensures var text, nested := Concat(AMENDING), Concat(AMENDING_NESTED);
            && LexOf(text).Lexed? && LexOf(nested).Lexed?
            && Convert(known, allowComputed, Target.Nest, text) == Written(nested)
            && Convert(known', allowComputed, Flat, nested) != Written(text)
            && var toks, toks' := LexOf(text).toks, LexOf(nested).toks;
               && |toks| == |toks'| && |StatementsOf(toks)| == |StatementsOf(toks')| == 3
               && !MeaningKept(toks, toks', StatementsOf(toks)[1], StatementsOf(toks')[1], columns)
  {
    hide *;
    var text := Concat(AMENDING);
    AmendingSpelled();
    SpelledLexes(AMENDING);
    var toks := LexOf(text).toks;
    var ss := StatementsOf(toks);
    AmendingShape(known, toks, ss);
    FlatFileNests(known, allowComputed, text);
    NestOutputTokens(known, toks);
    AmendingWritten(known, toks, ss, NestFrom(known, toks, ss, 0, Texts(toks)));
    NestsInto(known, toks, AMENDING_NESTED);
    AmendingNestsSoundly(known, toks, ss, columns);
    NestedTextMeaning(known, text, columns);
    FileParses(toks);
    UseTexts(toks);
    BlockShape(toks, ss, 16);
    MovesHome(known, toks, ss);
    ParseUsesAre();
    KeepsAt(known, toks, ss, NestedText(known, toks), columns);
    SomeAmends(known, toks);
    NeverReturns(known, known', allowComputed, text);
  }

  lemma NeverReturns(known: Known, known': Known, allowComputed: bool, text: string)
    requires LexOf(text).Lexed? && TokensOf(LexOf(text).toks, AMENDING) && OneBlock(AMENDING, 16)
    requires "n" !in known.DefinedIn(".") && "n" !in known.DefinedIn(HOME)
    ensures Convert(known', allowComputed, Flat, NestedText(known, LexOf(text).toks)) != Written(text)
  {
    hide *;
    var toks := LexOf(text).toks;
    var ss := StatementsOf(toks);
    AmendingShape(known, toks, ss);
    AmendingLeaves(toks);
    BlockNestable(known, toks, ss);
    FileParses(toks);
    UseTexts(toks);
    MovesHome(known, toks, ss);
    NotAmendsIn(toks);
    if Convert(known', allowComputed, Flat, NestedText(known, toks)) == Written(text) {
      OnlyReturnableReturns(known, known', allowComputed, text);
      ReturnableAt(known, toks, ss);
    }
  }

  lemma ReturnableAt(known: Known, toks: seq<Tok>, ss: seq<Stmt>)
    requires Returnable(known, toks) && ss == StatementsOf(toks) && Ordered(toks, ss) && |ss| == 3
    ensures MovesTo(known, toks, ss, 1).Some? ==> AmendsIn(toks, ss[1])
  {
    hide StatementsOf, MovesTo, HomeIn, AmendsIn;
    assert BlockReturnable(known, toks, ss, 1);
  }

  lemma NotAmendsIn(toks: seq<Tok>)
    requires |toks| == 19 && Parse(toks, 2, 17) == PARSE && TextOf(toks, 7) == "n"
    ensures !AmendsIn(toks, Stmt(2, 17, "."))
  {
    ParseUsesAre();
    NoLocal();
    hide Parse, PARSE, AmendsLocal, TextOf, U1;
    assert !AmendsLocal(PARSE.lams, PARSE.uses[1], TextOf(toks, PARSE.uses[1].idx));
  }

  lemma NoLocal()
    ensures !AmendsLocal([FUN], U1, "n")
  {
    hide IsBuiltin;
  }

  // ---- run by itself

  lemma AddsHome(full: string)
    requires full == HOME + "." + "f"
    ensures AddName(map[], full) == map[HOME := {"f"}]
  {
    ParentIs(HOME, "f");
    assert ParentOf(full) == HOME && LeafOf(full) == "f";
    assert {} + {"f"} == {"f"};
    hide ParentOf, LeafOf;
  }

  lemma UsesCollect(toks: seq<Tok>)
    requires TextOf(toks, 2) == ".a.b.f"
    ensures CollectUses(toks, PARSE, ".", 0, map[]) == map[HOME := {"f"}]
  {
    ParseUsesAre();
    FIsName();
    ParentIs(HOME, "f");
    assert U0.role == Assign && U0.lam.None? && U1.role == Compound && U2.role == Ref;
    hide PARSE, U0, U1, U2, TextOf, ParentOf, LeafOf, NameShaped;
    AddsHome(".a.b.f");
    assert Qualified(".", ".a.b.f") == ".a.b.f";
    assert CollectUses(toks, PARSE, ".", 2, map[HOME := {"f"}]) == CollectUses(toks, PARSE, ".", 3, map[HOME := {"f"}]);
    assert CollectUses(toks, PARSE, ".", 1, map[HOME := {"f"}]) == CollectUses(toks, PARSE, ".", 2, map[HOME := {"f"}]);
  }

  lemma StatementCollected(toks: seq<Tok>, s: Stmt)
    requires |toks| == 19 && s == Stmt(2, 17, ".") && toks[2].kind == Name && Parse(toks, 2, 17) == PARSE
    requires TextOf(toks, 2) == ".a.b.f"
    ensures CollectStatement(toks, s, NOTHING).defined == map[HOME := {"f"}]
  {
    ParseUsesAre();
    UsesCollect(toks);
    hide Parse, PARSE, CollectUses, Calls, TextOf, Qualified, OwnLevel;
  }

  /** The file by itself defines nothing that is called `n`. */
  lemma OwnNames(text: string)
    requires text == Concat(AMENDING)
    ensures "n" !in KnownOf([text]).DefinedIn(".") && "n" !in KnownOf([text]).DefinedIn(HOME)
  {
    hide LexOf, AMENDING, Concat, Spelled, KnownOf, TokensOf, StatementsOf, Valid;
    hide HasTokens, BlockOf, TextOf, Parse, PARSE, CollectFrom, CollectStatement, OneBlock;
    AmendingSpelled();
    SpelledLexes(AMENDING);
    OneCollected(text);
    assert HOME != ".";
    var toks := LexOf(text).toks;
    AmendingSigs(toks);
    OneBlockIs(toks, AMENDING, 16);
    var ss := StatementsOf(toks);
    BlockShape(toks, ss, 16);
    BlockBounds(toks, ss, 16);
    BlockCollects(toks, ss, 16, NOTHING);
    FileParses(toks);
    UseTexts(toks);
    HeadIsName(toks);
    StatementCollected(toks, ss[1]);
  }

  lemma HeadIsName(toks: seq<Tok>)
    requires HasTokens(toks)
    ensures |toks| == 19 && toks[2].kind == Name
  {
    var c := SigsAt(toks, CODE_AT);
    assert c[0] == SigOf(toks, 2);
    hide SigsAt;
  }

  /** The file as a project of its own. */
  lemma AmendSlipsThroughAlone(known': Known, allowComputed: bool, columns: set<nat>)
    ensures var text, nested := Concat(AMENDING), Concat(AMENDING_NESTED);
            && LexOf(text).Lexed? && LexOf(nested).Lexed?
            && Convert(KnownOf([text]), allowComputed, Target.Nest, text) == Written(nested)
            && Convert(known', allowComputed, Flat, nested) != Written(text)
            && var toks, toks' := LexOf(text).toks, LexOf(nested).toks;
               && |toks| == |toks'| && |StatementsOf(toks)| == |StatementsOf(toks')| == 3
               && !MeaningKept(toks, toks', StatementsOf(toks)[1], StatementsOf(toks')[1], columns)
  {
    hide *;
    OwnNames(Concat(AMENDING));
    AmendSlipsThrough(KnownOf([Concat(AMENDING)]), known', allowComputed, columns);
  }
}
