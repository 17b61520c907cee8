/** Files whose converted text no longer lexes into the tokens written: each lies
    outside the condition its theorem states. */
module BrokenLexing {
  import opened Options
  import opened Chars
  import opened Lexer
  import opened LexerProofs
  import opened QWords
  import opened Scanner
  import opened Converter
  import opened Layout
  import opened Flatten
  import opened FlattenLexing
  import opened Idempotence
  import opened Nesting
  import opened NestLexing
  import opened NestedFile
  import opened Moving
  import opened MovedStatements
  import opened Returning
  import opened Projects
  import opened Evaluation
  import opened RefusedReturn

  /** Neighbouring pieces written as one spell the same. */
  lemma Merged(front: seq<Piece>, xs: seq<Piece>, p: Piece, rest: seq<Piece>)
    requires Concat(xs) == p.text
    ensures Concat(front + xs + rest) == Concat(front + [p] + rest)
  {
    ConcatAppend(front + xs, rest);
    ConcatAppend(front, xs);
    ConcatAppend(front + [p], rest);
    ConcatAppend(front, [p]);
    assert Concat([p]) == p.text + Concat([]);
  }

  // ---- a leaf that is a number: `.a.b.1x:2`

  const LEAF: seq<Piece> := [ROOT, NEWLINE, Piece(Name, ".a.b.1x"), COLON, Piece(Num, "2"), NEWLINE, ROOT, NEWLINE]

  /** What 5.0 writes, token by token. */
  const LEAF_WRITTEN: seq<Piece> :=
    [Piece(Sys, "\\d .a.b"), NEWLINE, Piece(Name, "1x"), COLON, Piece(Num, "2"), NEWLINE, ROOT, NEWLINE]

  /** What that lexes into. */
  const LEAF_LEXED: seq<Piece> := [Piece(Sys, "\\d .a.b"), NEWLINE, Piece(Num, "1x:2"), NEWLINE, ROOT, NEWLINE]

  lemma HomeIsLine()
    ensures LineShaped("\\d .a.b")
  {
  }

  lemma LeafSpelled()
    ensures Spelled(LEAF) && OneBlock(LEAF, 5)
  {
    var t := ".a.b.1x";
    assert !IsDigit(t[0]) && !IsDigit(t[1]);
    NameShapedIs(t);
    RootIsLine();
    hide NameShaped, LineShaped, ROOT_LINE;
    var ps := LEAF;
    assert Clear(ps, 0) && Clear(ps, 1) && Clear(ps, 2) && Clear(ps, 3) && Clear(ps, 4) && Clear(ps, 5);
    assert Clear(ps, 6) && Clear(ps, 7);
  }

  lemma LeafLexedSpelled()
    ensures Spelled(LEAF_LEXED)
  {
    HomeIsLine();
    RootIsLine();
    hide LineShaped, ROOT_LINE;
    var ps := LEAF_LEXED;
    assert NumShaped("1x:2");
    assert Clear(ps, 0) && Clear(ps, 1) && Clear(ps, 2) && Clear(ps, 3) && Clear(ps, 4) && Clear(ps, 5);
  }

  lemma LeafMerges()
    ensures Concat(LEAF_WRITTEN) == Concat(LEAF_LEXED)
  {
    var front, xs, rest := LEAF_WRITTEN[..2], LEAF_WRITTEN[2..5], LEAF_WRITTEN[5..];
    assert LEAF_WRITTEN == front + xs + rest;
    assert LEAF_LEXED == front + [Piece(Num, "1x:2")] + rest;
    assert xs == [Piece(Name, "1x"), COLON, Piece(Num, "2")];
    assert xs[1..] == [COLON, Piece(Num, "2")] && xs[1..][1..] == [Piece(Num, "2")] && xs[1..][1..][1..] == [];
    assert Concat([Piece(Num, "2")]) == "2";
    assert Concat([COLON, Piece(Num, "2")]) == ":2";
    assert Concat(xs) == "1x:2";
    Merged(front, xs, Piece(Num, "1x:2"), rest);
  }

  const LEAF_USE: Use := NumberUse(2)
  const LEAF_PARSE: Statement := NumberAssign(2)

  function NumberUse(k: nat): Use { Use(0, k, None, Assign, false, false) }

  /** `name:number`, its name at token `k`. */
  function NumberAssign(k: nat): Statement { Parsed([NumberUse(k)], [], [], None) }

  lemma NumberParse(c: Code)
    requires |c| == 3 && c[0].kind == Name && PlainName(c[0].text)
    requires c[1].kind == Op && c[1].text == ":" && c[2].kind == Num && (c[2].text == "1" || c[2].text == "2")
    ensures ParseCode(c) == NumberAssign(c[0].idx)
  {
    var use := NumberUse(c[0].idx);
    forall p: nat | p < 3 ensures NoBracket(c, p) { assert p == 0 || p == 1 || p == 2; }
    NoBrackets(c);
    var m := MatchAll(c);
    assert Pairs(c, m) && AssignedName(c) && Assigned(c) == AtTop([use]);
    hide Pairs, MatchAll, WalkStep, Walk, PlainName, NoBracket, ParseCode;
    AssignStep(c, m);
    OneRound(c, m, 0, START);
    ColonStep(c, m);
    OneRound(c, m, 1, Assigned(c));
    TopQuietStep(c, m, 2, [use]);
    OneRound(c, m, 2, AtTop([use]));
    WalkEnds(c, m, AtTop([use]));
    PlainParse(c, m, [use]);
  }

  /** The parse of code that is no definition, when its walk ends at the top level. */
  lemma PlainParse(c: Code, m: Brackets, uses: seq<Use>)
    requires m == MatchAll(c) && m.Matched? && (|c| < 4 || c[2].text != "{") && Walk(c, m, 0, START) == AtTop(uses)
    ensures ParseCode(c) == Parsed(uses, [], [], None)
  {
    hide Walk, MatchAll;
  }

  lemma LeafTokens(toks: seq<Tok>)
    requires TokensOf(toks, LEAF)
    ensures |toks| == 8 && forall k :: 0 <= k < 8 ==> toks[k].kind == LEAF[k].kind && toks[k].text == LEAF[k].text
  {
    assert |LEAF| == 8;
    hide Starts, LEAF;
    forall k | 0 <= k < 8 ensures toks[k].kind == LEAF[k].kind && toks[k].text == LEAF[k].text {
      assert TokenIs(toks, LEAF, k);
    }
  }

  lemma LeafTexts(toks: seq<Tok>)
    requires TokensOf(toks, LEAF)
    ensures |toks| == 8 && toks[2].kind == Name && toks[5].kind == Nl && TextOf(toks, 2) == ".a.b.1x"
    ensures toks[3].text == ":" && toks[4].text == "2" && toks[5].text == "\n"
    ensures SigsAt(toks, [2, 3, 4]) == [Sig(Name, ".a.b.1x", 2), Sig(Op, ":", 3), Sig(Num, "2", 4)]
  {
    hide TokensOf;
    LeafTokens(toks);
    var c := SigsAt(toks, [2, 3, 4]);
    assert |c| == 3 && c[0] == SigOf(toks, 2) && c[1] == SigOf(toks, 3) && c[2] == SigOf(toks, 4);
  }

  lemma LeafParses(toks: seq<Tok>)
    requires |toks| == 8 && toks[5].kind == Nl
    requires SigsAt(toks, [2, 3, 4]) == [Sig(Name, ".a.b.1x", 2), Sig(Op, ":", 3), Sig(Num, "2", 4)]
    ensures Parse(toks, 2, 6) == LEAF_PARSE
  {
    hide ParseCode, SigsAt, Significant, PlainName;
    var c := SigsAt(toks, [2, 3, 4]);
    assert c[0] == SigOf(toks, 2) && c[1] == SigOf(toks, 3) && c[2] == SigOf(toks, 4);
    assert Picks(toks, 2, 6, [2, 3, 4]) by {
      forall k | 2 <= k < 6 && IsCode(toks[k].kind) ensures k in [2, 3, 4] { assert k == 2 || k == 3 || k == 4; }
      assert [2, 3, 4][0] == 2 && [2, 3, 4][1] == 3 && [2, 3, 4][2] == 4;
    }
    SignificantIs(toks, 2, 6, [2, 3, 4]);
    DottedIsPlain(".a.b.1x");
    NumberParse(c);
  }

  lemma LeafGoes(known: Known, toks: seq<Tok>)
    requires TextOf(toks, 2) == ".a.b.1x"
    ensures Goes(known, toks, LEAF_PARSE, "1x")
  {
    assert ".a.b.1x" == HOME + "." + "1x";
    AbsoluteLeaves(known, toks, LEAF_PARSE, LEAF_USE);
    hide UseStays, TextOf;
    assert Calls(toks, LEAF_PARSE, ".", true) == {};
  }

  lemma LeafShape(known: Known, toks: seq<Tok>, ss: seq<Stmt>)
    requires TokensOf(toks, LEAF) && OneBlock(LEAF, 5) && ss == StatementsOf(toks)
    ensures |toks| == 8 && IsFlat(toks) && BlockOf(toks, ss, 5) && |ss| == 3 && Ordered(toks, ss)
    ensures BlockMoved(known, toks, ss, HOME) && ss[1] == Stmt(2, 6, ".")
  {
    hide *;
    LeafTexts(toks);
    LeafParses(toks);
    BlockIsFlat(toks, LEAF, 5);
    OneBlockIs(toks, LEAF, 5);
    LeafGoes(known, toks);
    BlockGoes(known, toks, ss, 5, "1x");
    BlockBounds(toks, ss, 5);
  }

  /** No word of q starts with a digit. */
  lemma NumberIsFree()
    ensures !IsBuiltin("1x") && "1x" !in QSQL_START && "1x" !in QSQL_NEXT && '.' !in "1x"
  {
    var t := "1x";
    assert t[0] == '1';
    assert !IsPlainWord(t);
  }

  lemma LeafShortened(toks: seq<Tok>)
    requires |toks| == 8 && Parse(toks, 2, 6) == LEAF_PARSE && TextOf(toks, 2) == ".a.b.1x"
    ensures MovedText(toks, Stmt(2, 6, "."), HOME, 2) == "1x"
  {
    hide Parse, MovedText, ShortOf, IsBuiltin, QSQL_START, QSQL_NEXT;
    hide TextOf;
    assert LEAF_PARSE.uses == [LEAF_USE] && LEAF_USE.idx == 2 && ".a.b.1x" == HOME + "." + "1x";
    NumberIsFree();
    LeafIs([], LEAF_USE, "1x");
    TextAtToken(toks, 2);
    UseText(toks, Stmt(2, 6, "."), HOME, 0);
  }

  lemma LeafText(toks: seq<Tok>, k: nat)
    requires |toks| == 8 && 3 <= k < 6 && toks[k].text != "" && toks[k].text[0] != '.'
    ensures MovedText(toks, Stmt(2, 6, "."), HOME, k) == toks[k].text
  {
    hide MovedText, Shortened;
    Undotted(toks[k].text);
    NotShortened(toks, Stmt(2, 6, "."), HOME, k);
  }

  lemma LeafWrittenPiece(k: nat)
    requires k < 8
    ensures |LEAF| == 8 && |LEAF_WRITTEN| == 8
    ensures LEAF_WRITTEN[k] == Piece(LEAF[k].kind, if k == 0 then "\\d " + HOME else if k == 2 then "1x"
                                     else LEAF[k].text)
  {
    assert "\\d " + HOME == "\\d .a.b";
    hide ROOT_LINE;
  }

  lemma LeafIsWritten(known: Known, toks: seq<Tok>, ss: seq<Stmt>, out: seq<string>)
    requires TokensOf(toks, LEAF) && BlockOf(toks, ss, 5) && |ss| == 3 && Ordered(toks, ss)
    requires BlockMoved(known, toks, ss, HOME)
    requires NestTokens(known, toks, ss, out) && ss[1] == Stmt(2, 6, ".")
    ensures |out| == |toks| == 8 && Retexted(toks, out) == LEAF_WRITTEN
  {
    hide *;
    BlockIsWritten(known, toks, ss, 5, out);
    LeafTokens(toks);
    LeafTexts(toks);
    LeafParses(toks);
    LeafShortened(toks);
    LeafText(toks, 3);
    LeafText(toks, 4);
    LeafText(toks, 5);
    LeafWrittenPiece(0);
    forall k | 0 <= k < 8 ensures Retexted(toks, out)[k] == LEAF_WRITTEN[k] { LeafWrittenPiece(k); }
  }

  /** 5.0 writes `1x:2` where the source assigned `.a.b.1x`: what was a name, a
      colon and a number lexes into one number. */
  lemma LeafBecomesNumber(known: Known, allowComputed: bool)
    ensures var text, nested := Concat(LEAF), Concat(LEAF_WRITTEN);
            && LexOf(text).Lexed? && |LexOf(text).toks| == 8
            && LexOf(text).toks[2].kind == Name && LexOf(text).toks[2].text == ".a.b.1x"
            && Convert(known, allowComputed, Target.Nest, text) == Written(nested)
            && LexOf(nested).Lexed? && |LexOf(nested).toks| == 6
            && LexOf(nested).toks[2].kind == Num && LexOf(nested).toks[2].text == "1x:2"
  {
    hide *;
    var text := Concat(LEAF);
    LeafSpelled();
    SpelledLexes(LEAF);
    var toks := LexOf(text).toks;
    LeafShape(known, toks, StatementsOf(toks));
    LeafTexts(toks);
    TextAtToken(toks, 2);
    FlatFileNests(known, allowComputed, text);
    NestOutputTokens(known, toks);
    LeafIsWritten(known, toks, StatementsOf(toks), NestFrom(known, toks, StatementsOf(toks), 0, Texts(toks)));
    NestsInto(known, toks, LEAF_WRITTEN);
    LeafMerges();
    LeafLexedSpelled();
    SpelledLexes(LEAF_LEXED);
    NumberToken(LexOf(Concat(LEAF_LEXED)).toks);
  }

  lemma NumberToken(toks: seq<Tok>)
    requires TokensOf(toks, LEAF_LEXED)
    ensures |toks| == 6 && toks[2].kind == Num && toks[2].text == "1x:2"
  {
    assert TokenIs(toks, LEAF_LEXED, 2);
    hide Starts;
  }

  // ---- a name right after the operator `.`: `.a.b.y:.a.b.f..a.b.x`

  const DOT: Piece := Piece(Op, ".")

  const MERGE: seq<Piece> :=
    [ROOT, NEWLINE, Piece(Name, ".a.b.y"), COLON, Piece(Name, ".a.b.f"), DOT, Piece(Name, ".a.b.x"), NEWLINE, ROOT,
     NEWLINE]

  /** What 5.0 writes, token by token. */
  const MERGE_WRITTEN: seq<Piece> :=
    [Piece(Sys, "\\d .a.b"), NEWLINE, Piece(Name, "y"), COLON, Piece(Name, "f"), DOT, Piece(Name, "x"), NEWLINE, ROOT,
     NEWLINE]

  /** What that lexes into. */
  const MERGE_LEXED: seq<Piece> := [Piece(Sys, "\\d .a.b"), NEWLINE, Piece(Name, "y"), COLON, Piece(Name, "f.x"),
                                    NEWLINE, ROOT, NEWLINE]

  lemma MergeNames()
    ensures NameShaped(".a.b.y") && NameShaped(".a.b.f") && NameShaped(".a.b.x") && NameShaped("y") && NameShaped("f.x")
  {
    assert !IsDigit(".a.b.y"[0]) && !IsDigit(".a.b.y"[1]) && !IsDigit(".a.b.f"[1]) && !IsDigit(".a.b.x"[1]);
    NameShapedIs(".a.b.y");
    NameShapedIs(".a.b.f");
    NameShapedIs(".a.b.x");
    NameShapedIs("y");
    NameShapedIs("f.x");
  }

  lemma MergeSpelled()
    ensures Spelled(MERGE) && OneBlock(MERGE, 7)
  {
    MergeNames();
    RootIsLine();
    hide NameShaped, LineShaped, ROOT_LINE;
    var ps := MERGE;
    assert Clear(ps, 0) && Clear(ps, 1) && Clear(ps, 2) && Clear(ps, 3) && Clear(ps, 4);
    assert Clear(ps, 5) && Clear(ps, 6) && Clear(ps, 7) && Clear(ps, 8) && Clear(ps, 9);
  }

  lemma MergeLexedSpelled()
    ensures Spelled(MERGE_LEXED)
  {
    MergeNames();
    HomeIsLine();
    RootIsLine();
    hide NameShaped, LineShaped, ROOT_LINE;
    var ps := MERGE_LEXED;
    assert Clear(ps, 0) && Clear(ps, 1) && Clear(ps, 2) && Clear(ps, 3) && Clear(ps, 4) && Clear(ps, 5);
    assert Clear(ps, 6) && Clear(ps, 7);
  }

  lemma MergeMerges()
    ensures Concat(MERGE_WRITTEN) == Concat(MERGE_LEXED)
  {
    var front, xs, rest := MERGE_WRITTEN[..4], MERGE_WRITTEN[4..7], MERGE_WRITTEN[7..];
    assert MERGE_WRITTEN == front + xs + rest;
    assert MERGE_LEXED == front + [Piece(Name, "f.x")] + rest;
    assert xs == [Piece(Name, "f"), DOT, Piece(Name, "x")];
    assert xs[1..] == [DOT, Piece(Name, "x")] && xs[1..][1..] == [Piece(Name, "x")] && xs[1..][1..][1..] == [];
    assert Concat([Piece(Name, "x")]) == "x";
    assert Concat([DOT, Piece(Name, "x")]) == ".x";
    assert Concat(xs) == "f.x";
    Merged(front, xs, Piece(Name, "f.x"), rest);
  }

  const MERGE_CODE: Code := [Sig(Name, ".a.b.y", 2), Sig(Op, ":", 3), Sig(Name, ".a.b.f", 4), Sig(Op, ".", 5),
                             Sig(Name, ".a.b.x", 6)]
  const MERGE_AT: seq<nat> := [2, 3, 4, 5, 6]
  const M0: Use := Use(0, 2, None, Assign, false, false)
  const M1: Use := Use(2, 4, None, Ref, false, true)
  const M2: Use := Use(4, 6, None, Ref, false, false)
  const MERGE_PARSE: Statement := Parsed([M0, M1, M2], [], [], None)

  lemma MergeRoles(c: Code, m: Brackets)
    requires c == MERGE_CODE && m.Matched?
    ensures RoleOf(c, m, 2, TOP) == Ref && Called(c, 2) && RoleOf(c, m, 4, TOP) == Ref && !Called(c, 4)
    ensures TextAt(c, 4) != "[" && |c| == 5
  {
    assert TextAt(c, 3) == "." && TextAt(c, 4) == ".a.b.x" && TextAt(c, 1) == ":" && TextAt(c, 0) == ".a.b.y";
    assert TextAt(c, 5) == "";
  }

  lemma MergeBrackets(c: Code)
    requires c == MERGE_CODE
    ensures MatchAll(c) == Matched(map[], map[]) && Pairs(c, MatchAll(c)) && AssignedName(c)
    ensures Assigned(c) == AtTop([M0])
    ensures PlainName(".a.b.f") && PlainName(".a.b.x")
  {
    DottedIsPlain(".a.b.y");
    DottedIsPlain(".a.b.f");
    DottedIsPlain(".a.b.x");
    forall p: nat | p < 5 ensures NoBracket(c, p) { assert p == 0 || p == 1 || p == 2 || p == 3 || p == 4; }
    hide NoBracket, PlainName, MatchAll, Pairs;
    NoBrackets(c);
  }

  lemma MergeTop(c: Code)
    requires c == MERGE_CODE
    ensures c[2].kind == Name && c[2].text == ".a.b.f" && c[2].idx == 4 && c[3].kind == Op && c[3].text == "."
    ensures c[4].kind == Name && c[4].text == ".a.b.x" && c[4].idx == 6 && c[2].text != "{"
    ensures [M0] + [M1] == [M0, M1] && [M0, M1] + [M2] == [M0, M1, M2]
    ensures MERGE_PARSE == Parsed([M0, M1, M2], [], [], None)
    ensures M1 == Use(2, 4, None, Ref, false, true) && M2 == Use(4, 6, None, Ref, false, false)
  {
  }

  lemma AtTopHasFrame(uses: seq<Use>)
    ensures AtTop(uses).stack != []
  {
  }

  lemma MergeParse(c: Code)
    requires c == MERGE_CODE
    ensures ParseCode(c) == MERGE_PARSE
  {
    hide *;
    var m := MatchAll(c);
    MergeBrackets(c);
    MergeRoles(c, m);
    MergeTop(c);
    AssignStep(c, m);
    StartHasFrame();
    OneRound(c, m, 0, START);
    ColonStep(c, m);
    AtTopHasFrame([M0]);
    OneRound(c, m, 1, Assigned(c));
    TopUseStep(c, m, 2, [M0]);
    OneRound(c, m, 2, AtTop([M0]));
    AtTopHasFrame([M0, M1]);
    TopQuietStep(c, m, 3, [M0, M1]);
    OneRound(c, m, 3, AtTop([M0, M1]));
    TopUseStep(c, m, 4, [M0, M1]);
    OneRound(c, m, 4, AtTop([M0, M1]));
    AtTopHasFrame([M0, M1, M2]);
    WalkEnds(c, m, AtTop([M0, M1, M2]));
    PlainParse(c, m, [M0, M1, M2]);
  }

  lemma StartHasFrame()
    ensures START.stack != []
  {
  }

  lemma MergeTokens(toks: seq<Tok>)
    requires TokensOf(toks, MERGE)
    ensures |toks| == 10 && forall k :: 0 <= k < 10 ==> toks[k].kind == MERGE[k].kind && toks[k].text == MERGE[k].text
  {
    assert |MERGE| == 10;
    hide Starts, MERGE;
    forall k | 0 <= k < 10 ensures toks[k].kind == MERGE[k].kind && toks[k].text == MERGE[k].text {
      assert TokenIs(toks, MERGE, k);
    }
  }

  lemma MergeTexts(toks: seq<Tok>)
    requires TokensOf(toks, MERGE)
    ensures |toks| == 10 && toks[2].kind == Name && toks[7].kind == Nl && toks[7].text == "\n"
    ensures TextOf(toks, 2) == ".a.b.y" && TextOf(toks, 4) == ".a.b.f" && TextOf(toks, 6) == ".a.b.x"
    ensures toks[3].text == ":" && toks[5].text == "." && forall k :: 2 <= k < 7 ==> IsCode(toks[k].kind)
    ensures SigsAt(toks, MERGE_AT) == MERGE_CODE
  {
    MergeTokens(toks);
    hide TokensOf, SigsAt, MERGE_AT;
    MergeSigs(toks, SigsAt(toks, MERGE_AT));
  }

  lemma MergeSigs(toks: seq<Tok>, c: Code)
    requires c == SigsAt(toks, MERGE_AT)
    ensures c == [SigOf(toks, 2), SigOf(toks, 3), SigOf(toks, 4), SigOf(toks, 5), SigOf(toks, 6)]
  {
    hide SigOf;
    assert |c| == 5 && c[0] == SigOf(toks, 2) && c[1] == SigOf(toks, 3) && c[2] == SigOf(toks, 4);
    assert c[3] == SigOf(toks, 5) && c[4] == SigOf(toks, 6);
    hide SigsAt;
  }

  lemma MergePicks(toks: seq<Tok>)
    requires |toks| == 10 && toks[7].kind == Nl && forall k :: 2 <= k < 7 ==> IsCode(toks[k].kind)
    ensures Picks(toks, 2, 8, MERGE_AT)
  {
    assert |MERGE_AT| == 5 && forall i :: 0 <= i < 5 ==> MERGE_AT[i] == i + 2;
    hide IsCode, MERGE_AT;
    forall k | 2 <= k < 8 && IsCode(toks[k].kind) ensures k in MERGE_AT {
      assert k != 7 by { NewlineIsNoCode(); }
      assert MERGE_AT[k - 2] == k;
    }
  }

  lemma NewlineIsNoCode()
    ensures !IsCode(Nl)
  {
  }

  lemma MergeParses(toks: seq<Tok>)
    requires |toks| == 10 && toks[7].kind == Nl && SigsAt(toks, MERGE_AT) == MERGE_CODE
    requires forall k :: 2 <= k < 7 ==> IsCode(toks[k].kind)
    ensures Parse(toks, 2, 8) == MERGE_PARSE
  {
    hide Picks, ParseCode, SigsAt, Significant;
    MergePicks(toks);
    SignificantIs(toks, 2, 8, MERGE_AT);
    MergeParse(SigsAt(toks, MERGE_AT));
  }

  lemma MergeUses()
    ensures MERGE_PARSE.Parsed? && MERGE_PARSE.uses == [M0, M1, M2] && MERGE_PARSE.lookups == []
    ensures MERGE_PARSE.lams == []
    ensures M0.idx == 2 && M1.idx == 4 && M2.idx == 6 && M0.role == Assign && M1.role == Ref && M2.role == Ref
    ensures M0.lam.None? && M1.lam.None? && M2.lam.None? && M1.called && !M2.called
    ensures !M0.columnCtx && !M1.columnCtx && !M2.columnCtx
  {
  }

  /** The one function the statement calls while its file loads. */
  lemma MergeCalls(toks: seq<Tok>)
    requires TextOf(toks, 4) == ".a.b.f"
    ensures MERGE_PARSE.Parsed? && forall f :: f in Calls(toks, MERGE_PARSE, ".", true) ==> f == ".a.b.f"
  {
    MergeUses();
    hide MERGE_PARSE, M0, M1, M2, TextOf, IsBuiltin, IsLocalIn;
    assert Qualified(".", ".a.b.f") == ".a.b.f";
    forall i | 0 <= i < 3 && IsCall(toks, MERGE_PARSE, MERGE_PARSE.uses[i], true) ensures i == 1 {
      assert i == 0 || i == 1 || i == 2;
    }
  }

  lemma MergeMovable(known: Known, toks: seq<Tok>)
    requires TextOf(toks, 2) == ".a.b.y" && TextOf(toks, 4) == ".a.b.f" && TextOf(toks, 6) == ".a.b.x"
    requires known.LevelOf(".a.b.f") == 0
    ensures MERGE_PARSE.Parsed? && !Unmovable(known, toks, MERGE_PARSE, HOME)
  {
    MergeUses();
    MergeCalls(toks);
    AbsoluteLeaves(known, toks, MERGE_PARSE, M0);
    AbsoluteLeaves(known, toks, MERGE_PARSE, M1);
    AbsoluteLeaves(known, toks, MERGE_PARSE, M2);
    hide UseStays, TextOf, MERGE_PARSE, M0, M1, M2, Calls, InlineIn;
    forall i | 0 <= i < |MERGE_PARSE.uses| ensures !UseStays(known, toks, MERGE_PARSE, MERGE_PARSE.uses[i], HOME) {
      assert i == 0 || i == 1 || i == 2;
    }
  }

  lemma MergeGoes(known: Known, toks: seq<Tok>)
    requires TextOf(toks, 2) == ".a.b.y" && TextOf(toks, 4) == ".a.b.f" && TextOf(toks, 6) == ".a.b.x"
    requires known.LevelOf(".a.b.f") == 0
    ensures Goes(known, toks, MERGE_PARSE, "y")
  {
    assert ".a.b.y" == HOME + "." + "y";
    MergeUses();
    MergeMovable(known, toks);
    hide TextOf, MERGE_PARSE, M0, M1, M2, Unmovable;
    forall i | 1 <= i < |MERGE_PARSE.uses| ensures !(MERGE_PARSE.uses[i].lam.None? && Amends(MERGE_PARSE.uses[i])) {
      assert i == 1 || i == 2;
    }
  }

  lemma MergeShape(known: Known, toks: seq<Tok>, ss: seq<Stmt>)
    requires TokensOf(toks, MERGE) && OneBlock(MERGE, 7) && ss == StatementsOf(toks) && known.LevelOf(".a.b.f") == 0
    ensures |toks| == 10 && IsFlat(toks) && BlockOf(toks, ss, 7) && |ss| == 3 && Ordered(toks, ss)
    ensures BlockMoved(known, toks, ss, HOME) && ss[1] == Stmt(2, 8, ".")
  {
    hide *;
    MergeTexts(toks);
    MergeParses(toks);
    BlockIsFlat(toks, MERGE, 7);
    OneBlockIs(toks, MERGE, 7);
    MergeGoes(known, toks);
    BlockGoes(known, toks, ss, 7, "y");
    BlockBounds(toks, ss, 7);
  }

  lemma MergeShortUse(u: Use, leaf: string)
    requires (u == M0 && leaf == "y") || (u == M1 && leaf == "f") || (u == M2 && leaf == "x")
    requires !IsBuiltin(leaf) && leaf !in QSQL_START && leaf !in QSQL_NEXT
    ensures MovedName([], u, HOME + "." + leaf, HOME) == leaf
  {
    hide IsBuiltin, ShortOf, QSQL_START, QSQL_NEXT;
    LeafIs([], u, leaf);
  }

  lemma MergeShortened(toks: seq<Tok>, i: nat, u: Use, leaf: string)
    requires |toks| == 10 && Parse(toks, 2, 8) == MERGE_PARSE && MERGE_PARSE.Parsed? && MERGE_PARSE.lams == []
    requires i < |MERGE_PARSE.uses| && u == MERGE_PARSE.uses[i] && u.idx < 10
    requires (u == M0 && leaf == "y") || (u == M1 && leaf == "f") || (u == M2 && leaf == "x")
    requires TextOf(toks, u.idx) == HOME + "." + leaf
    ensures MovedText(toks, Stmt(2, 8, "."), HOME, u.idx) == leaf
  {
    assert |leaf| == 1;
    hide *;
    LetterIsFree(leaf);
    TextAtToken(toks, u.idx);
    UseText(toks, Stmt(2, 8, "."), HOME, i);
    MergeShortUse(u, leaf);
  }

  lemma Leaves()
    ensures ".a.b.y" == HOME + "." + "y" && ".a.b.f" == HOME + "." + "f" && ".a.b.x" == HOME + "." + "x"
  {
  }

  lemma MergeLeaves(toks: seq<Tok>)
    requires |toks| == 10 && Parse(toks, 2, 8) == MERGE_PARSE
    requires TextOf(toks, 2) == ".a.b.y" && TextOf(toks, 4) == ".a.b.f" && TextOf(toks, 6) == ".a.b.x"
    ensures MovedText(toks, Stmt(2, 8, "."), HOME, 2) == "y" && MovedText(toks, Stmt(2, 8, "."), HOME, 4) == "f"
    ensures MovedText(toks, Stmt(2, 8, "."), HOME, 6) == "x"
  {
    hide *;
    Leaves();
    MergeUses();
    MergeShortened(toks, 0, M0, "y");
    MergeShortened(toks, 1, M1, "f");
    MergeShortened(toks, 2, M2, "x");
  }

  lemma MergeText(toks: seq<Tok>, k: nat)
    requires |toks| == 10 && Parse(toks, 2, 8) == MERGE_PARSE && (k == 3 || k == 5 || k == 7)
    ensures MovedText(toks, Stmt(2, 8, "."), HOME, k) == toks[k].text
  {
    MergeUses();
    hide Parse, MERGE_PARSE, MovedText, M0, M1, M2;
    UnusedText(toks, Stmt(2, 8, "."), HOME, k);
  }

  lemma MergeWrittenPiece(k: nat)
    requires k < 10
    ensures |MERGE| == 10 && |MERGE_WRITTEN| == 10
    ensures MERGE_WRITTEN[k] == Piece(MERGE[k].kind,
                if k == 0 then "\\d " + HOME else if k == 2 then "y" else if k == 4 then "f" else if k == 6 then "x"
                  else MERGE[k].text)
  {
    assert "\\d " + HOME == "\\d .a.b";
    hide ROOT_LINE;
  }

  lemma MergeIsWritten(known: Known, toks: seq<Tok>, ss: seq<Stmt>, out: seq<string>)
    requires TokensOf(toks, MERGE) && BlockOf(toks, ss, 7) && |ss| == 3 && Ordered(toks, ss)
    requires BlockMoved(known, toks, ss, HOME)
    requires NestTokens(known, toks, ss, out) && ss[1] == Stmt(2, 8, ".")
    ensures |out| == |toks| == 10 && Retexted(toks, out) == MERGE_WRITTEN
  {
    hide *;
    BlockIsWritten(known, toks, ss, 7, out);
    MergeTokens(toks);
    MergeTexts(toks);
    MergeParses(toks);
    MergeLeaves(toks);
    MergeText(toks, 3);
    MergeText(toks, 5);
    MergeText(toks, 7);
    MergeWrittenPiece(0);
    forall k | 0 <= k < 10 ensures Retexted(toks, out)[k] == MERGE_WRITTEN[k] { MergeWrittenPiece(k); }
  }

  lemma MergedToken(toks: seq<Tok>)
    requires TokensOf(toks, MERGE_LEXED)
    ensures |toks| == 8 && toks[4].kind == Name && toks[4].text == "f.x"
  {
    assert TokenIs(toks, MERGE_LEXED, 4);
    hide Starts;
  }

  /** Where `.a.b.f` is not known to look names up, 5.0 writes `y:f.x` for
      `.a.b.y:.a.b.f..a.b.x`: a function applied to an argument lexes into one name. */
  lemma ShortenedNamesMerge(known: Known, allowComputed: bool)
    requires known.LevelOf(".a.b.f") == 0
    ensures var text, nested := Concat(MERGE), Concat(MERGE_WRITTEN);
            && LexOf(text).Lexed? && |LexOf(text).toks| == 10 && TextOf(LexOf(text).toks, 5) == "."
            && Convert(known, allowComputed, Target.Nest, text) == Written(nested)
            && LexOf(nested).Lexed? && |LexOf(nested).toks| == 8
            && LexOf(nested).toks[4].kind == Name && LexOf(nested).toks[4].text == "f.x"
  {
    hide *;
    var text := Concat(MERGE);
    MergeSpelled();
    SpelledLexes(MERGE);
    var toks := LexOf(text).toks;
    MergeShape(known, toks, StatementsOf(toks));
    MergeTexts(toks);
    TextAtToken(toks, 5);
    FlatFileNests(known, allowComputed, text);
    NestOutputTokens(known, toks);
    MergeIsWritten(known, toks, StatementsOf(toks), NestFrom(known, toks, StatementsOf(toks), 0, Texts(toks)));
    NestsInto(known, toks, MERGE_WRITTEN);
    MergeMerges();
    MergeLexedSpelled();
    SpelledLexes(MERGE_LEXED);
    MergedToken(LexOf(Concat(MERGE_LEXED)).toks);
  }

  lemma MergeKnowsNothing(text: string)
    requires text == Concat(MERGE)
    ensures KnownOf([text]).LevelOf(".a.b.f") == 0
  {
    hide LexOf, MERGE, Concat, Spelled, KnownOf, TokensOf, StatementsOf, Valid, OneBlock;
    MergeSpelled();
    SpelledLexes(MERGE);
    OneCollected(text);
    var toks := LexOf(text).toks;
    MergeTexts(toks);
    OneBlockIs(toks, MERGE, 7);
    var ss := StatementsOf(toks);
    BlockShape(toks, ss, 7);
    BlockBounds(toks, ss, 7);
    BlockCollects(toks, ss, 7, NOTHING);
    MergeParses(toks);
    NothingDefined(toks);
  }

  lemma NothingDefined(toks: seq<Tok>)
    requires |toks| == 10 && Parse(toks, 2, 8) == MERGE_PARSE
    ensures CollectStatement(toks, Stmt(2, 8, "."), NOTHING).functions == map[]
  {
    hide Parse, CollectUses, Calls;
  }

  /** The same, the file being the whole project. */
  lemma ShortenedNamesMergeAlone(allowComputed: bool)
    ensures var text, nested := Concat(MERGE), Concat(MERGE_WRITTEN);
            && Convert(KnownOf([text]), allowComputed, Target.Nest, text) == Written(nested)
            && LexOf(nested).Lexed? && |LexOf(nested).toks| == 8
            && LexOf(nested).toks[4].kind == Name && LexOf(nested).toks[4].text == "f.x"
  {
    hide *;
    MergeKnowsNothing(Concat(MERGE));
    ShortenedNamesMerge(KnownOf([Concat(MERGE)]), allowComputed);
  }

  // ---- a context that is not one whole name: `\d .a.b"`

  const ODD_CONTEXT: string := ".a.b\""

  /** `\d .a.b"` and `x:1`. */
  const ODD: seq<Piece> := [Piece(Sys, "\\d .a.b\""), NEWLINE, Piece(Name, "x"), COLON, ONE, NEWLINE]

  /** What 4.0 writes, token by token. */
  const ODD_WRITTEN: seq<Piece> := [ROOT, NEWLINE, Piece(Name, ".a.b\".x"), COLON, ONE, NEWLINE]

  lemma OddLine()
    ensures LineShaped("\\d .a.b\"") && ContextOf("\\d .a.b\"") == Some(ODD_CONTEXT) && Nested(ODD_CONTEXT)
  {
    hide WordEnd, Strip, CountOf, LineShaped;
    var cmd := "\\d .a.b\"";
    assert cmd[..3] == "\\d " && cmd[..2] == "\\d" && cmd[2..] == " .a.b\"";
    WordIsD(cmd);
    StripsOne(cmd[2..], ODD_CONTEXT);
    CountDots();
    OddIsLine();
  }

  lemma CountDots()
    ensures CountOf(ODD_CONTEXT, '.') >= 2
  {
    var s := ODD_CONTEXT;
    assert s[1..] == "a.b\"" && s[1..][1..] == ".b\"";
    assert CountOf(".b\"", '.') >= 1;
    assert CountOf("a.b\"", '.') == CountOf(".b\"", '.');
  }

  lemma OddIsLine()
    ensures LineShaped("\\d .a.b\"")
  {
  }

  lemma XIsName()
    ensures NameShaped("x")
  {
    NameShapedIs("x");
  }

  lemma OddSpelled()
    ensures Spelled(ODD)
  {
    OddIsLine();
    XIsName();
    hide NameShaped, LineShaped;
    var ps := ODD;
    assert Clear(ps, 0) && Clear(ps, 1) && Clear(ps, 2) && Clear(ps, 3) && Clear(ps, 4) && Clear(ps, 5);
  }

  lemma OddTokens(toks: seq<Tok>)
    requires TokensOf(toks, ODD)
    ensures |toks| == 6 && forall k :: 0 <= k < 6 ==> toks[k].kind == ODD[k].kind && toks[k].text == ODD[k].text
    ensures forall k :: 0 <= k < 6 ==> (Starts(toks[k]) <==> k == 0 || k == 2)
  {
    assert |ODD| == 6;
    forall k | 0 <= k < 6
      ensures toks[k].kind == ODD[k].kind && toks[k].text == ODD[k].text && (Starts(toks[k]) <==> k == 0 || k == 2)
    {
      assert TokenIs(toks, ODD, k);
    }
  }

  lemma OddStarts(toks: seq<Tok>)
    requires |toks| == 6 && forall k :: 0 <= k < 6 ==> (Starts(toks[k]) <==> k == 0 || k == 2)
    ensures StartsFrom(toks, 0) == [0, 2]
  {
    hide Starts, StartsFrom;
    StartHere(toks, 0);
    SkipStarts(toks, 1, 2);
    StartHere(toks, 2);
    SkipStarts(toks, 3, 6);
    NoMoreStarts(toks);
  }

  lemma OddSpans(toks: seq<Tok>)
    requires |toks| == 6 && StartsFrom(toks, 0) == [0, 2]
    ensures var ss := StatementsOf(toks); |ss| == 2 && ss[0].lo == 0 && ss[0].hi == 2 && ss[1].lo == 2 && ss[1].hi == 6
  {
    hide StartsFrom, NextContext;
  }

  lemma OddSwitch(t: Tok, ctx: string)
    requires t.kind == Sys && t.text == "\\d .a.b\""
    ensures NextContext(t, ctx) == ODD_CONTEXT
  {
    OddLine();
    hide ContextOf;
  }

  lemma OddStatements(toks: seq<Tok>)
    requires TokensOf(toks, ODD)
    ensures |toks| == 6 && StatementsOf(toks) == [Stmt(0, 2, "."), Stmt(2, 6, ODD_CONTEXT)]
  {
    OddTokens(toks);
    assert ODD[0] == Piece(Sys, "\\d .a.b\"");
    hide *;
    OddStarts(toks);
    OddSpans(toks);
    StatementContext(toks, 0);
    StatementContext(toks, 1);
    OddSwitch(toks[0], ".");
  }

  lemma OddTexts(toks: seq<Tok>)
    requires TokensOf(toks, ODD)
    ensures |toks| == 6 && toks[0].kind == Sys && toks[0].text == "\\d .a.b\"" && toks[2].kind == Name
    ensures TextOf(toks, 2) == "x"
    ensures forall k :: 2 <= k < 5 ==> IsCode(toks[k].kind)
    ensures toks[5].kind == Nl && forall k :: 0 <= k < 6 ==> toks[k].kind != Str
    ensures SigOf(toks, 2) == Sig(Name, "x", 2) && SigOf(toks, 3) == Sig(Op, ":", 3)
    ensures SigOf(toks, 4) == Sig(Num, "1", 4)
  {
    OddTokens(toks);
    hide TokensOf;
  }

  lemma OddPicks(toks: seq<Tok>)
    requires |toks| == 6 && toks[5].kind == Nl && forall k :: 2 <= k < 5 ==> IsCode(toks[k].kind)
    ensures Picks(toks, 2, 6, [2, 3, 4])
  {
    var idxs := [2, 3, 4];
    hide IsCode;
    forall k | 2 <= k < 6 && IsCode(toks[k].kind) ensures k in idxs {
      assert k != 5 by { NewlineIsNoCode(); }
      assert idxs[k - 2] == k;
    }
  }

  lemma OddParses(toks: seq<Tok>)
    requires TokensOf(toks, ODD)
    ensures |toks| == 6 && Parse(toks, 2, 6) == LEAF_PARSE
  {
    OddTexts(toks);
    LetterIsPlain("x");
    hide TokensOf, Picks, Significant, ParseCode, SigOf, PlainName;
    OddPicks(toks);
    SignificantIs(toks, 2, 6, [2, 3, 4]);
    var c := SigsAt(toks, [2, 3, 4]);
    assert |c| == 3 && c[0] == SigOf(toks, 2) && c[1] == SigOf(toks, 3) && c[2] == SigOf(toks, 4);
    hide SigsAt;
    NumberParse(c);
  }

  /** The one use, bound in the odd context. */
  lemma OddBinding(toks: seq<Tok>, mine: set<string>)
    requires TextOf(toks, 2) == "x"
    ensures LEAF_PARSE.Parsed? && !RefusedFrom(toks, LEAF_PARSE, 0, mine)
    ensures forall k :: QualifiedFrom(toks, LEAF_PARSE, 0, mine, k) <==> k == 2
  {
    LetterIsFree("x");
    hide IsBuiltin, TextOf;
    assert LEAF_PARSE.uses == [LEAF_USE];
    assert BindingOf([], LEAF_USE, "x", mine) == Qualify;
    assert LEAF_PARSE.uses[0].idx == 2;
  }

  lemma OddLineFlat(known: Known, allowComputed: bool, toks: seq<Tok>, s: Stmt)
    requires |toks| == 6 && s == Stmt(0, 2, ".") && toks[0].kind == Sys && toks[0].text == "\\d .a.b\""
    ensures !FlatRefused(known, allowComputed, toks, s)
    ensures FlatText(known, toks, s, 0) == ROOT_LINE && FlatText(known, toks, s, 1) == toks[1].text
  {
    OddLine();
    hide ContextOf, Nested, ROOT_LINE, Parse, HidesSwitches, RefusedFrom, QualifiedFrom, LoadTimeHazard;
  }

  lemma OddNoHazard(known: Known, allowComputed: bool, toks: seq<Tok>, ctx: string)
    ensures LEAF_PARSE.Parsed? && !LoadTimeHazard(known, allowComputed, toks, LEAF_PARSE, ctx)
  {
    hide TextOf, Qualified, InlineIn, IsBuiltin, IsLocalIn;
    assert Calls(toks, LEAF_PARSE, ctx, true) == {};
  }

  lemma OddCodeFlat(known: Known, allowComputed: bool, toks: seq<Tok>, s: Stmt)
    requires |toks| == 6 && s == Stmt(2, 6, ODD_CONTEXT) && toks[2].kind == Name && Nested(ODD_CONTEXT)
    requires Parse(toks, 2, 6) == LEAF_PARSE && TextOf(toks, 2) == "x" && forall k :: 0 <= k < 6 ==> toks[k].kind != Str
    ensures !FlatRefused(known, allowComputed, toks, s)
    ensures forall k :: 2 <= k < 6 ==>
              FlatText(known, toks, s, k) == if k == 2 then ODD_CONTEXT + "." + "x" else toks[k].text
  {
    hide *;
    OddBinding(toks, known.DefinedIn(ODD_CONTEXT));
    OddNoHazard(known, allowComputed, toks, ODD_CONTEXT);
    NameIsCode(toks, s);
    NoStrings(toks, s);
    CodeAccepted(known, allowComputed, toks, s, LEAF_PARSE);
    forall k | 2 <= k < 6
      ensures FlatText(known, toks, s, k) == if k == 2 then ODD_CONTEXT + "." + "x" else toks[k].text
    {
      TextAtToken(toks, 2);
      CodeText(known, toks, s, LEAF_PARSE, k);
    }
  }

  lemma NameIsCode(toks: seq<Tok>, s: Stmt)
    requires s.lo < |toks| && toks[s.lo].kind == Name
    ensures IsCodeStatement(toks, s)
  {
  }

  lemma NoStrings(toks: seq<Tok>, s: Stmt)
    requires s.lo < s.hi <= |toks| && forall k :: s.lo <= k < s.hi ==> toks[k].kind != Str
    ensures !HidesSwitches(toks, s.lo, s.hi)
  {
    hide HidesSwitch;
  }

  lemma CodeAccepted(known: Known, allowComputed: bool, toks: seq<Tok>, s: Stmt, st: Statement)
    requires s.lo < s.hi <= |toks| && IsCodeStatement(toks, s) && st == Parse(toks, s.lo, s.hi) && st.Parsed?
    requires !HidesSwitches(toks, s.lo, s.hi) && !LoadTimeHazard(known, allowComputed, toks, st, s.ctx)
    requires !RefusedFrom(toks, st, 0, known.DefinedIn(s.ctx))
    ensures !FlatRefused(known, allowComputed, toks, s)
  {
    hide Parse, HidesSwitches, LoadTimeHazard, RefusedFrom, Nested, ContextOf;
  }

  lemma CodeText(known: Known, toks: seq<Tok>, s: Stmt, st: Statement, k: nat)
    requires s.lo <= k < s.hi <= |toks| && IsCodeStatement(toks, s) && st == Parse(toks, s.lo, s.hi) && st.Parsed?
    requires Nested(s.ctx)
    ensures FlatText(known, toks, s, k)
            == if QualifiedFrom(toks, st, 0, known.DefinedIn(s.ctx), k) then s.ctx + "." + toks[k].text
              else toks[k].text
  {
    hide Parse, QualifiedFrom, Nested, ContextOf, ROOT_LINE;
  }

  lemma OddNested()
    ensures Nested(ODD_CONTEXT)
  {
    OddLine();
    hide Nested, ContextOf;
  }

  lemma OddWrittenPiece(k: nat)
    requires k < 6
    ensures |ODD| == 6 && |ODD_WRITTEN| == 6
    ensures ODD_WRITTEN[k] == Piece(ODD[k].kind, if k == 0 then ROOT_LINE else if k == 2 then ODD_CONTEXT + "." + "x"
                                    else ODD[k].text)
  {
    assert ODD_CONTEXT + "." + "x" == ".a.b\".x";
    hide ROOT_LINE;
  }

  lemma OddIsWritten(known: Known, allowComputed: bool, toks: seq<Tok>)
    requires TokensOf(toks, ODD)
    ensures var cv := ConvertToks(known, allowComputed, Flat, toks);
            |cv.out| == |toks| && !cv.refused && Retexted(toks, cv.out) == ODD_WRITTEN
  {
    OddStatements(toks);
    var ss := StatementsOf(toks);
    assert |ss| == 2 && ss[0] == Stmt(0, 2, ".") && ss[1] == Stmt(2, 6, ODD_CONTEXT);
    hide *;
    OddTexts(toks);
    OddParses(toks);
    OddNested();
    OddLineFlat(known, allowComputed, toks, ss[0]);
    OddCodeFlat(known, allowComputed, toks, ss[1]);
    OddOut(known, allowComputed, toks, ss);
  }

  /** The output, from what each statement says of its tokens. */
  lemma OddOut(known: Known, allowComputed: bool, toks: seq<Tok>, ss: seq<Stmt>)
    requires TokensOf(toks, ODD) && |toks| == 6 && ss == StatementsOf(toks)
    requires |ss| == 2 && ss[0] == Stmt(0, 2, ".") && ss[1] == Stmt(2, 6, ODD_CONTEXT)
    requires !FlatRefused(known, allowComputed, toks, ss[0]) && !FlatRefused(known, allowComputed, toks, ss[1])
    requires FlatText(known, toks, ss[0], 0) == ROOT_LINE && FlatText(known, toks, ss[0], 1) == toks[1].text
    requires forall k :: 2 <= k < 6 ==>
               FlatText(known, toks, ss[1], k) == if k == 2 then ODD_CONTEXT + "." + "x" else toks[k].text
    ensures var cv := ConvertToks(known, allowComputed, Flat, toks);
            |cv.out| == |toks| && !cv.refused && Retexted(toks, cv.out) == ODD_WRITTEN
  {
    assert Ordered(toks, ss);
    hide *;
    FlatOutput(known, allowComputed, toks);
    OddTokens(toks);
    OddWrittenPiece(0);
    var out := ConvertToks(known, allowComputed, Flat, toks).out;
    forall k | 0 <= k < 6 ensures Retexted(toks, out)[k] == ODD_WRITTEN[k] {
      OddWrittenPiece(k);
      OutAt(known, toks, ss, out, k, if k < 2 then 0 else 1);
    }
  }

  lemma OutAt(known: Known, toks: seq<Tok>, ss: seq<Stmt>, out: seq<string>, k: nat, j: nat)
    requires Ordered(toks, ss) && |out| == |toks| && k < |toks| && FlatAt(known, toks, ss, out, k) && j < |ss|
    requires ss[j].lo <= k < ss[j].hi
    ensures out[k] == FlatText(known, toks, ss[j], k)
  {
    hide FlatText;
  }

  // ---- the output does not lex

  /** The output's pieces up to the quote, and the rest. */
  const ODD_TAIL: seq<Piece> := [ROOT, NEWLINE, Piece(Name, ".a.b"), Piece(Str, "\".x:1\n")]

  lemma OddTailSpells()
    ensures Concat(ODD_WRITTEN) == Concat(ODD_TAIL)
  {
    var front, xs, ys := ODD_WRITTEN[..2], ODD_WRITTEN[2..], ODD_TAIL[2..];
    assert ODD_WRITTEN == front + xs && ODD_TAIL == front + ys;
    assert xs == [Piece(Name, ".a.b\".x"), COLON, ONE, NEWLINE] && ys == [Piece(Name, ".a.b"), Piece(Str, "\".x:1\n")];
    assert xs[1..] == [COLON, ONE, NEWLINE] && xs[1..][1..] == [ONE, NEWLINE] && xs[1..][1..][1..] == [NEWLINE];
    assert ys[1..] == [Piece(Str, "\".x:1\n")];
    assert Concat([NEWLINE]) == "\n";
    assert Concat([ONE, NEWLINE]) == "1\n";
    assert Concat([COLON, ONE, NEWLINE]) == ":1\n";
    assert Concat(xs) == ".a.b\".x:1\n";
    assert Concat(ys[1..]) == "\".x:1\n";
    assert Concat(ys) == ".a.b\".x:1\n";
    ConcatAppend(front, xs);
    ConcatAppend(front, ys);
  }

  lemma TailNeverCloses()
    ensures NeverCloses("\".x:1\n")
  {
    var s := "\".x:1\n";
    assert |s| == 6;
    assert StrEnd(s, 6) == 7 && StrEnd(s, 5) == 7 && StrEnd(s, 4) == 7;
    assert StrEnd(s, 3) == 7 && StrEnd(s, 2) == 7 && StrEnd(s, 1) == 7;
  }

  lemma OddTailClear()
    ensures |ODD_TAIL| == 4 && (forall i :: 0 <= i < 4 ==> ODD_TAIL[i].text != "")
    ensures forall i :: 0 <= i < 3 ==> Clear(ODD_TAIL, i)
  {
    var t := ".a.b";
    assert !IsDigit(t[0]) && !IsDigit(t[1]);
    NameShapedIs(t);
    RootIsLine();
    assert ROOT_LINE != "";
    hide NameShaped, LineShaped, ROOT_LINE;
    var ps := ODD_TAIL;
    assert Clear(ps, 0) && Clear(ps, 1) && Clear(ps, 2);
  }

  lemma OddUnclosed()
    ensures LexOf(Concat(ODD_WRITTEN)).Unclosed?
  {
    OddTailSpells();
    OddTailClear();
    TailNeverCloses();
    assert ODD_TAIL[3].text == "\".x:1\n" && ODD_TAIL[0..] == ODD_TAIL;
    hide Concat, CutAll, ODD_WRITTEN, ODD_TAIL, Clear, NeverCloses;
    OpenTail(ODD_TAIL, 0, LineStart);
  }

  /** THE ODD CONTEXT. 4.0 accepts `\d .a.b"` with `x:1` in it, whatever the
      inputs define, and what it writes does not lex: the quote opens a string. */
  lemma OddContextBreaksLexing(known: Known, allowComputed: bool)
    ensures var text := Concat(ODD);
            && LexOf(text).Lexed?
            && Convert(known, allowComputed, Flat, text) == Written(Concat(ODD_WRITTEN))
            && LexOf(Concat(ODD_WRITTEN)).Unclosed?
  {
    hide *;
    OddSpelled();
    SpelledLexes(ODD);
    OddIsWritten(known, allowComputed, LexOf(Concat(ODD)).toks);
    FlatWrites(known, allowComputed, Concat(ODD), ODD_WRITTEN);
    OddUnclosed();
  }

  lemma FlatWrites(known: Known, allowComputed: bool, text: string, qs: seq<Piece>)
    requires LexOf(text).Lexed?
    requires var toks := LexOf(text).toks; var cv := ConvertToks(known, allowComputed, Flat, toks);
             |cv.out| == |toks| && !cv.refused && Retexted(toks, cv.out) == qs
    ensures Convert(known, allowComputed, Flat, text) == Written(Concat(qs))
  {
    hide LexOf, ConvertToks, Retexted, Join, Concat;
    JoinIsConcat(LexOf(text).toks, ConvertToks(known, allowComputed, Flat, LexOf(text).toks).out);
  }
}
