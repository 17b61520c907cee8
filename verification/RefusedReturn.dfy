/** Files that 5.0 nests and 4.0 then refuses: a function that assigns a reserved
    word, or a parameter by `::`, taken from its text through both passes. */
module RefusedReturn {
  import opened Options
  import opened Chars
  import opened Lexer
  import opened LexerProofs
  import opened QWords
  import opened Scanner
  import opened Converter
  import opened Layout
  import opened Flatten
  import opened FlattenLexing
  import opened Idempotence
  import opened Nesting
  import opened NestLexing
  import opened RunContexts
  import opened NestedFile
  import opened Moving
  import opened MovedStatements
  import opened RoundTrip
  import opened Returning
  import opened Evaluation

  const NEWLINE: Piece := Piece(Nl, "\n")
  const ROOT: Piece := Piece(Sys, ROOT_LINE)
  const F: Piece := Piece(Name, ".a.b.f")
  const COLON: Piece := Piece(Op, ":")
  const OPEN: Piece := Piece(Op, "{")
  const CLOSE: Piece := Piece(Op, "}")
  const ONE: Piece := Piece(Num, "1")

  lemma FIsName()
    ensures NameShaped(".a.b.f") && ".a.b.f" == HOME + "." + "f"
  {
    var t := ".a.b.f";
    assert !IsDigit(t[0]) && !IsDigit(t[1]);
    NameShapedIs(t);
  }

  lemma RootIsLine()
    ensures LineShaped(ROOT_LINE)
  {
  }

  // ---- functions that assign one word

  /** `\d .`, `.a.b.f:{word:1}` or `.a.b.f:{word::1}`, `\d .`. */
  function FunctionFile(word: string, op: string): seq<Piece> {
    [ROOT, NEWLINE, F, COLON, OPEN, Piece(Name, word), Piece(Op, op), ONE, CLOSE, NEWLINE, ROOT, NEWLINE]
  }

  /** The same in the context: `\d .a.b`, `f:{word:1}`, `\d .`. */
  function FunctionNested(word: string, op: string): seq<Piece> {
    [Piece(Sys, "\\d .a.b"), NEWLINE, Piece(Name, "f"), COLON, OPEN, Piece(Name, word), Piece(Op, op), ONE, CLOSE,
     NEWLINE, ROOT, NEWLINE]
  }

  lemma FileSpelled(word: string, op: string)
    requires NameShaped(word) && (op == ":" || op == "::")
    ensures Spelled(FunctionFile(word, op)) && OneBlock(FunctionFile(word, op), 9)
  {
    FIsName();
    RootIsLine();
    hide NameShaped, LineShaped, ROOT_LINE;
    var ps := FunctionFile(word, op);
    assert Clear(ps, 0) && Clear(ps, 1) && Clear(ps, 2) && Clear(ps, 3) && Clear(ps, 4) && Clear(ps, 5);
    assert Clear(ps, 6) && Clear(ps, 7) && Clear(ps, 8) && Clear(ps, 9) && Clear(ps, 10) && Clear(ps, 11);
  }

  /** The body assigns a word and a number: `{word:1}` or `{word::1}`. */
  predicate OneAssignment(c: Code, word: string, op: string) {
    && |c| == 7 && OpensFunction(c) && c[0].text == ".a.b.f"
    && c[3].kind == Name && c[3].text == word && c[4].kind == Op && c[4].text == op && c[5].kind == Num &&
      c[5].text == "1"
  }

  const BODY: Frame := Frame(InLambda, Some(0), NoPhrase, false)

  function Fun(locals: set<string>): Lambda { Lambda(false, None, false, {}, locals, 2, 6) }

  function FileUses(i: nat, k: nat, op: string): seq<Use> {
    [Use(0, i, None, Assign, false, false), Use(3, k, Some(0), if op == ":" then Assign else GAssign, false, false)]
  }

  /** What such a function parses to, its names being tokens `i` and `k`. */
  function FunctionParse(i: nat, k: nat, word: string, op: string): Statement {
    Parsed(FileUses(i, k, op), [], [Fun(if op == ":" then {word} else {})], Some(".a.b.f"))
  }

  lemma AssignmentParse(c: Code, word: string, op: string)
    requires OneAssignment(c, word, op) && (op == ":" || op == "::") && word != "" && word[0] != '.' && '.' !in word
    requires word !in QSQL_START && word !in {"get", "set", "insert", "upsert", "system"}
    ensures ParseCode(c) == FunctionParse(c[0].idx, c[3].idx, word, op)
  {
    hide *;
    AssignmentTokens(c, word, op);
    var m := MatchAll(c);
    var uses, l := FileUses(c[0].idx, c[3].idx, op), Fun(if op == ":" then {word} else {});
    FunctionParsed(c[0].idx, c[3].idx, word, op);
    HasFrames(BODY, Fun({}), [uses[0]]);
    HasFrames(BODY, l, uses);
    AssignmentBrackets(c, word, op);
    OpensBody(c, m);
    FirstUse(c, op);
    OneRound(c, m, 3, Opened(c));
    WordStep(c, m, word, op);
    OneRound(c, m, 4, Inside(BODY, l, uses));
    PlainStep(c, m, 4, l, uses);
    OneRound(c, m, 5, Inside(BODY, l, uses));
    PlainStep(c, m, 5, l, uses);
    OneRound(c, m, 6, Inside(BODY, l, uses));
    CloseStep(c, m, 6, BODY, l, uses);
    WalkEnds(c, m, Scan([TOP], [l], uses, [], false));
    ParsedAs(c, m, l, uses);
  }

  lemma HasFrames(f: Frame, l: Lambda, uses: seq<Use>)
    ensures Inside(f, l, uses).stack != []
  {
  }

  lemma FunctionParsed(i: nat, k: nat, word: string, op: string)
    ensures FunctionParse(i, k, word, op) == Parsed(FileUses(i, k, op), [], [Fun(if op == ":" then {word} else {})],
                                                    Some(".a.b.f"))
    ensures BODY.kind == InLambda && |FileUses(i, k, op)| == 2
  {
  }

  lemma FirstUse(c: Code, op: string)
    requires |c| == 7
    ensures Opened(c) == Inside(BODY, Fun({}), [FileUses(c[0].idx, c[3].idx, op)[0]])
  {
  }

  lemma WordStep(c: Code, m: Brackets, word: string, op: string)
    requires OneAssignment(c, word, op) && (op == ":" || op == "::") && word != "" && word[0] != '.' && '.' !in word
    requires word !in QSQL_START && word !in {"get", "set", "insert", "upsert", "system"} && Pairs(c, m) && |c| == 7
    ensures var uses := FileUses(c[0].idx, c[3].idx, op);
            WalkStep(c, m, 3, Inside(BODY, Fun({}), [uses[0]])) == (Inside(BODY, Fun(if op == ":" then {word} else {}),
                uses), 4)
  {
    AssignmentUse(c, m, word, op);
    hide Pairs, WalkStep, LookupLevel, RoleOf, Called, RelativeDotted, NextPhrase, QSQL_START;
    var uses := FileUses(c[0].idx, c[3].idx, op);
    UseStep(c, m, 3, BODY, Fun({}), [uses[0]], if op == ":" then Assign else GAssign);
    assert [uses[0]] + [uses[1]] == uses;
    assert {} + {word} == {word};
  }

  lemma PlainStep(c: Code, m: Brackets, pos: nat, l: Lambda, uses: seq<Use>)
    requires Pairs(c, m) && pos < |c|
    requires c[pos].kind == Num || (c[pos].kind == Op && (c[pos].text == ":" || c[pos].text == "::" ||
                                                          c[pos].text == "+"))
    ensures WalkStep(c, m, pos, Inside(BODY, l, uses)) == (Inside(BODY, l, uses), pos + 1)
  {
    hide Pairs, WalkStep;
    QuietStep(c, m, pos, BODY, l, uses);
  }

  lemma AssignmentTokens(c: Code, word: string, op: string)
    requires OneAssignment(c, word, op)
    ensures |c| == 7 && c[3].kind == Name && c[3].text == word && c[4].kind == Op && c[4].text == op && c[5].kind == Num
    ensures c[6].kind == Op && c[6].text == "}" && c[0].text == ".a.b.f" && OpensFunction(c)
  {
  }

  lemma AssignmentBrackets(c: Code, word: string, op: string)
    requires OneAssignment(c, word, op) && (op == ":" || op == "::")
    ensures MatchAll(c) == Matched(map[2 := 6], map[6 := 2]) && Pairs(c, MatchAll(c))
  {
    forall p: nat | p < 7 && p != 2 && p != 6 ensures NoBracket(c, p) {
      assert p == 0 || p == 1 || p == 3 || p == 4 || p == 5;
    }
    hide NoBracket, Pairs, MatchAll;
    OneBrace(c, 2, 6);
  }

  lemma AssignmentUse(c: Code, m: Brackets, word: string, op: string)
    requires OneAssignment(c, word, op) && (op == ":" || op == "::") && '.' !in word && m.Matched?
    requires word !in {"get", "set", "insert", "upsert", "system"}
    ensures LookupLevel(c, m, 3) == 0 && RoleOf(c, m, 3, BODY) == (if op == ":" then Assign else GAssign)
    ensures !Called(c, 3)
    ensures !RelativeDotted(word) && NextPhrase(NoPhrase, word) == NoPhrase
  {
    assert TextAt(c, 4) == op && TextAt(c, 2) == "{";
  }

  lemma WalkEnds(c: Code, m: Brackets, st: Scan)
    requires Pairs(c, m) && st.stack != []
    ensures Walk(c, m, |c|, st) == st
  {
  }

  lemma FileTokens(toks: seq<Tok>, word: string, op: string)
    requires TokensOf(toks, FunctionFile(word, op))
    ensures |toks| == 12 && forall k :: 0 <= k < 12 ==>
              toks[k].kind == FunctionFile(word, op)[k].kind && toks[k].text == FunctionFile(word, op)[k].text
  {
    var ps := FunctionFile(word, op);
    assert |ps| == 12;
    hide FunctionFile, Starts;
    forall k | 0 <= k < |ps| ensures toks[k].kind == ps[k].kind && toks[k].text == ps[k].text {
      assert TokenIs(toks, ps, k);
    }
  }

  lemma FilePicks(toks: seq<Tok>)
    requires |toks| == 12 && toks[9].kind == Nl && forall k :: 2 <= k < 9 ==> IsCode(toks[k].kind)
    ensures Picks(toks, 2, 10, [2, 3, 4, 5, 6, 7, 8])
  {
    var idxs := [2, 3, 4, 5, 6, 7, 8];
    forall k | 2 <= k < 10 && IsCode(toks[k].kind) ensures k in idxs {
      assert k != 9 && idxs[k - 2] == k;
    }
  }

  lemma FileCode(toks: seq<Tok>, word: string, op: string)
    requires TokensOf(toks, FunctionFile(word, op)) && word != "["
    ensures |toks| == 12 && OneAssignment(Significant(toks, 2, 10), word, op)
    ensures var c := Significant(toks, 2, 10); c[0].idx == 2 && c[3].idx == 5
  {
    hide *;
    FileSigs(toks, word, op);
    FilePicks(toks);
    SignificantIs(toks, 2, 10, [2, 3, 4, 5, 6, 7, 8]);
    SevenSigs(toks, SigsAt(toks, [2, 3, 4, 5, 6, 7, 8]));
    SevenAre(SigsAt(toks, [2, 3, 4, 5, 6, 7, 8]), word, op);
  }

  lemma SevenSigs(toks: seq<Tok>, c: Code)
    requires c == SigsAt(toks, [2, 3, 4, 5, 6, 7, 8])
    ensures |c| == 7 && forall i :: 0 <= i < 7 ==> c[i] == SigOf(toks, i + 2)
  {
    hide SigsAt, SigOf;
    var idxs := [2, 3, 4, 5, 6, 7, 8];
    forall i | 0 <= i < 7 ensures c[i] == SigOf(toks, i + 2) { assert idxs[i] == i + 2; }
  }

  lemma SevenAre(c: Code, word: string, op: string)
    requires |c| == 7 && word != "["
    requires c[0] == Sig(Name, ".a.b.f", 2) && c[1] == Sig(Op, ":", 3) && c[2] == Sig(Op, "{", 4)
    requires c[3] == Sig(Name, word, 5) && c[4] == Sig(Op, op, 6) && c[5] == Sig(Num, "1", 7) && c[6] == Sig(Op, "}", 8)
    ensures OneAssignment(c, word, op) && c[0].idx == 2 && c[3].idx == 5
  {
  }

  lemma FileSigs(toks: seq<Tok>, word: string, op: string)
    requires TokensOf(toks, FunctionFile(word, op))
    ensures |toks| == 12 && toks[9].kind == Nl && toks[9].text == "\n"
    ensures forall k :: 2 <= k < 9 ==> IsCode(toks[k].kind)
    ensures SigOf(toks, 2) == Sig(Name, ".a.b.f", 2) && SigOf(toks, 3) == Sig(Op, ":", 3)
    ensures SigOf(toks, 4) == Sig(Op, "{", 4)
    ensures SigOf(toks, 5) == Sig(Name, word, 5) && SigOf(toks, 6) == Sig(Op, op, 6)
    ensures SigOf(toks, 7) == Sig(Num, "1", 7) && SigOf(toks, 8) == Sig(Op, "}", 8)
  {
    FileTokens(toks, word, op);
    hide TokensOf;
  }

  /** The word is assigned as a local, or globally although it is one. */
  predicate Slips(word: string, op: string) {
    && NameShaped(word) && word !in QSQL_START && word !in {"get", "set", "insert", "upsert", "system"}
    && ((op == ":" && IsBuiltin(word)) || (op == "::" && word in IMPLICIT))
  }

  lemma SlipsIs(word: string, op: string)
    requires Slips(word, op)
    ensures word != "" && IsNameStart(word[0]) && '.' !in word && word != "["
  {
    NameStarts(word);
    if IsBuiltin(word) { BuiltinIsBare(word); }
    hide IsPlainWord;
  }

  lemma FileParse(toks: seq<Tok>, word: string, op: string)
    requires TokensOf(toks, FunctionFile(word, op)) && Slips(word, op)
    ensures |toks| == 12
    ensures Parse(toks, 2, 10) == FunctionParse(2, 5, word, op)
  {
    SlipsIs(word, op);
    FileCode(toks, word, op);
    hide TokensOf, Significant, ParseCode, IsBuiltin, NameShaped;
    AssignmentParse(Significant(toks, 2, 10), word, op);
  }

  lemma FileTexts(toks: seq<Tok>, word: string, op: string)
    requires TokensOf(toks, FunctionFile(word, op))
    ensures |toks| == 12 && TextOf(toks, 2) == ".a.b.f" && TextOf(toks, 5) == word
  {
    assert TokenIs(toks, FunctionFile(word, op), 2) && TokenIs(toks, FunctionFile(word, op), 5);
  }

  /** Nothing in the statement is held to stay at the root. */
  lemma FunctionGoes(known: Known, toks: seq<Tok>, word: string, op: string)
    requires Slips(word, op) && TextOf(toks, 2) == ".a.b.f" && TextOf(toks, 5) == word
    ensures Goes(known, toks, FunctionParse(2, 5, word, op), "f")
  {
    FIsName();
    hide Unmovable, IsBuiltin, NameShaped, QSQL_START, Slips, TextOf;
    FunctionMovable(known, toks, word, op);
  }

  lemma FunctionMovable(known: Known, toks: seq<Tok>, word: string, op: string)
    requires Slips(word, op) && TextOf(toks, 2) == ".a.b.f" && TextOf(toks, 5) == word
    ensures !Unmovable(known, toks, FunctionParse(2, 5, word, op), HOME)
  {
    var st := FunctionParse(2, 5, word, op);
    assert |st.uses| == 2 && st.definition.Some? && st.uses[0].idx == 2;
    AbsoluteLeaves(known, toks, st, st.uses[0]);
    LocalLeaves(known, toks, word, op);
    hide UseStays, Slips, TextOf, FunctionParse, Calls;
    forall i | 0 <= i < |st.uses| ensures !UseStays(known, toks, st, st.uses[i], HOME) { assert i == 0 || i == 1; }
  }

  lemma AbsoluteLeaves(known: Known, toks: seq<Tok>, st: Statement, use: Use)
    requires st.Parsed? && !IsRelative(TextOf(toks, use.idx))
    ensures !UseStays(known, toks, st, use, HOME)
  {
    hide IsBuiltin, IsLocalIn;
  }

  lemma LocalLeaves(known: Known, toks: seq<Tok>, word: string, op: string)
    requires Slips(word, op) && TextOf(toks, 5) == word
    ensures var st := FunctionParse(2, 5, word, op); !UseStays(known, toks, st, st.uses[1], HOME)
  {
    hide IsBuiltin, NameShaped, QSQL_START;
  }

  lemma FileGoes(known: Known, toks: seq<Tok>, word: string, op: string)
    requires TokensOf(toks, FunctionFile(word, op)) && Slips(word, op)
    ensures |toks| == 12 && Goes(known, toks, Parse(toks, 2, 10), "f")
  {
    hide TokensOf, Parse, Goes, Slips, FunctionParse, TextOf;
    FileParse(toks, word, op);
    FileTexts(toks, word, op);
    FunctionGoes(known, toks, word, op);
  }

  // ---- the file nested

  lemma FileShape(known: Known, toks: seq<Tok>, ss: seq<Stmt>, word: string, op: string)
    requires TokensOf(toks, FunctionFile(word, op)) && ss == StatementsOf(toks) && Slips(word, op)
    requires Spelled(FunctionFile(word, op))
    requires OneBlock(FunctionFile(word, op), 9)
    ensures |toks| == 12 && IsFlat(toks) && BlockOf(toks, ss, 9) && |ss| == 3 && Ordered(toks, ss)
    ensures BlockMoved(known, toks, ss, HOME)
    ensures ss[1] == Stmt(2, 10, ".")
  {
    BlockIsFlat(toks, FunctionFile(word, op), 9);
    OneBlockIs(toks, FunctionFile(word, op), 9);
    FileGoes(known, toks, word, op);
    BlockGoes(known, toks, ss, 9, "f");
    hide IsFlat, TokensOf, OneBlock, FunctionFile, StatementsOf, HomeIn, MovesTo, OpensRoot;
  }

  /** Only the function's name is shortened. */
  lemma FileLeaves(toks: seq<Tok>, word: string, op: string, k: nat)
    requires TokensOf(toks, FunctionFile(word, op)) && Slips(word, op) && 2 <= k < 10
    ensures |toks| == 12
    ensures MovedText(toks, Stmt(2, 10, "."), HOME, k) == if k == 2 then "f" else toks[k].text
    ensures k != 2 ==> !Shortened(toks, Stmt(2, 10, "."), HOME, k)
  {
    hide *;
    FileUndotted(toks, word, op);
    if k == 2 {
      FileHead(toks, word, op);
    } else {
      Undotted(toks[k].text);
      NotShortened(toks, Stmt(2, 10, "."), HOME, k);
    }
  }

  lemma Undotted(t: string)
    requires t != "" && t[0] != '.'
    ensures !(HOME + "." <= t)
  {
  }

  lemma FileUndotted(toks: seq<Tok>, word: string, op: string)
    requires TokensOf(toks, FunctionFile(word, op)) && Slips(word, op)
    ensures |toks| == 12 && forall k :: 3 <= k < 10 ==> toks[k].text != "" && toks[k].text[0] != '.'
  {
    FileSigs(toks, word, op);
    SlipsIs(word, op);
    hide TokensOf, Slips, FunctionFile;
    forall k | 3 <= k < 10 ensures toks[k].text != "" && toks[k].text[0] != '.' {
      assert k == 3 || k == 4 || k == 5 || k == 6 || k == 7 || k == 8 || k == 9;
      assert SigOf(toks, k).text == toks[k].text;
    }
  }

  lemma FileHead(toks: seq<Tok>, word: string, op: string)
    requires TokensOf(toks, FunctionFile(word, op)) && Slips(word, op)
    ensures |toks| == 12 && MovedText(toks, Stmt(2, 10, "."), HOME, 2) == "f"
  {
    FileParse(toks, word, op);
    FileTexts(toks, word, op);
    FIsName();
    LetterIsFree("f");
    HeadLeaf(toks, word, op);
  }

  lemma HeadLeaf(toks: seq<Tok>, word: string, op: string)
    requires |toks| == 12 && Parse(toks, 2, 10) == FunctionParse(2, 5, word, op) && TextOf(toks, 2) == HOME + "." + "f"
    requires !IsBuiltin("f") && "f" !in QSQL_START && "f" !in QSQL_NEXT
    ensures MovedText(toks, Stmt(2, 10, "."), HOME, 2) == "f"
  {
    hide *;
    HeadUse(word, op);
    TextAtToken(toks, 2);
    UseText(toks, Stmt(2, 10, "."), HOME, 0);
    ShortHead(FunctionParse(2, 5, word, op).lams, Use(0, 2, None, Assign, false, false));
  }

  lemma HeadUse(word: string, op: string)
    ensures var st := FunctionParse(2, 5, word, op);
            st.Parsed? && |st.uses| == 2 && st.uses[0] == Use(0, 2, None, Assign, false, false)
  {
  }

  lemma TextAtToken(toks: seq<Tok>, k: nat)
    requires k < |toks|
    ensures TextOf(toks, k) == toks[k].text
  {
  }

  lemma ShortHead(lams: seq<Lambda>, u: Use)
    requires u == Use(0, 2, None, Assign, false, false)
    requires !IsBuiltin("f") && "f" !in QSQL_START && "f" !in QSQL_NEXT
    ensures MovedName(lams, u, HOME + "." + "f", HOME) == "f"
  {
    hide IsBuiltin, ShortOf, QSQL_START, QSQL_NEXT;
    LeafIs(lams, u, "f");
  }

  lemma FileLeavesOwn(toks: seq<Tok>, word: string, op: string)
    requires TokensOf(toks, FunctionFile(word, op)) && Slips(word, op)
    ensures |toks| == 12 && LeavesOwn(toks, Stmt(2, 10, "."), HOME) && ParamsIn(toks, Stmt(2, 10, "."))
  {
    hide *;
    FileUndotted(toks, word, op);
    FileNewline(toks, word, op);
    forall k | 2 <= k < 10 && k != 2 ensures !Shortened(toks, Stmt(2, 10, "."), HOME, k) {
      FileLeaves(toks, word, op, k);
    }
    FileHead(toks, word, op);
    FIsBare();
    OneLeaf(toks, Stmt(2, 10, "."), HOME, 2);
    FileParams(toks, word, op);
  }

  lemma FIsBare()
    ensures StartsBare("f")
  {
  }

  lemma FileNewline(toks: seq<Tok>, word: string, op: string)
    requires TokensOf(toks, FunctionFile(word, op))
    ensures |toks| == 12 && toks[1].kind == Nl
  {
    FileTokens(toks, word, op);
    hide TokensOf;
  }

  lemma FileParams(toks: seq<Tok>, word: string, op: string)
    requires TokensOf(toks, FunctionFile(word, op)) && Slips(word, op)
    ensures |toks| == 12 && ParamsIn(toks, Stmt(2, 10, "."))
  {
    FileParse(toks, word, op);
    FunctionParams(word, op);
    hide TokensOf, Parse, Slips, FunctionParse, ParamsRelative;
  }

  lemma FunctionParams(word: string, op: string)
    ensures ParamsRelative(FunctionParse(2, 5, word, op).lams)
  {
  }

  /** The nested file, piece by piece. */
  lemma NestedPiece(word: string, op: string, k: nat)
    requires k < 12
    ensures |FunctionFile(word, op)| == 12 && |FunctionNested(word, op)| == 12
    ensures FunctionNested(word, op)[k] == Piece(FunctionFile(word, op)[k].kind,
                if k == 0 then "\\d " + HOME else if k == 2 then "f" else FunctionFile(word, op)[k].text)
  {
    assert "\\d " + HOME == "\\d .a.b";
    hide ROOT_LINE;
  }

  lemma FileWritten(known: Known, toks: seq<Tok>, ss: seq<Stmt>, word: string, op: string, out: seq<string>)
    requires TokensOf(toks, FunctionFile(word, op)) && Slips(word, op)
    requires BlockOf(toks, ss, 9) && |ss| == 3 && Ordered(toks, ss) && BlockMoved(known, toks, ss, HOME)
    requires NestTokens(known, toks, ss, out) && ss[1] == Stmt(2, 10, ".")
    ensures |out| == |toks| == 12 && Retexted(toks, out) == FunctionNested(word, op)
  {
    hide *;
    BlockIsWritten(known, toks, ss, 9, out);
    FileTokens(toks, word, op);
    NestedPiece(word, op, 0);
    forall k | 0 <= k < 12 ensures Retexted(toks, out)[k] == FunctionNested(word, op)[k] {
      NestedPiece(word, op, k);
      if 2 <= k < 10 { FileLeaves(toks, word, op, k); }
    }
  }

  /** The file as text, and what nesting makes of it. */
  lemma FileNests(known: Known, allowComputed: bool, word: string, op: string)
    requires Slips(word, op)
    ensures var text := Concat(FunctionFile(word, op));
            && LexOf(text).Lexed? && TokensOf(LexOf(text).toks, FunctionFile(word, op)) &&
              Spelled(FunctionFile(word, op))
            && OneBlock(FunctionFile(word, op), 9)
            && Convert(known, allowComputed, Flat, text) == Written(text)
            && Convert(known, allowComputed, Target.Nest, text) == Written(Concat(FunctionNested(word, op)))
            && NestedText(known, LexOf(text).toks) == Concat(FunctionNested(word, op))
  {
    hide *;
    var text := Concat(FunctionFile(word, op));
    SlipsShaped(word, op);
    FileSpelled(word, op);
    SpelledLexes(FunctionFile(word, op));
    var toks := LexOf(text).toks;
    FileShape(known, toks, StatementsOf(toks), word, op);
    FlatFileKept(known, allowComputed, text);
    FlatFileNests(known, allowComputed, text);
    NestOutputTokens(known, toks);
    FileWritten(known, toks, StatementsOf(toks), word, op, NestFrom(known, toks, StatementsOf(toks), 0, Texts(toks)));
    NestsInto(known, toks, FunctionNested(word, op));
  }

  lemma SlipsShaped(word: string, op: string)
    requires Slips(word, op)
    ensures NameShaped(word) && (op == ":" || op == "::")
  {
    hide NameShaped, IsBuiltin, QSQL_START;
  }

  lemma NestsInto(known: Known, toks: seq<Tok>, qs: seq<Piece>)
    requires var out := NestFrom(known, toks, StatementsOf(toks), 0, Texts(toks));
             |out| == |toks| && Retexted(toks, out) == qs
    ensures NestedText(known, toks) == Concat(qs)
  {
    hide NestFrom, StatementsOf, Retexted, Join, Concat;
    JoinIsConcat(toks, NestFrom(known, toks, StatementsOf(toks), 0, Texts(toks)));
  }

  // ---- and flattened again

  lemma WordRefused(word: string, op: string, mine: set<string>)
    requires Slips(word, op)
    ensures var st := FunctionParse(2, 5, word, op);
            && IsRelative(word) && BindingOf(st.lams, st.uses[1], word, mine) == Refuse
  {
    SlipsIs(word, op);
    hide IsPlainWord, NameShaped;
  }

  lemma WordKept(word: string, op: string, ctx: string)
    requires Slips(word, op) && ctx != "" && ctx[0] == '.'
    ensures var st := FunctionParse(2, 5, word, op); MovedName(st.lams, st.uses[1], word, ctx) == word
  {
    SlipsIs(word, op);
    hide IsBuiltin, NameShaped, Slips;
    assert !(ctx + "." <= word);
  }

  /** One refused use refuses the statement. */
  lemma UseRefuses(toks: seq<Tok>, st: Statement, mine: set<string>, i: nat)
    requires st.Parsed? && i < |st.uses| && BindingOf(st.lams, st.uses[i], TextOf(toks, st.uses[i].idx), mine) == Refuse
    ensures RefusedFrom(toks, st, 0, mine)
  {
    hide BindingOf, TextOf;
  }

  /** A nested statement with a refused use refuses its file. */
  lemma FileRefused(known: Known, allowComputed: bool, text: string, j: nat)
    requires LexOf(text).Lexed? && j < |StatementsOf(LexOf(text).toks)|
    requires var toks := LexOf(text).toks; var s := StatementsOf(toks)[j];
             && IsCodeStatement(toks, s) && Nested(s.ctx) && Parse(toks, s.lo, s.hi).Parsed?
             && RefusedFrom(toks, Parse(toks, s.lo, s.hi), 0, known.DefinedIn(s.ctx))
    ensures Convert(known, allowComputed, Flat, text) == Rejected
  {
    var toks := LexOf(text).toks;
    FlatOutput(known, allowComputed, toks);
    assert FlatRefused(known, allowComputed, toks, StatementsOf(toks)[j]);
    hide LexOf, StatementsOf, Parse, RefusedFrom, FlatRefused, ConvertToks, Nested;
  }

  /** The statement of the nested file, and its one refused use. */
  lemma NestedRefuses(known: Known, known': Known, toks: seq<Tok>, ss: seq<Stmt>, toks': seq<Tok>, word: string,
                      op: string)
    requires Nests(known, toks, ss, toks') && |ss| == 3 && ss[1] == Stmt(2, 10, ".")
    requires BlockMoved(known, toks, ss, HOME)
    requires |toks| == 12 && Slips(word, op) && Parse(toks, 2, 10) == FunctionParse(2, 5, word, op)
    requires TextOf(toks, 5) == word
    ensures |toks'| == 12 && Parse(toks', 2, 10).Parsed? && IsCodeStatement(toks', Stmt(2, 10, HOME))
    ensures RunsIn(known, toks, ss, 1) == HOME
    ensures RefusedFrom(toks', Parse(toks', 2, 10), 0, known'.DefinedIn(HOME))
  {
    hide *;
    HomeDotted();
    NestsAlike(known, toks, ss, toks');
    MovesHome(known, toks, ss);
    MovedSame(known, toks, ss, toks', 1);
    HeadUse(word, op);
    var st, st' := Parse(toks, 2, 10), Parse(toks', 2, 10);
    MovedIsParsed(known, toks, toks', st, st', HOME);
    WordUse(word, op);
    MovedUse(known, toks, toks', st, st', HOME, 1);
    WordKept(word, op, HOME);
    WordRefused(word, op, known'.DefinedIn(HOME));
    UseRefuses(toks', st', known'.DefinedIn(HOME), 1);
  }

  lemma NestsAlike(known: Known, toks: seq<Tok>, ss: seq<Stmt>, toks': seq<Tok>)
    requires Nests(known, toks, ss, toks')
    ensures Ordered(toks, ss) && |toks| == |toks'| && ss == StatementsOf(toks)
  {
    hide Nestled, StatementsOf, Valid, LeavesNamed, IsFlat, MovesTo, ParamsIn;
  }

  lemma HomeDotted()
    ensures HOME != "" && HOME[0] == '.'
  {
  }

  lemma WordUse(word: string, op: string)
    ensures var st := FunctionParse(2, 5, word, op); st.Parsed? && |st.uses| == 2 && st.uses[1].idx == 5
  {
  }

  lemma MovesHome(known: Known, toks: seq<Tok>, ss: seq<Stmt>)
    requires Ordered(toks, ss) && |ss| == 3 && BlockMoved(known, toks, ss, HOME)
    ensures MovesTo(known, toks, ss, 1) == Some(HOME)
  {
    hide MovesTo, HomeIn;
  }

  lemma FileNestable(known: Known, toks: seq<Tok>, word: string, op: string)
    requires TokensOf(toks, FunctionFile(word, op)) && Slips(word, op) && Spelled(FunctionFile(word, op))
    requires OneBlock(FunctionFile(word, op), 9)
    ensures var ss := StatementsOf(toks);
            && Nestable(known, toks) && |toks| == 12 && |ss| == 3 && Ordered(toks, ss) &&
              BlockMoved(known, toks, ss, HOME)
            && ss[1] == Stmt(2, 10, ".")
  {
    hide *;
    FileShape(known, toks, StatementsOf(toks), word, op);
    FileLeavesOwn(toks, word, op);
    BlockNestable(known, toks, StatementsOf(toks));
  }

  /** A function that assigns a reserved word, or assigns a parameter globally,
      is flat and accepted for 4.0; 5.0 moves its block into the context; and 4.0
      then refuses what 5.0 wrote, whatever either run knows. */
  lemma SlipsThenRefused(known: Known, known': Known, allowComputed: bool, word: string, op: string)
    requires Slips(word, op)
    ensures var text, nested := Concat(FunctionFile(word, op)), Concat(FunctionNested(word, op));
            && Convert(known, allowComputed, Flat, text) == Written(text)
            && Convert(known, allowComputed, Target.Nest, text) == Written(nested)
            && Convert(known', allowComputed, Flat, nested) == Rejected
  {
    hide *;
    var text := Concat(FunctionFile(word, op));
    FileNests(known, allowComputed, word, op);
    var toks := LexOf(text).toks;
    FileNestable(known, toks, word, op);
    NestsFile(known, text);
    FileParse(toks, word, op);
    FileTexts(toks, word, op);
    var nested := NestedText(known, toks);
    var toks' := LexOf(nested).toks;
    var ss, ss' := StatementsOf(toks), StatementsOf(toks');
    NestedRefuses(known, known', toks, ss, toks', word, op);
    NestsRunsIn(known, toks, ss, toks', ss', 1);
    SameAt(ss, ss', 1);
    HomeIsNested();
    FileRefused(known', allowComputed, nested, 1);
  }

  /** `.a.b.f:{value:1}`. */
  lemma ReservedMovesThenRefused(known: Known, known': Known, allowComputed: bool)
    ensures var text, nested := Concat(FunctionFile("value", ":")), Concat(FunctionNested("value", ":"));
            && Convert(known, allowComputed, Flat, text) == Written(text)
            && Convert(known, allowComputed, Target.Nest, text) == Written(nested)
            && Convert(known', allowComputed, Flat, nested) == Rejected
  {
    ValueSlips();
    hide *;
    SlipsThenRefused(known, known', allowComputed, "value", ":");
  }

  lemma ValueSlips()
    ensures Slips("value", ":")
  {
    NameShapedIs("value");
    assert "value" in READERS;
    hide NameShaped, IsPlainWord;
  }

  /** `.a.b.f:{x::1}`. */
  lemma GlobalAmendOfLocalRefused(known: Known, known': Known, allowComputed: bool)
    ensures var text, nested := Concat(FunctionFile("x", "::")), Concat(FunctionNested("x", "::"));
            && Convert(known, allowComputed, Flat, text) == Written(text)
            && Convert(known, allowComputed, Target.Nest, text) == Written(nested)
            && Convert(known', allowComputed, Flat, nested) == Rejected
  {
    ParameterSlips();
    hide *;
    SlipsThenRefused(known, known', allowComputed, "x", "::");
  }

  lemma ParameterSlips()
    ensures Slips("x", "::")
  {
    NameShapedIs("x");
    hide NameShaped, IsPlainWord;
  }
}
