/** A block that a bare `\\d` closes: what follows is left inside once the block has moved. */
module BareCloser {
  import opened Options
  import opened Chars
  import opened Lexer
  import opened LexerProofs
  import opened QWords
  import opened Scanner
  import opened Converter
  import opened Layout
  import opened Flatten
  import opened FlattenLexing
  import opened Meaning
  import opened Idempotence
  import opened Nesting
  import opened NestLexing
  import opened NestedFile
  import opened MovedStatements
  import opened Evaluation
  import opened RefusedReturn
  import opened BrokenLexing

  const BARE: Piece := Piece(Sys, "\\d")
  const TWO: Piece := Piece(Num, "2")

  /** `\\d .`, `.a.b.x:1`, `\\d`, `y:2`. */
  const BARELY: seq<Piece> :=
    [ROOT, NEWLINE, Piece(Name, ".a.b.x"), COLON, ONE, NEWLINE, BARE, NEWLINE, Piece(Name, "y"), COLON, TWO, NEWLINE]

  /** `\\d .a.b`, `x:1`, `\\d`, `y:2`. */
  const BARELY_NESTED: seq<Piece> :=
    [Piece(Sys, "\\d .a.b"), NEWLINE, Piece(Name, "x"), COLON, ONE, NEWLINE, BARE, NEWLINE, Piece(Name, "y"), COLON,
     TWO, NEWLINE]

  /** `\\d .`, `.a.b.x:1`, `\\d`, `.a.b.y:2`. */
  const BARELY_BACK: seq<Piece> :=
    [ROOT, NEWLINE, Piece(Name, ".a.b.x"), COLON, ONE, NEWLINE, BARE, NEWLINE, Piece(Name, ".a.b.y"), COLON, TWO,
     NEWLINE]

  // ---- the pieces

  /** A bare closing line is a context line, and names none. */
  lemma BareNamesNothing()
    ensures ContextOf("\\d") == Some("") && LineShaped("\\d")
  {
    var cmd := "\\d";
    assert forall i :: 0 <= i < 2 ==> !IsSpace(cmd[i]);
    assert WordEnd(cmd) == 2;
    assert cmd[..2] == "\\d" && cmd[2..] == "";
    assert Strip("") == "";
  }

  lemma HomeLine()
    ensures ContextOf("\\d .a.b") == Some(HOME) && LineShaped("\\d .a.b") && "\\d .a.b" == "\\d " + HOME
  {
    hide ContextOf, NameShaped, Nested;
    HomeIsNested();
    assert HOME[0] == '.' && "\\d .a.b" == "\\d " + HOME;
    SwitchLine(HOME);
    HomeIsLine();
  }

  lemma NamesAreNames()
    ensures NameShaped(".a.b.x") && NameShaped("x") && NameShaped("y")
    ensures ".a.b.x" == HOME + "." + "x" && ".a.b.y" == HOME + "." + "y"
  {
    assert !IsDigit(".a.b.x"[0]) && !IsDigit(".a.b.x"[1]);
    NameShapedIs(".a.b.x");
    NameShapedIs("x");
    NameShapedIs("y");
  }

  lemma BarelySpelled()
    ensures Spelled(BARELY)
  {
    hide NameShaped, LineShaped, ROOT_LINE, ContextOf;
    NamesAreNames();
    RootIsLine();
    BareNamesNothing();
    var ps := BARELY;
    assert Clear(ps, 0) && Clear(ps, 1) && Clear(ps, 2) && Clear(ps, 3) && Clear(ps, 4) && Clear(ps, 5);
    assert Clear(ps, 6) && Clear(ps, 7) && Clear(ps, 8) && Clear(ps, 9) && Clear(ps, 10) && Clear(ps, 11);
  }

  lemma NestedSpelled()
    ensures Spelled(BARELY_NESTED)
  {
    hide NameShaped, LineShaped, ContextOf;
    NamesAreNames();
    HomeLine();
    BareNamesNothing();
    var ps := BARELY_NESTED;
    assert Clear(ps, 0) && Clear(ps, 1) && Clear(ps, 2) && Clear(ps, 3) && Clear(ps, 4) && Clear(ps, 5);
    assert Clear(ps, 6) && Clear(ps, 7) && Clear(ps, 8) && Clear(ps, 9) && Clear(ps, 10) && Clear(ps, 11);
  }

  // ---- the tokens of either file

  /** Token by token either file, `head` and `name` being what differs. */
  ghost predicate HasPieces(toks: seq<Tok>, head: string, name: string) {
    && |toks| == 12
    && toks[0].kind == Sys && toks[0].text == head && toks[6].kind == Sys && toks[6].text == "\\d"
    && toks[1].kind == Nl && toks[5].kind == Nl && toks[7].kind == Nl && toks[11].kind == Nl
    && toks[1].text == "\n" && toks[5].text == "\n" && toks[7].text == "\n" && toks[11].text == "\n"
    && toks[2].kind == Name && toks[2].text == name && toks[8].kind == Name && toks[8].text == "y"
    && toks[3].kind == Op && toks[3].text == ":" && toks[9].kind == Op && toks[9].text == ":"
    && toks[4].kind == Num && toks[4].text == "1" && toks[10].kind == Num && toks[10].text == "2"
    && forall k :: 0 <= k < 12 ==> (Starts(toks[k]) <==> k == 0 || k == 2 || k == 6 || k == 8)
  }

  lemma BarelyTokens(toks: seq<Tok>)
    requires TokensOf(toks, BARELY)
    ensures HasPieces(toks, ROOT_LINE, ".a.b.x")
  {
    hide ROOT_LINE;
    assert |BARELY| == 12;
    forall k | 0 <= k < 12
      ensures toks[k].kind == BARELY[k].kind && toks[k].text == BARELY[k].text
              && (Starts(toks[k]) <==> k == 0 || k == 2 || k == 6 || k == 8)
    {
      assert TokenIs(toks, BARELY, k);
    }
  }

  lemma NestedTokens(toks: seq<Tok>)
    requires TokensOf(toks, BARELY_NESTED)
    ensures HasPieces(toks, "\\d .a.b", "x")
  {
    assert |BARELY_NESTED| == 12;
    forall k | 0 <= k < 12
      ensures toks[k].kind == BARELY_NESTED[k].kind && toks[k].text == BARELY_NESTED[k].text
              && (Starts(toks[k]) <==> k == 0 || k == 2 || k == 6 || k == 8)
    {
      assert TokenIs(toks, BARELY_NESTED, k);
    }
  }

  lemma FourStarts(toks: seq<Tok>)
    requires |toks| == 12 && forall k :: 0 <= k < 12 ==> (Starts(toks[k]) <==> k == 0 || k == 2 || k == 6 || k == 8)
    ensures StartsFrom(toks, 0) == [0, 2, 6, 8]
  {
    hide Starts, StartsFrom;
    StartHere(toks, 0);
    SkipStarts(toks, 1, 2);
    StartHere(toks, 2);
    SkipStarts(toks, 3, 6);
    StartHere(toks, 6);
    SkipStarts(toks, 7, 8);
    StartHere(toks, 8);
    SkipStarts(toks, 9, 12);
    NoMoreStarts(toks);
  }

  lemma FourSpans(toks: seq<Tok>)
    requires |toks| == 12 && StartsFrom(toks, 0) == [0, 2, 6, 8]
    ensures var ss := StatementsOf(toks);
            && |ss| == 4 && ss[0].lo == 0 && ss[0].hi == 2 && ss[1].lo == 2 && ss[1].hi == 6
            && ss[2].lo == 6 && ss[2].hi == 8 && ss[3].lo == 8 && ss[3].hi == 12
  {
    hide StartsFrom, NextContext;
  }

  /** The statements, the head line naming `home`. */
  predicate FourOf(ss: seq<Stmt>, home: string) {
    ss == [Stmt(0, 2, "."), Stmt(2, 6, home), Stmt(6, 8, home), Stmt(8, 12, home)]
  }

  lemma LineNames(t: Tok, ctx: string)
    requires t.kind == Sys && ContextOf(t.text).Some?
    ensures NextContext(t, ctx) == if ContextOf(t.text).value == "" then ctx else ContextOf(t.text).value
  {
    hide ContextOf;
  }

  lemma CodeNamesNothing(t: Tok, ctx: string)
    requires t.kind != Sys
    ensures NextContext(t, ctx) == ctx
  {
    hide ContextOf;
  }

  lemma FourStatements(toks: seq<Tok>, head: string, name: string, home: string)
    requires HasPieces(toks, head, name) && ContextOf(head) == Some(home) && home != ""
    ensures FourOf(StatementsOf(toks), home)
  {
    assert toks[2].kind != Sys && toks[0].kind == Sys && toks[6].kind == Sys;
    hide StatementsOf, ContextOf, NextContext, Starts;
    BareNamesNothing();
    FourStarts(toks);
    FourSpans(toks);
    StatementContext(toks, 0);
    StatementContext(toks, 1);
    StatementContext(toks, 2);
    StatementContext(toks, 3);
    LineNames(toks[0], ".");
    CodeNamesNothing(toks[2], home);
    LineNames(toks[6], home);
  }

  // ---- their parses

  lemma NumberPicks(toks: seq<Tok>, lo: nat)
    requires lo + 4 <= |toks| && toks[lo].kind == Name && toks[lo + 1].kind == Op && toks[lo + 2].kind == Num
    requires toks[lo + 3].kind == Nl
    ensures Picks(toks, lo, lo + 4, [lo, lo + 1, lo + 2])
  {
    var idxs := [lo, lo + 1, lo + 2];
    forall k | lo <= k < lo + 4 && IsCode(toks[k].kind) ensures k in idxs {
      assert k != lo + 3 by { NewlineIsNoCode(); }
      assert idxs[k - lo] == k;
    }
  }

  lemma NumberParses(toks: seq<Tok>, lo: nat)
    requires lo + 4 <= |toks| && toks[lo].kind == Name && PlainName(toks[lo].text)
    requires toks[lo + 1].kind == Op && toks[lo + 1].text == ":" && toks[lo + 3].kind == Nl
    requires toks[lo + 2].kind == Num && (toks[lo + 2].text == "1" || toks[lo + 2].text == "2")
    ensures Parse(toks, lo, lo + 4) == NumberAssign(lo)
  {
    hide Picks, Significant, ParseCode, PlainName, SigsAt;
    NumberPicks(toks, lo);
    SignificantIs(toks, lo, lo + 4, [lo, lo + 1, lo + 2]);
    var c := SigsAt(toks, [lo, lo + 1, lo + 2]);
    assert |c| == 3 && c[0] == SigOf(toks, lo) && c[1] == SigOf(toks, lo + 1) && c[2] == SigOf(toks, lo + 2) by {
      SigsAre(toks, lo);
    }
    NumberParse(c);
  }

  lemma SigsAre(toks: seq<Tok>, lo: nat)
    requires lo + 3 <= |toks|
    ensures var c := SigsAt(toks, [lo, lo + 1, lo + 2]);
            |c| == 3 && c[0] == SigOf(toks, lo) && c[1] == SigOf(toks, lo + 1) && c[2] == SigOf(toks, lo + 2)
  {
  }

  lemma BarelyParses(toks: seq<Tok>, head: string, name: string)
    requires HasPieces(toks, head, name) && PlainName(name)
    ensures Parse(toks, 2, 6) == NumberAssign(2) && Parse(toks, 8, 12) == NumberAssign(8)
  {
    hide PlainName, Parse;
    LetterIsPlain("y");
    NumberParses(toks, 2);
    NumberParses(toks, 8);
  }

  // ---- 5.0: the block moves

  /** How the block stands among the statements. */
  lemma BlockStands(toks: seq<Tok>, ss: seq<Stmt>)
    requires HasPieces(toks, ROOT_LINE, ".a.b.x") && FourOf(ss, ".")
    ensures Ordered(toks, ss) && |ss| == 4 && ss[1..2] == [ss[1]]
    ensures BlockStop(toks, ss, 1) == 2 && IsCandidate(toks, ss, 0, 2)
    ensures !OpensRoot(toks[ss[1].lo]) && !OpensRoot(toks[ss[2].lo]) && !OpensRoot(toks[ss[3].lo])
    ensures IsCodeStatement(toks, ss[1]) && IsCodeStatement(toks, ss[3])
    ensures !IsCodeStatement(toks, ss[0]) && !IsCodeStatement(toks, ss[2])
  {
    RootLine();
    BareNamesNothing();
    hide ContextOf, ROOT_LINE, Starts;
    assert ss[0].lo == 0 && ss[1].lo == 2 && ss[2].lo == 6 && ss[3].lo == 8;
    assert toks[2].kind == Name && toks[8].kind == Name;
  }

  lemma HeadsAre(toks: seq<Tok>, ss: seq<Stmt>)
    requires Ordered(toks, ss) && |ss| == 4 && toks[ss[0].lo].kind == Sys && toks[ss[2].lo].kind == Sys
    requires IsCodeStatement(toks, ss[1])
    ensures HeadBefore(toks, ss, 1) == Some(0) && HeadBefore(toks, ss, 3) == Some(2)
  {
  }

  lemma OnlyHeadsOpen(known: Known, toks: seq<Tok>, ss: seq<Stmt>, j: nat)
    requires Ordered(toks, ss) && j < |ss| && !OpensRoot(toks[ss[j].lo])
    ensures HomeIn(known, toks, ss, j).None?
  {
    if HomeIn(known, toks, ss, j).Some? { HomeOpens(known, toks, ss, j); }
    hide HomeIn, OpensRoot;
  }

  ghost predicate FirstMoves(known: Known, toks: seq<Tok>, ss: seq<Stmt>)
    requires Ordered(toks, ss) && |ss| == 4
  {
    && HomeIn(known, toks, ss, 0) == Some(HOME) && MovesTo(known, toks, ss, 1) == Some(HOME)
    && HomeIn(known, toks, ss, 2).None? && MovesTo(known, toks, ss, 3).None?
  }

  lemma XGoes(known: Known, toks: seq<Tok>)
    requires TextOf(toks, 2) == ".a.b.x"
    ensures Goes(known, toks, NumberAssign(2), "x")
  {
    assert ".a.b.x" == HOME + "." + "x";
    AbsoluteLeaves(known, toks, NumberAssign(2), NumberUse(2));
    hide UseStays, TextOf;
    assert Calls(toks, NumberAssign(2), ".", true) == {};
  }

  lemma FirstBlockMoves(known: Known, toks: seq<Tok>, ss: seq<Stmt>)
    requires HasPieces(toks, ROOT_LINE, ".a.b.x") && FourOf(ss, ".")
    ensures Ordered(toks, ss) && |ss| == 4 && FirstMoves(known, toks, ss)
  {
    hide Parse, HomeOf, Goes, IsCandidate, BlockStop, HeadBefore, PlainName, OpensRoot, Starts, IsCodeStatement, HOME;
    hide ROOT_LINE, NumberAssign;
    DottedIsPlain(".a.b.x");
    BarelyParses(toks, ROOT_LINE, ".a.b.x");
    assert toks[0].kind == Sys && toks[6].kind == Sys && toks[2].text == ".a.b.x";
    assert ss[0].lo == 0 && ss[1] == Stmt(2, 6, ".") && ss[2].lo == 6;
    BlockStands(toks, ss);
    HeadsAre(toks, ss);
    TextAtToken(toks, 2);
    XGoes(known, toks);
    GoesHome(known, toks, ss[1], "x");
    OnlyHeadsOpen(known, toks, ss, 2);
  }

  // ---- and is written anew

  lemma XShortened(toks: seq<Tok>)
    requires |toks| == 12 && Parse(toks, 2, 6) == NumberAssign(2) && toks[2].text == ".a.b.x"
    ensures MovedText(toks, Stmt(2, 6, "."), HOME, 2) == "x"
  {
    hide Parse, MovedText, ShortOf, IsBuiltin, QSQL_START, QSQL_NEXT, TextOf;
    assert NumberAssign(2).uses == [NumberUse(2)] && NumberUse(2).idx == 2 && ".a.b.x" == HOME + "." + "x";
    LetterIsFree("x");
    assert '.' !in "x";
    LeafIs([], NumberUse(2), "x");
    TextAtToken(toks, 2);
    UseText(toks, Stmt(2, 6, "."), HOME, 0);
  }

  lemma OthersAsTheyWere(toks: seq<Tok>, k: nat)
    requires HasPieces(toks, ROOT_LINE, ".a.b.x") && 3 <= k < 6
    ensures MovedText(toks, Stmt(2, 6, "."), HOME, k) == toks[k].text
  {
    assert toks[k].text != "" && toks[k].text[0] != '.' by { assert k == 3 || k == 4 || k == 5; }
    hide MovedText, Shortened, HasPieces;
    Undotted(toks[k].text);
    NotShortened(toks, Stmt(2, 6, "."), HOME, k);
  }

  lemma NestedPiece(k: nat)
    requires k < 12
    ensures |BARELY| == 12 && |BARELY_NESTED| == 12
    ensures BARELY_NESTED[k]
            == Piece(BARELY[k].kind, if k == 0 then "\\d " + HOME else if k == 2 then "x" else BARELY[k].text)
  {
    assert "\\d " + HOME == "\\d .a.b";
    hide ROOT_LINE;
  }

  lemma PlainPart(known: Known, toks: seq<Tok>, ss: seq<Stmt>, j: nat, k: nat)
    requires Ordered(toks, ss) && j < |ss| && ss[j].lo <= k < ss[j].hi
    requires MovesTo(known, toks, ss, j).None? && HomeIn(known, toks, ss, j).None?
    ensures NestText(known, toks, ss, j, k) == toks[k].text
  {
    hide HomeIn, MovesTo;
  }

  lemma HeadPart(known: Known, toks: seq<Tok>, ss: seq<Stmt>, k: nat)
    requires Ordered(toks, ss) && 0 < |ss| && ss[0].lo <= k < ss[0].hi && !IsCodeStatement(toks, ss[0])
    requires HomeIn(known, toks, ss, 0) == Some(HOME)
    ensures NestText(known, toks, ss, 0, k) == if k == ss[0].lo then "\\d " + HOME else toks[k].text
  {
    hide HomeIn, MovesTo;
  }

  lemma MovedPart(known: Known, toks: seq<Tok>, ss: seq<Stmt>, j: nat, k: nat)
    requires Ordered(toks, ss) && j < |ss| && ss[j].lo <= k < ss[j].hi && IsCodeStatement(toks, ss[j])
    requires MovesTo(known, toks, ss, j) == Some(HOME)
    ensures NestText(known, toks, ss, j, k) == MovedText(toks, ss[j], HOME, k)
  {
    hide HomeIn, MovesTo, MovedText;
  }

  lemma LastStays(known: Known, toks: seq<Tok>, ss: seq<Stmt>)
    requires HasPieces(toks, ROOT_LINE, ".a.b.x") && FourOf(ss, ".")
    ensures Ordered(toks, ss) && HomeIn(known, toks, ss, 3).None? && MovesTo(known, toks, ss, 2).None?
  {
    BlockStands(toks, ss);
    hide HasPieces, FourOf, HomeIn, OpensRoot, IsCandidate;
    OnlyHeadsOpen(known, toks, ss, 3);
  }

  lemma BarelyWrittenAt(known: Known, toks: seq<Tok>, ss: seq<Stmt>, out: seq<string>, k: nat)
    requires HasPieces(toks, ROOT_LINE, ".a.b.x") && FourOf(ss, ".") && Ordered(toks, ss) && |ss| == 4
    requires FirstMoves(known, toks, ss) && NestTokens(known, toks, ss, out) && k < 12
    ensures |out| == 12 && out[k] == if k == 0 then "\\d " + HOME else if k == 2 then "x" else toks[k].text
  {
    hide HomeIn, MovesTo, NestTokens, NestText, MovedText, Parse, BlockStop, IsCandidate, OpensRoot, Starts, PlainName;
    hide IsCodeStatement, ROOT_LINE, HOME;
    DottedIsPlain(".a.b.x");
    BarelyParses(toks, ROOT_LINE, ".a.b.x");
    BlockStands(toks, ss);
    LastStays(known, toks, ss);
    var j := if k < 2 then 0 else if k < 6 then 1 else if k < 8 then 2 else 3;
    assert ss[j].lo <= k < ss[j].hi && ss[0].lo == 0 && ss[1] == Stmt(2, 6, ".") && toks[2].text == ".a.b.x";
    assert |toks| == 12;
    TokenWritten(known, toks, ss, out, j, k);
    if k < 2 {
      HeadPart(known, toks, ss, k);
    } else if k < 6 {
      MovedPart(known, toks, ss, 1, k);
      if k == 2 { XShortened(toks); } else { OthersAsTheyWere(toks, k); }
    } else {
      PlainPart(known, toks, ss, j, k);
    }
  }

  lemma BarelyIsWritten(known: Known, toks: seq<Tok>, ss: seq<Stmt>, out: seq<string>)
    requires TokensOf(toks, BARELY) && FourOf(ss, ".") && Ordered(toks, ss) && |ss| == 4
    requires FirstMoves(known, toks, ss) && NestTokens(known, toks, ss, out)
    ensures |out| == |toks| == 12 && Retexted(toks, out) == BARELY_NESTED
  {
    hide *;
    BarelyTokens(toks);
    NestedPiece(0);
    PiecesAre(toks, 0);
    BarelyWrittenAt(known, toks, ss, out, 0);
    forall k | 0 <= k < 12 ensures Retexted(toks, out)[k] == BARELY_NESTED[k] {
      BarelyWrittenAt(known, toks, ss, out, k);
      NestedPiece(k);
      PiecesAre(toks, k);
    }
  }

  lemma PiecesAre(toks: seq<Tok>, k: nat)
    requires TokensOf(toks, BARELY) && k < 12
    ensures |toks| == 12 && |BARELY| == 12 && toks[k].kind == BARELY[k].kind && toks[k].text == BARELY[k].text
  {
    assert |BARELY| == 12;
    hide Starts;
    assert TokenIs(toks, BARELY, k);
  }

  // ---- 4.0: the assignment left inside is qualified

  lemma AssignBinds(toks: seq<Tok>, k: nat, mine: set<string>)
    requires k < |toks| && |toks[k].text| == 1 && toks[k].text[0] != '.'
    ensures NumberAssign(k).Parsed? && !RefusedFrom(toks, NumberAssign(k), 0, mine)
    ensures forall i :: QualifiedFrom(toks, NumberAssign(k), 0, mine, i) <==> i == k
  {
    var st := NumberAssign(k);
    LetterIsFree(toks[k].text);
    TextAtToken(toks, k);
    hide IsBuiltin, TextOf;
    assert st.uses == [NumberUse(k)] && NumberUse(k).idx == k;
    assert BindingOf([], NumberUse(k), toks[k].text, mine) == Qualify;
    assert st.uses[0].idx == k;
  }

  lemma AssignNoHazard(known: Known, allowComputed: bool, toks: seq<Tok>, k: nat, ctx: string)
    ensures NumberAssign(k).Parsed? && !LoadTimeHazard(known, allowComputed, toks, NumberAssign(k), ctx)
  {
    hide TextOf, Qualified, InlineIn, IsBuiltin, IsLocalIn;
    assert Calls(toks, NumberAssign(k), ctx, true) == {};
  }

  /** An assignment of one letter in the home. */
  lemma AssignFlat(known: Known, allowComputed: bool, toks: seq<Tok>, s: Stmt)
    requires s.lo + 4 == s.hi <= |toks| && s.ctx == HOME && toks[s.lo].kind == Name
    requires Parse(toks, s.lo, s.hi) == NumberAssign(s.lo) && |toks[s.lo].text| == 1 && toks[s.lo].text[0] != '.'
    requires forall k :: s.lo <= k < s.hi ==> toks[k].kind != Str
    ensures !FlatRefused(known, allowComputed, toks, s)
    ensures forall k :: s.lo <= k < s.hi ==>
              FlatText(known, toks, s, k) == if k == s.lo then HOME + "." + toks[k].text else toks[k].text
  {
    hide *;
    HomeIsNested();
    AssignBinds(toks, s.lo, known.DefinedIn(HOME));
    AssignNoHazard(known, allowComputed, toks, s.lo, HOME);
    NameIsCode(toks, s);
    NoStrings(toks, s);
    CodeAccepted(known, allowComputed, toks, s, NumberAssign(s.lo));
    forall k | s.lo <= k < s.hi
      ensures FlatText(known, toks, s, k) == if k == s.lo then HOME + "." + toks[k].text else toks[k].text
    {
      CodeText(known, toks, s, NumberAssign(s.lo), k);
    }
  }

  /** A context line: written as the root's if it names a nested context, and never refused. */
  lemma LineFlat(known: Known, allowComputed: bool, toks: seq<Tok>, s: Stmt, to: string)
    requires s.lo + 2 == s.hi <= |toks| && toks[s.lo].kind == Sys && ContextOf(toks[s.lo].text) == Some(to)
    requires to == "" || Nested(to)
    ensures !FlatRefused(known, allowComputed, toks, s) && FlatText(known, toks, s, s.lo + 1) == toks[s.lo + 1].text
    ensures FlatText(known, toks, s, s.lo) == if to == "" then toks[s.lo].text else ROOT_LINE
  {
    hide ContextOf, ROOT_LINE, Parse, HidesSwitches, RefusedFrom, QualifiedFrom, LoadTimeHazard;
  }

  lemma BackPiece(k: nat)
    requires k < 12
    ensures |BARELY_NESTED| == 12 && |BARELY_BACK| == 12
    ensures BARELY_BACK[k] == Piece(BARELY_NESTED[k].kind, BackText(k, BARELY_NESTED[k].text))
  {
    assert HOME + "." + "x" == ".a.b.x" && HOME + "." + "y" == ".a.b.y";
    hide ROOT_LINE;
  }

  /** What 4.0 writes for token `k`. */
  function BackText(k: nat, text: string): string {
    if k == 0 then ROOT_LINE else if k == 2 || k == 8 then HOME + "." + text else text
  }

  /** 4.0 accepts the statement, and writes its tokens so. */
  ghost predicate FlatSo(known: Known, allowComputed: bool, toks: seq<Tok>, s: Stmt)
    requires s.lo < s.hi <= |toks|
  {
    && !FlatRefused(known, allowComputed, toks, s)
    && forall k :: s.lo <= k < s.hi ==> FlatText(known, toks, s, k) == BackText(k, toks[k].text)
  }

  lemma LineSo(known: Known, allowComputed: bool, toks: seq<Tok>, s: Stmt, to: string)
    requires s.lo + 2 == s.hi <= |toks| && toks[s.lo].kind == Sys && ContextOf(toks[s.lo].text) == Some(to)
    requires if s.lo == 0 then Nested(to) else s.lo == 6 && to == ""
    ensures FlatSo(known, allowComputed, toks, s)
  {
    hide FlatText, FlatRefused, ContextOf, Nested, ROOT_LINE;
    if to == "" { NothingIsNotNested(); }
    LineFlat(known, allowComputed, toks, s, to);
    forall k | s.lo <= k < s.hi ensures FlatText(known, toks, s, k) == BackText(k, toks[k].text) {
      assert k == s.lo || k == s.lo + 1;
    }
  }

  lemma NothingIsNotNested()
    ensures !Nested("")
  {
  }

  lemma AssignSo(known: Known, allowComputed: bool, toks: seq<Tok>, s: Stmt)
    requires s.lo + 4 == s.hi <= |toks| && s.ctx == HOME && toks[s.lo].kind == Name && (s.lo == 2 || s.lo == 8)
    requires Parse(toks, s.lo, s.hi) == NumberAssign(s.lo) && |toks[s.lo].text| == 1 && toks[s.lo].text[0] != '.'
    requires forall k :: s.lo <= k < s.hi ==> toks[k].kind != Str
    ensures FlatSo(known, allowComputed, toks, s)
  {
    hide FlatText, FlatRefused, Parse, ROOT_LINE, HOME;
    AssignFlat(known, allowComputed, toks, s);
  }

  ghost predicate FlatAll(known: Known, allowComputed: bool, toks: seq<Tok>, ss: seq<Stmt>)
  {
    forall j :: 0 <= j < |ss| ==> ss[j].lo < ss[j].hi <= |toks| && FlatSo(known, allowComputed, toks, ss[j])
  }

  lemma NestedFacts(toks: seq<Tok>)
    requires HasPieces(toks, "\\d .a.b", "x")
    ensures |toks| == 12 && toks[0].kind == Sys && toks[0].text == "\\d .a.b"
    ensures toks[6].kind == Sys && toks[6].text == "\\d"
    ensures toks[2].kind == Name && |toks[2].text| == 1 && toks[2].text[0] != '.'
    ensures toks[8].kind == Name && |toks[8].text| == 1 && toks[8].text[0] != '.'
  {
    hide Starts;
  }

  lemma FlatEach(known: Known, allowComputed: bool, toks: seq<Tok>, ss: seq<Stmt>)
    requires HasPieces(toks, "\\d .a.b", "x") && FourOf(ss, HOME)
    ensures |toks| == 12 && FlatAll(known, allowComputed, toks, ss)
  {
    hide HasPieces, FlatSo, ContextOf, Parse, ROOT_LINE, Starts, LineShaped, Nested, NameShaped, PlainName;
    hide NumberAssign;
    hide HOME;
    NestedFacts(toks);
    NoStringsThere(toks);
    LetterIsPlain("x");
    BarelyParses(toks, "\\d .a.b", "x");
    HomeIsNested();
    HomeLine();
    BareNamesNothing();
    LineSo(known, allowComputed, toks, Stmt(0, 2, "."), HOME);
    AssignSo(known, allowComputed, toks, Stmt(2, 6, HOME));
    LineSo(known, allowComputed, toks, Stmt(6, 8, HOME), "");
    AssignSo(known, allowComputed, toks, Stmt(8, 12, HOME));
  }

  lemma NoStringsThere(toks: seq<Tok>)
    requires HasPieces(toks, "\\d .a.b", "x")
    ensures forall k :: 0 <= k < 12 ==> toks[k].kind != Str
  {
    hide Starts;
    forall k | 0 <= k < 12 ensures toks[k].kind != Str {
      assert k == 0 || k == 1 || k == 2 || k == 3 || k == 4 || k == 5 || k == 6 || k == 7 || k == 8 || k == 9
             || k == 10 || k == 11;
    }
  }

  lemma NestedPiecesAre(toks: seq<Tok>, k: nat)
    requires TokensOf(toks, BARELY_NESTED) && k < 12
    ensures |toks| == 12 && |BARELY_NESTED| == 12
    ensures toks[k].kind == BARELY_NESTED[k].kind && toks[k].text == BARELY_NESTED[k].text
  {
    assert |BARELY_NESTED| == 12;
    hide Starts;
    assert TokenIs(toks, BARELY_NESTED, k);
  }

  lemma SoAt(known: Known, allowComputed: bool, toks: seq<Tok>, s: Stmt, k: nat)
    requires s.lo <= k < s.hi <= |toks| && FlatSo(known, allowComputed, toks, s)
    ensures !FlatRefused(known, allowComputed, toks, s) && FlatText(known, toks, s, k) == BackText(k, toks[k].text)
  {
    hide FlatText, FlatRefused, BackText;
  }

  lemma NestedBack(known: Known, allowComputed: bool, toks: seq<Tok>, ss: seq<Stmt>)
    requires TokensOf(toks, BARELY_NESTED) && |toks| == 12 && ss == StatementsOf(toks) && Ordered(toks, ss)
    requires FourOf(ss, HOME) && FlatAll(known, allowComputed, toks, ss)
    ensures var cv := ConvertToks(known, allowComputed, Flat, toks);
            |cv.out| == |toks| && !cv.refused && Retexted(toks, cv.out) == BARELY_BACK
  {
    hide TokensOf, StatementsOf, FlatSo, FlatAt, FlatText, FlatRefused, ConvertToks, Ordered, HOME, BackText, Retexted;
    hide BARELY_NESTED, BARELY_BACK;
    FlatOutput(known, allowComputed, toks);
    BackPiece(0);
    var cv := ConvertToks(known, allowComputed, Flat, toks);
    forall j | 0 <= j < 4 ensures !FlatRefused(known, allowComputed, toks, ss[j]) {
      SoAt(known, allowComputed, toks, ss[j], ss[j].lo);
    }
    forall k | 0 <= k < 12 ensures Retexted(toks, cv.out)[k] == BARELY_BACK[k] {
      var j := if k < 2 then 0 else if k < 6 then 1 else if k < 8 then 2 else 3;
      OutAt(known, toks, ss, cv.out, k, j);
      SoAt(known, allowComputed, toks, ss[j], k);
      NestedPiecesAre(toks, k);
      BackPiece(k);
    }
  }

  /** The text that comes back is longer. */
  lemma BackIsLonger()
    ensures Concat(BARELY_BACK) != Concat(BARELY)
  {
    var front, rest := BARELY[..8], BARELY[9..];
    assert BARELY == front + ([Piece(Name, "y")] + rest);
    assert BARELY_BACK == front + ([Piece(Name, ".a.b.y")] + rest);
    hide ROOT_LINE, BARELY, BARELY_BACK;
    ConcatAppend(front, [Piece(Name, "y")] + rest);
    ConcatAppend(front, [Piece(Name, ".a.b.y")] + rest);
    OneMoreConcat(Piece(Name, "y"), rest);
    OneMoreConcat(Piece(Name, ".a.b.y"), rest);
    assert |Concat(front) + ("y" + Concat(rest))| < |Concat(front) + (".a.b.y" + Concat(rest))|;
  }

  lemma OneMoreConcat(p: Piece, rest: seq<Piece>)
    ensures Concat([p] + rest) == p.text + Concat(rest)
  {
    assert ([p] + rest)[1..] == rest;
  }

  // ---- the file

  lemma BareIsFlatLine(t: Tok)
    requires t.text == "\\d"
    ensures FlatLine(t)
  {
    BareNamesNothing();
    NothingIsNotNested();
    hide ContextOf, Nested;
  }

  lemma BarelyIsFlat(toks: seq<Tok>, ss: seq<Stmt>)
    requires HasPieces(toks, ROOT_LINE, ".a.b.x") && ss == StatementsOf(toks) && FourOf(ss, ".")
    ensures IsFlat(toks)
  {
    forall k | 0 <= k < 12 ensures toks[k].kind != Str {
      assert k == 0 || k == 1 || k == 2 || k == 3 || k == 4 || k == 5 || k == 6 || k == 7 || k == 8 || k == 9
             || k == 10 || k == 11;
    }
    hide StatementsOf, FlatLine, FlatStatement, Starts, ROOT_LINE;
    RootIsFlatLine(toks[0]);
    RootIsFlatLine(toks[2]);
    BareIsFlatLine(toks[6]);
    RootIsFlatLine(toks[8]);
    forall j | 0 <= j < 4 ensures FlatStatement(toks, ss[j]) { FlatPart(toks, ss[j]); }
  }

  lemma RootNames()
    ensures ContextOf(ROOT_LINE) == Some(".")
  {
    RootLine();
    hide ContextOf, ROOT_LINE;
  }

  /** 5.0's side: what the file is, and what it is written as. */
  lemma BarelyNests(known: Known, allowComputed: bool)
    ensures var text, nested := Concat(BARELY), Concat(BARELY_NESTED);
            && LexOf(text).Lexed? && Convert(known, allowComputed, Target.Nest, text) == Written(nested)
            && HasPieces(LexOf(text).toks, ROOT_LINE, ".a.b.x") && FourOf(StatementsOf(LexOf(text).toks), ".")
  {
    hide *;
    var text := Concat(BARELY);
    BarelySpelled();
    SpelledLexes(BARELY);
    var toks := LexOf(text).toks;
    BarelyTokens(toks);
    RootNames();
    FourStatements(toks, ROOT_LINE, ".a.b.x", ".");
    FirstBlockMoves(known, toks, StatementsOf(toks));
    BarelyIsFlat(toks, StatementsOf(toks));
    FlatFileNests(known, allowComputed, text);
    NestOutputTokens(known, toks);
    BarelyIsWritten(known, toks, StatementsOf(toks), NestFrom(known, toks, StatementsOf(toks), 0, Texts(toks)));
    NestsInto(known, toks, BARELY_NESTED);
  }

  /** 4.0's side: what the nested file is, and what it is written as. */
  lemma NestedFlattens(known: Known, allowComputed: bool)
    ensures var nested := Concat(BARELY_NESTED);
            && LexOf(nested).Lexed? && Convert(known, allowComputed, Flat, nested) == Written(Concat(BARELY_BACK))
            && HasPieces(LexOf(nested).toks, "\\d .a.b", "x") && FourOf(StatementsOf(LexOf(nested).toks), HOME)
  {
    hide *;
    var nested := Concat(BARELY_NESTED);
    NestedSpelled();
    SpelledLexes(BARELY_NESTED);
    var toks := LexOf(nested).toks;
    NestedTokens(toks);
    HomeLine();
    HomeIsSome();
    FourStatements(toks, "\\d .a.b", "x", HOME);
    FlatEach(known, allowComputed, toks, StatementsOf(toks));
    StatementsAreOrdered(toks);
    NestedBack(known, allowComputed, toks, StatementsOf(toks));
    FlatWrites(known, allowComputed, nested, BARELY_BACK);
  }

  lemma HomeIsSome()
    ensures HOME != ""
  {
  }

  lemma StatementsAreOrdered(toks: seq<Tok>)
    ensures Ordered(toks, StatementsOf(toks))
  {
  }

  lemma YMeansElse(toks: seq<Tok>, toks': seq<Tok>, columns: set<nat>)
    requires HasPieces(toks, ROOT_LINE, ".a.b.x") && HasPieces(toks', "\\d .a.b", "x")
    ensures |toks| == |toks'| == 12 && !MeaningKept(toks, toks', Stmt(8, 12, "."), Stmt(8, 12, HOME), columns)
  {
    hide Starts, ROOT_LINE, Parse, IsBuiltin, PlainName;
    DottedIsPlain(".a.b.x");
    BarelyParses(toks, ROOT_LINE, ".a.b.x");
    LetterIsFree("y");
    var use := NumberUse(8);
    assert NumberAssign(8).uses[0] == use && use.idx == 8;
    assert Denotes([], use, "y", ".", 8 in columns) == GlobalName("y");
    assert Denotes([], use, "y", HOME, 8 in columns) == GlobalName(HOME + "." + "y");
    assert |HOME + "." + "y"| > |"y"|;
  }

  /** A BARE CLOSER. 5.0 nests the block of `\\d .`, `.a.b.x:1`, `\\d`, `y:2` and
      leaves the bare `\\d` as it is, so that `y:2` then runs in `.a.b` and assigns
      another global. 4.0, whatever it knows, accepts that and writes `.a.b.y:2`. */
  lemma BareCloserStrands(known: Known, known': Known, allowComputed: bool, columns: set<nat>)
    ensures var text, nested := Concat(BARELY), Concat(BARELY_NESTED);
            && LexOf(text).Lexed? && LexOf(nested).Lexed?
            && Convert(known, allowComputed, Target.Nest, text) == Written(nested)
            && Convert(known', allowComputed, Flat, nested) == Written(Concat(BARELY_BACK))
            && Concat(BARELY_BACK) != text
            && var toks, toks' := LexOf(text).toks, LexOf(nested).toks;
               && |toks| == |toks'| && |StatementsOf(toks)| == |StatementsOf(toks')| == 4
               && StatementsOf(toks)[3] == Stmt(8, 12, ".") && StatementsOf(toks')[3] == Stmt(8, 12, HOME)
               && !MeaningKept(toks, toks', StatementsOf(toks)[3], StatementsOf(toks')[3], columns)
  {
    hide LexOf, Convert, StatementsOf, HasPieces, MeaningKept, Concat, BARELY, BARELY_NESTED, BARELY_BACK, HOME;
    BarelyNests(known, allowComputed);
    NestedFlattens(known', allowComputed);
    BackIsLonger();
    YMeansElse(LexOf(Concat(BARELY)).toks, LexOf(Concat(BARELY_NESTED)).toks, columns);
  }
}
