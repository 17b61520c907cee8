/** The context each statement of the nested file runs in, whatever closes the blocks. */
module RunContexts {
  import opened Options
  import opened Chars
  import opened Lexer
  import opened LexerProofs
  import opened Converter
  import opened Layout
  import opened Flatten
  import opened FlattenLexing
  import opened Nesting
  import opened NestLexing

  /** The context statement `j` runs in once blocks have moved, whatever closes them. */
  ghost function RunsIn(known: Known, toks: seq<Tok>, ss: seq<Stmt>, j: nat): string
    requires Ordered(toks, ss) && j < |ss|
  {
    if j == 0 then "."
    else if HomeIn(known, toks, ss, j - 1).Some? then HomeIn(known, toks, ss, j - 1).value
    else NextContext(toks[ss[j - 1].lo], RunsIn(known, toks, ss, j - 1))
  }

  lemma RunsInStep(known: Known, toks: seq<Tok>, ss: seq<Stmt>, toks': seq<Tok>, j: nat)
    requires Nestled(known, toks, toks') && ss == StatementsOf(toks) && Ordered(toks, ss) && j + 1 < |ss|
    requires Valid(Unplaced(toks), LineStart)
    ensures ss[j].lo < |toks'|
    ensures NextContext(toks'[ss[j].lo], RunsIn(known, toks, ss, j)) == RunsIn(known, toks, ss, j + 1)
  {
    SysTextNested(known, toks, toks', j);
    if HomeIn(known, toks, ss, j).Some? {
      HomeOpens(known, toks, ss, j);
      HomeIsName(known, toks, ss, j);
    }
    hide StatementsOf, HomeIn, ContextOf, Valid, NameShaped, SwitchShaped, Nestled, IsCandidate, CountOf;
  }

  lemma {:induction false} RunsInIs(known: Known, toks: seq<Tok>, ss: seq<Stmt>, toks': seq<Tok>, ss': seq<Stmt>,
                                    j: nat)
    requires Nestled(known, toks, toks') && ss == StatementsOf(toks) && ss' == StatementsOf(toks')
    requires Ordered(toks, ss) && SameStatements(ss, ss') && j < |ss| && Valid(Unplaced(toks), LineStart)
    ensures ss'[j] == Stmt(ss[j].lo, ss[j].hi, RunsIn(known, toks, ss, j))
    decreases j
  {
    hide *;
    SameAt(ss, ss', j);
    StatementContext(toks', j);
    RunsInFirst(known, toks, ss);
    if j > 0 {
      SameAt(ss, ss', j - 1);
      RunsInIs(known, toks, ss, toks', ss', j - 1);
      RunsInStep(known, toks, ss, toks', j - 1);
    }
  }

  lemma RunsInFirst(known: Known, toks: seq<Tok>, ss: seq<Stmt>)
    requires Ordered(toks, ss) && 0 < |ss|
    ensures RunsIn(known, toks, ss, 0) == "."
  {
    hide HomeIn;
  }

  lemma {:induction false} RunsInFrom(known: Known, toks: seq<Tok>, ss: seq<Stmt>, i: nat, j: nat)
    requires Ordered(toks, ss) && i < j < |ss| && HomeIn(known, toks, ss, i).Some?
    requires forall a :: i < a < j ==> IsCodeStatement(toks, ss[a])
    ensures RunsIn(known, toks, ss, j) == HomeIn(known, toks, ss, i).value
    decreases j
  {
    hide *;
    if i + 1 < j {
      RunsInFrom(known, toks, ss, i, j - 1);
      RunsInCode(known, toks, ss, j - 1);
    } else {
      RunsInHome(known, toks, ss, i);
    }
  }

  lemma RunsInHome(known: Known, toks: seq<Tok>, ss: seq<Stmt>, i: nat)
    requires Ordered(toks, ss) && i + 1 < |ss| && HomeIn(known, toks, ss, i).Some?
    ensures RunsIn(known, toks, ss, i + 1) == HomeIn(known, toks, ss, i).value
  {
    hide HomeIn, NextContext;
  }

  lemma RunsInCode(known: Known, toks: seq<Tok>, ss: seq<Stmt>, j: nat)
    requires Ordered(toks, ss) && j + 1 < |ss| && IsCodeStatement(toks, ss[j])
    ensures RunsIn(known, toks, ss, j + 1) == RunsIn(known, toks, ss, j)
  {
    if HomeIn(known, toks, ss, j).Some? { HomeOpens(known, toks, ss, j); }
    hide HomeIn, ContextOf, IsCandidate;
  }

  /** A statement that moves runs in the context it moves into. */
  lemma MovedRunsIn(known: Known, toks: seq<Tok>, ss: seq<Stmt>, j: nat)
    requires Ordered(toks, ss) && j < |ss| && MovesTo(known, toks, ss, j).Some?
    ensures RunsIn(known, toks, ss, j) == MovesTo(known, toks, ss, j).value
  {
    hide HomeIn, RunsIn;
    RunsInFrom(known, toks, ss, HeadBefore(toks, ss, j).value, j);
  }

  lemma MovedIsCode(known: Known, toks: seq<Tok>, ss: seq<Stmt>, j: nat)
    requires Ordered(toks, ss) && j < |ss| && MovesTo(known, toks, ss, j).Some?
    ensures IsCodeStatement(toks, ss[j]) && ss[j].lo < ss[j].hi <= |toks|
  {
    hide HomeIn;
  }

  // ---- what a block leaves open

  predicate NamesContext(t: Tok) {
    t.kind == Sys && ContextOf(t.text).Some? && ContextOf(t.text).value != ""
  }

  /** The last line before statement `j` that names a context. */
  function LastNaming(toks: seq<Tok>, ss: seq<Stmt>, j: nat): (r: Option<nat>)
    requires Ordered(toks, ss) && j <= |ss|
    ensures r.Some? ==> r.value < j
  {
    if j == 0 then None
    else if NamesContext(toks[ss[j - 1].lo]) then Some(j - 1)
    else LastNaming(toks, ss, j - 1)
  }

  lemma {:induction false} LastNamingIs(toks: seq<Tok>, ss: seq<Stmt>, j: nat)
    requires Ordered(toks, ss) && j <= |ss|
    ensures var r := LastNaming(toks, ss, j);
            && (r.Some? ==> NamesContext(toks[ss[r.value].lo]))
            && forall i :: (if r.Some? then r.value + 1 else 0) <= i < j ==> !NamesContext(toks[ss[i].lo])
    decreases j
  {
    hide NamesContext;
    if j > 0 { LastNamingIs(toks, ss, j - 1); }
  }

  /** The context a block that moved leaves open at statement `j`: no line since
      the block's head names another. */
  ghost function LeftIn(known: Known, toks: seq<Tok>, ss: seq<Stmt>, j: nat): Option<string>
    requires Ordered(toks, ss) && j < |ss|
  {
    var i := LastNaming(toks, ss, j);
    if i.Some? then HomeIn(known, toks, ss, i.value) else None
  }

  lemma HomeNames(known: Known, toks: seq<Tok>, ss: seq<Stmt>, j: nat)
    requires ss == StatementsOf(toks) && Ordered(toks, ss) && j < |ss| && HomeIn(known, toks, ss, j).Some?
    requires Valid(Unplaced(toks), LineStart)
    ensures NamesContext(toks[ss[j].lo]) && ContextOf(toks[ss[j].lo].text) == Some(".")
    ensures Nested(HomeIn(known, toks, ss, j).value)
  {
    hide StatementsOf, HomeIn, Valid, NameShaped, SwitchShaped, ContextOf, IsCandidate, CountOf;
    HomeOpens(known, toks, ss, j);
    HomeIsName(known, toks, ss, j);
  }

  lemma LeftInStep(known: Known, toks: seq<Tok>, ss: seq<Stmt>, j: nat)
    requires Ordered(toks, ss) && j + 1 < |ss|
    ensures LeftIn(known, toks, ss, j + 1)
            == if NamesContext(toks[ss[j].lo]) then HomeIn(known, toks, ss, j) else LeftIn(known, toks, ss, j)
  {
    hide HomeIn, ContextOf;
  }

  /** A statement runs in the context left open where it stands, or else where it did. */
  lemma {:induction false} RunsInLeft(known: Known, toks: seq<Tok>, ss: seq<Stmt>, j: nat)
    requires ss == StatementsOf(toks) && Ordered(toks, ss) && j < |ss| && Valid(Unplaced(toks), LineStart)
    ensures RunsIn(known, toks, ss, j)
            == if LeftIn(known, toks, ss, j).Some? then LeftIn(known, toks, ss, j).value else ss[j].ctx
    ensures LeftIn(known, toks, ss, j).Some? ==> ss[j].ctx == "." && Nested(LeftIn(known, toks, ss, j).value)
    decreases j
  {
    hide StatementsOf, HomeIn, ContextOf, Valid, LeftIn, Nested;
    StatementContext(toks, j);
    if j == 0 {
      NothingLeft(known, toks, ss);
    } else {
      RunsInLeft(known, toks, ss, j - 1);
      LeftInStep(known, toks, ss, j - 1);
      if HomeIn(known, toks, ss, j - 1).Some? { HomeNames(known, toks, ss, j - 1); }
    }
  }

  lemma NothingLeft(known: Known, toks: seq<Tok>, ss: seq<Stmt>)
    requires Ordered(toks, ss) && 0 < |ss|
    ensures LeftIn(known, toks, ss, 0).None?
  {
    hide HomeIn;
  }

  lemma NestedIsNoRoot()
    ensures !Nested(".")
  {
    assert CountOf(".", '.') == 1;
  }

  /** WHERE STATEMENTS RUN. Once blocks have moved, a statement keeps the context
      it ran in exactly when no block that moved is left open where it stands;
      otherwise it runs in that block's new context, as every moved statement does. */
  lemma NestContexts(known: Known, toks: seq<Tok>, toks': seq<Tok>, j: nat)
    requires Nestled(known, toks, toks') && j < |StatementsOf(toks)| && Valid(Unplaced(toks), LineStart)
    ensures SameStatements(StatementsOf(toks), StatementsOf(toks'))
    ensures var ss, ss' := StatementsOf(toks), StatementsOf(toks');
            && (ss'[j].ctx == ss[j].ctx <==> LeftIn(known, toks, ss, j).None?)
            && (LeftIn(known, toks, ss, j).Some? ==> ss[j].ctx == "." && ss'[j].ctx == LeftIn(known, toks, ss, j).value)
            && (MovesTo(known, toks, ss, j).Some? ==> LeftIn(known, toks, ss, j) == MovesTo(known, toks, ss, j))
  {
    hide StatementsOf, Valid, NestTokens, LeftIn, MovesTo, RunsIn, Nested, SameStatements, SameLayout;
    var ss, ss' := StatementsOf(toks), StatementsOf(toks');
    LayoutKeepsStatements(toks, toks');
    RunsInIs(known, toks, ss, toks', ss', j);
    SameAt(ss, ss', j);
    RunsInLeft(known, toks, ss, j);
    NestedIsNoRoot();
    if MovesTo(known, toks, ss, j).Some? {
      MovedRunsIn(known, toks, ss, j);
      MovedLeftIn(known, toks, ss, j);
    }
  }

  /** Where a statement moves, its block is the one left open. */
  lemma MovedLeftIn(known: Known, toks: seq<Tok>, ss: seq<Stmt>, j: nat)
    requires ss == StatementsOf(toks) && Ordered(toks, ss) && j < |ss| && MovesTo(known, toks, ss, j).Some?
    requires Valid(Unplaced(toks), LineStart)
    ensures LeftIn(known, toks, ss, j) == MovesTo(known, toks, ss, j)
  {
    hide StatementsOf, HomeIn, Valid, ContextOf, Nested;
    LastNamingIs(toks, ss, j);
    var i := HeadBefore(toks, ss, j).value;
    HomeNames(known, toks, ss, i);
    assert forall a :: i < a < j ==> !NamesContext(toks[ss[a].lo]);
    assert LastNaming(toks, ss, j) == Some(i);
  }

  // ---- when nothing else is left inside

  /** A statement is left inside a context that it did not move into. */
  ghost predicate Stranded(known: Known, toks: seq<Tok>, ss: seq<Stmt>, j: nat)
    requires Ordered(toks, ss) && j < |ss|
  {
    && (IsCodeStatement(toks, ss[j]) || (toks[ss[j].lo].kind == Sys && ContextOf(toks[ss[j].lo].text).None?))
    && MovesTo(known, toks, ss, j).None? && LeftIn(known, toks, ss, j).Some?
  }

  ghost predicate NoneStranded(known: Known, toks: seq<Tok>, ss: seq<Stmt>)
    requires Ordered(toks, ss)
  {
    forall j: nat :: j < |ss| ==> !Stranded(known, toks, ss, j)
  }

  /** Every block that moves is closed by a line that names a context. */
  ghost predicate ClosersName(known: Known, toks: seq<Tok>, ss: seq<Stmt>)
    requires Ordered(toks, ss)
  {
    forall i: nat :: i < |ss| && HomeIn(known, toks, ss, i).Some? ==> CloserNames(toks, ss, BlockStop(toks, ss, i + 1))
  }

  predicate CloserNames(toks: seq<Tok>, ss: seq<Stmt>, j: nat)
    requires Ordered(toks, ss)
  {
    j < |ss| && NamesContext(toks[ss[j].lo])
  }

  /** Up to the line that closes a block, all is code. */
  lemma CodeToCloser(known: Known, toks: seq<Tok>, ss: seq<Stmt>, i: nat, j: nat)
    requires Ordered(toks, ss) && ClosersName(known, toks, ss) && i < j < |ss| && HomeIn(known, toks, ss, i).Some?
    requires forall a :: i < a < j ==> !NamesContext(toks[ss[a].lo])
    ensures forall a :: i < a < j ==> IsCodeStatement(toks, ss[a])
    ensures IsCodeStatement(toks, ss[j]) || NamesContext(toks[ss[j].lo])
  {
    hide HomeIn, NamesContext;
    var k := BlockStop(toks, ss, i + 1);
    assert CloserNames(toks, ss, k) && j <= k;
  }

  lemma NotStranded(known: Known, toks: seq<Tok>, ss: seq<Stmt>, j: nat)
    requires Ordered(toks, ss) && ClosersName(known, toks, ss) && j < |ss|
    ensures !Stranded(known, toks, ss, j)
  {
    hide HomeIn, ContextOf, ClosersName, LastNaming, HeadBefore;
    LastNamingIs(toks, ss, j);
    if LeftIn(known, toks, ss, j).Some? {
      var i := LastNaming(toks, ss, j).value;
      CodeToCloser(known, toks, ss, i, j);
      LastHead(toks, ss, i, j);
    }
  }

  /** Lines that name a context close their blocks for good. */
  lemma NamingClosersStrandNone(known: Known, toks: seq<Tok>, ss: seq<Stmt>)
    requires Ordered(toks, ss) && ClosersName(known, toks, ss)
    ensures NoneStranded(known, toks, ss)
  {
    hide ClosersName, Stranded;
    forall j: nat | j < |ss| ensures !Stranded(known, toks, ss, j) { NotStranded(known, toks, ss, j); }
  }

  lemma {:induction false} LastHead(toks: seq<Tok>, ss: seq<Stmt>, i: nat, j: nat)
    requires Ordered(toks, ss) && i < j <= |ss| && toks[ss[i].lo].kind == Sys
    requires forall a :: i < a < j ==> IsCodeStatement(toks, ss[a])
    ensures HeadBefore(toks, ss, j) == Some(i)
    decreases j
  {
    if i + 1 < j { LastHead(toks, ss, i, j - 1); }
  }
}
