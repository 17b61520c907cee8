/** Nesting a flat file for 5.0 and flattening it again: exactly when the file comes back. */
module Returning {
  import opened Options
  import opened Chars
  import opened Lexer
  import opened LexerProofs
  import opened Scanner
  import opened Renaming
  import opened Converter
  import opened Layout
  import opened Flatten
  import opened FlattenLexing
  import opened Idempotence
  import opened Nesting
  import opened NestLexing
  import opened RunContexts
  import opened NestedFile
  import opened Moving
  import opened MovedStatements
  import opened RoundTrip

  // ---- the contexts of the nested file

  /** A line of a flat file switches to no nested context. */
  lemma FlatSwitch(toks: seq<Tok>, ss: seq<Stmt>, j: nat, ctx: string)
    requires ss == StatementsOf(toks) && Ordered(toks, ss) && j < |ss| && IsFlat(toks)
    ensures Nested(NextContext(toks[ss[j].lo], ctx)) ==> NextContext(toks[ss[j].lo], ctx) == ctx
  {
    hide StatementsOf, ContextOf, CountOf, HidesSwitches;
    assert FlatStatement(toks, ss[j]);
  }

  /** In a flat file a nested context is one a block moved into, and so one whole name. */
  lemma {:induction false} RunsInNamed(known: Known, toks: seq<Tok>, ss: seq<Stmt>, j: nat)
    requires ss == StatementsOf(toks) && Ordered(toks, ss) && j < |ss| && IsFlat(toks)
    requires Valid(Unplaced(toks), LineStart)
    ensures Nested(RunsIn(known, toks, ss, j)) ==> NameShaped(RunsIn(known, toks, ss, j))
    decreases j
  {
    hide StatementsOf, HomeIn, Valid, NameShaped, CountOf, FlatLine, HidesSwitches, IsFlat, NextContext, Nested;
    NestedIsNoRoot();
    if j > 0 {
      FlatSwitch(toks, ss, j - 1, RunsIn(known, toks, ss, j - 1));
      RunsInNamed(known, toks, ss, j - 1);
      if HomeIn(known, toks, ss, j - 1).Some? { HomeIsName(known, toks, ss, j - 1); }
    }
  }

  // ---- which statements come back

  /** In `ctx` the 4.0 conversion accepts the statement and writes it as it is. */
  predicate Untouched(known: Known, allowComputed: bool, toks: seq<Tok>, s: Stmt, ctx: string)
    requires s.lo < s.hi <= |toks|
  {
    var st := Parse(toks, s.lo, s.hi);
    && st.Parsed? && !LoadTimeHazard(known, allowComputed, toks, st, ctx)
    && forall i :: 0 <= i < |st.uses| ==>
         BindingOf(st.lams, st.uses[i], TextOf(toks, st.uses[i].idx), known.DefinedIn(ctx)) == Keep
  }

  /** What statement `j` must be to come back: a head line reads just `\d .`; no
      other command runs in a context a block left open; a moved statement amends
      no relative name but plain locals; and one that runs in a context left open
      has nothing there to bind. */
  ghost predicate StatementReturns(known: Known, allowComputed: bool, toks: seq<Tok>, ss: seq<Stmt>, j: nat)
    requires Ordered(toks, ss) && j < |ss|
  {
    var s := ss[j];
    var ctx := RunsIn(known, toks, ss, j);
    if !IsCodeStatement(toks, s) then
      && (HomeIn(known, toks, ss, j).Some? ==> toks[s.lo].text == ROOT_LINE)
      && (toks[s.lo].kind == Sys && ContextOf(toks[s.lo].text).None? ==> !Nested(ctx))
    else if MovesTo(known, toks, ss, j).Some? then AmendsIn(toks, s)
    else Nested(ctx) ==> Untouched(known, allowComputed, toks, s, ctx)
  }

  /** The 4.0 conversion accepts statement `s'` of the nested file and writes the flat file's own tokens. */
  ghost predicate ComesBack(known: Known, allowComputed: bool, toks: seq<Tok>, toks': seq<Tok>, s': Stmt)
    requires s'.lo < s'.hi <= |toks| == |toks'|
  {
    && !FlatRefused(known, allowComputed, toks', s')
    && forall k :: s'.lo <= k < s'.hi ==> FlatText(known, toks', s', k) == toks[k].text
  }

  /** The nested file, and what both directions need of it. */
  ghost predicate Nests(known: Known, toks: seq<Tok>, ss: seq<Stmt>, toks': seq<Tok>) {
    && Nestled(known, toks, toks') && ss == StatementsOf(toks) && Ordered(toks, ss) && |toks| == |toks'|
    && Valid(Unplaced(toks), LineStart) && LeavesNamed(known, toks, ss) && IsFlat(toks)
    && forall j: nat :: j < |ss| && MovesTo(known, toks, ss, j).Some? ==> ParamsIn(toks, ss[j])
  }

  lemma LineText(known: Known, toks: seq<Tok>, ss: seq<Stmt>, toks': seq<Tok>, j: nat, k: nat)
    requires Nests(known, toks, ss, toks') && j < |ss| && !IsCodeStatement(toks, ss[j]) && ss[j].lo < k < ss[j].hi
    ensures toks'[k].text == toks[k].text
  {
    hide StatementsOf, Valid, LeavesNamed, IsFlat, HomeIn, MovesTo, ParamsIn, Nestled;
    MovedTokenText(known, toks, ss, toks', j, k);
  }

  /** What the 4.0 conversion does with a line whose text is a home's switch, or a flat file's own. */
  lemma LineWritten(known: Known, allowComputed: bool, toks': seq<Tok>, s': Stmt, t: Tok, home: Option<string>)
    requires s'.lo < s'.hi <= |toks'| && toks'[s'.lo].kind == t.kind && (t.kind == Sys || t.kind == Tail)
    requires FlatLine(t) && (home.Some? ==> t.kind == Sys && ContextOf(t.text).Some?)
    requires t.kind == Sys ==> toks'[s'.lo].text == if home.Some? then "\\d " + home.value else t.text
    requires home.Some? ==> ContextOf("\\d " + home.value) == home && Nested(home.value)
    requires t.kind == Tail ==> toks'[s'.lo].text == t.text
    ensures FlatText(known, toks', s', s'.lo) == if home.Some? then ROOT_LINE else t.text
    ensures forall k :: s'.lo < k < s'.hi ==> FlatText(known, toks', s', k) == toks'[k].text
    ensures FlatRefused(known, allowComputed, toks', s')
            <==> t.kind == Sys && ContextOf(t.text).None? && Nested(s'.ctx)
  {
    hide ContextOf, CountOf, Parse, QualifiedFrom, ROOT_LINE, HidesSwitches, LoadTimeHazard, RefusedFrom;
  }

  /** A system line, or the exit line, of a file that nests: as it was, or the switch to its block's home. */
  lemma LineIs(known: Known, toks: seq<Tok>, ss: seq<Stmt>, toks': seq<Tok>, j: nat)
    requires Nests(known, toks, ss, toks') && j < |ss| && !IsCodeStatement(toks, ss[j])
    ensures var t, t', home := toks[ss[j].lo], toks'[ss[j].lo], HomeIn(known, toks, ss, j);
            && t'.kind == t.kind && FlatLine(t)
            && (home.Some? ==>
                  t.kind == Sys && ContextOf(t.text).Some? && ContextOf("\\d " + home.value) == home &&
                  Nested(home.value))
            && (t.kind == Sys ==> t'.text == if home.Some? then "\\d " + home.value else t.text)
            && (t.kind == Tail ==> t'.text == t.text)
  {
    var s := ss[j];
    assert FlatStatement(toks, s) && toks[s.lo].kind == toks'[s.lo].kind;
    SysTextNested(known, toks, toks', j);
    if HomeIn(known, toks, ss, j).Some? {
      HomeIsName(known, toks, ss, j);
      HomeOpens(known, toks, ss, j);
    }
    hide StatementsOf, Valid, LeavesNamed, IsFlat, HomeIn, MovesTo, ParamsIn, Nestled, ContextOf;
    hide CountOf, IsCandidate, NameShaped, SwitchShaped, HidesSwitches, Parse;
    MovedTokenText(known, toks, ss, toks', j, s.lo);
  }

  lemma LineBack(known: Known, allowComputed: bool, toks: seq<Tok>, toks': seq<Tok>, s': Stmt, home: Option<string>)
    requires s'.lo < s'.hi <= |toks| == |toks'|
    requires var t := toks[s'.lo];
             && FlatText(known, toks', s', s'.lo) == (if home.Some? then ROOT_LINE else t.text)
             && (FlatRefused(known, allowComputed, toks', s') <==>
                 t.kind == Sys && ContextOf(t.text).None? && Nested(s'.ctx))
    requires forall k :: s'.lo < k < s'.hi ==> FlatText(known, toks', s', k) == toks'[k].text
    requires forall k :: s'.lo < k < s'.hi ==> toks'[k].text == toks[k].text
    ensures var t := toks[s'.lo];
            ComesBack(known, allowComputed, toks, toks', s')
            <==> (home.Some? ==> t.text == ROOT_LINE) && (t.kind == Sys && ContextOf(t.text).None? ==> !Nested(s'.ctx))
  {
    hide FlatText, FlatRefused, ContextOf, Nested, ROOT_LINE;
  }

  lemma {:induction false} LineReturns(known: Known, known': Known, allowComputed: bool, toks: seq<Tok>, ss: seq<Stmt>,
                                       toks': seq<Tok>, s': Stmt, j: nat)
    requires Nests(known, toks, ss, toks') && j < |ss| && !IsCodeStatement(toks, ss[j])
    requires s' == Stmt(ss[j].lo, ss[j].hi, RunsIn(known, toks, ss, j))
    ensures |toks| == |toks'|
    ensures ComesBack(known', allowComputed, toks, toks', s')
            <==> StatementReturns(known, allowComputed, toks, ss, j)
  {
    hide HomeIn, MovesTo, AmendsIn, Untouched, FlatText, FlatRefused, RunsIn, ContextOf, Nested, ROOT_LINE;
    hide FlatLine, ComesBack;
    assert |toks| == |toks'| && s'.lo < s'.hi <= |toks| && (toks[s'.lo].kind == Sys || toks[s'.lo].kind == Tail);
    LineIs(known, toks, ss, toks', j);
    LineWritten(known', allowComputed, toks', s', toks[s'.lo], HomeIn(known, toks, ss, j));
    forall k | s'.lo < k < s'.hi ensures toks'[k].text == toks[k].text { LineText(known, toks, ss, toks', j, k); }
    LineBack(known', allowComputed, toks, toks', s', HomeIn(known, toks, ss, j));
  }

  // ---- code that did not move

  lemma RestoredStrings(known: Known, toks: seq<Tok>, ss: seq<Stmt>, toks': seq<Tok>, j: nat)
    requires Nestled(known, toks, toks') && ss == StatementsOf(toks) && Ordered(toks, ss) && j < |ss|
    requires |toks| == |toks'|
    requires IsCodeStatement(toks, ss[j]) && !HidesSwitches(toks, ss[j].lo, ss[j].hi)
    ensures !HidesSwitches(toks', ss[j].lo, ss[j].hi)
  {
    hide StatementsOf, HidesSwitch, MovesTo, MovedText;
    var s := ss[j];
    assert SameLayout(toks, toks');
    forall k | s.lo <= k < s.hi && toks'[k].kind == Str ensures toks[k].kind == Str && toks'[k].text == toks[k].text {
      if MovesTo(known, toks, ss, j).Some? {
        MovedTokenText(known, toks, ss, toks', j, k);
        ShortenedText(known, toks, ss, j, k);
        var ctx := MovesTo(known, toks, ss, j).value;
        MovedOrSame(toks, s, ctx, k);
        if Shortened(toks, s, ctx, k) { ShortenedName(toks, s, ctx, k); }
      } else {
        UnmovedText(known, toks, ss, toks', j, k);
      }
    }
  }

  lemma UnmovedSame(known: Known, toks: seq<Tok>, ss: seq<Stmt>, toks': seq<Tok>, j: nat)
    requires Nests(known, toks, ss, toks') && j < |ss| && IsCodeStatement(toks, ss[j])
    requires MovesTo(known, toks, ss, j).None?
    ensures IsCodeStatement(toks', ss[j]) && !HidesSwitches(toks', ss[j].lo, ss[j].hi)
    ensures Parse(toks', ss[j].lo, ss[j].hi) == Parse(toks, ss[j].lo, ss[j].hi)
    ensures forall k :: ss[j].lo <= k < ss[j].hi ==> toks'[k].text == toks[k].text
    ensures var st := Parse(toks, ss[j].lo, ss[j].hi);
            st.Parsed? ==> SameUseTexts(toks, toks', st) && forall i :: 0 <= i < |st.uses| ==>
                ss[j].lo <= st.uses[i].idx < ss[j].hi
  {
    assert FlatStatement(toks, ss[j]) && toks[ss[j].lo].kind == toks'[ss[j].lo].kind;
    hide StatementsOf, Valid, LeavesNamed, IsFlat, HomeIn, MovesTo, ParamsIn, Nestled, HidesSwitches, Parse;
    hide SameUseTexts, SameParse;
    NestParse(known, toks, ss, toks', j);
    RestoredStrings(known, toks, ss, toks', j);
    forall k | ss[j].lo <= k < ss[j].hi ensures toks'[k].text == toks[k].text {
      UnmovedText(known, toks, ss, toks', j, k);
    }
    if Parse(toks, ss[j].lo, ss[j].hi).Parsed? {
      UnmovedUses(known, toks, ss, toks', j);
      ParseUses(toks, ss[j].lo, ss[j].hi);
      hide UsesAt;
    }
  }

  /** No use of the statement is refused or qualified in `mine`'s context. */
  ghost predicate AllKept(toks: seq<Tok>, st: Statement, mine: set<string>)
    requires st.Parsed?
  {
    forall i :: 0 <= i < |st.uses| ==> BindingOf(st.lams, st.uses[i], TextOf(toks, st.uses[i].idx), mine) == Keep
  }

  lemma {:induction false} KeptUses(toks: seq<Tok>, toks': seq<Tok>, st: Statement, mine: set<string>)
    requires st.Parsed? && SameUseTexts(toks, toks', st)
    ensures AllKept(toks, st, mine)
            <==> !RefusedFrom(toks', st, 0, mine)
                 && forall i :: 0 <= i < |st.uses| ==> !QualifiedFrom(toks', st, 0, mine, st.uses[i].idx)
  {
    hide BindingOf, TextOf;
    if AllKept(toks, st, mine) {
      forall i, v | 0 <= i < |st.uses| && 0 <= v < |st.uses| && st.uses[v].idx == st.uses[i].idx
        ensures BindingOf(st.lams, st.uses[v], TextOf(toks', st.uses[i].idx), mine) != Qualify
      {
        assert TextOf(toks, st.uses[v].idx) == TextOf(toks', st.uses[v].idx);
      }
    }
    forall i | 0 <= i < |st.uses| && !RefusedFrom(toks', st, 0, mine) &&
      !QualifiedFrom(toks', st, 0, mine, st.uses[i].idx)
      ensures BindingOf(st.lams, st.uses[i], TextOf(toks, st.uses[i].idx), mine) == Keep
    {
      assert TextOf(toks, st.uses[i].idx) == TextOf(toks', st.uses[i].idx);
    }
  }

  lemma {:induction false} UnmovedNested(known: Known, allowComputed: bool, toks: seq<Tok>, toks': seq<Tok>,
                                         st: Statement, s': Stmt)
    requires s'.lo < s'.hi <= |toks| == |toks'| && IsCodeStatement(toks', s') && !HidesSwitches(toks', s'.lo, s'.hi)
    requires Nested(s'.ctx) && st == Parse(toks', s'.lo, s'.hi) && st.Parsed?
    requires forall k :: s'.lo <= k < s'.hi ==> toks'[k].text == toks[k].text
    requires forall i :: 0 <= i < |st.uses| ==> s'.lo <= st.uses[i].idx < s'.hi
    ensures ComesBack(known, allowComputed, toks, toks', s')
            <==>
              && !LoadTimeHazard(known, allowComputed, toks', st, s'.ctx)
              && !RefusedFrom(toks', st, 0, known.DefinedIn(s'.ctx))
              && forall i :: 0 <= i < |st.uses| ==>
                   !QualifiedFrom(toks', st, 0, known.DefinedIn(s'.ctx), st.uses[i].idx)
  {
    var mine := known.DefinedIn(s'.ctx);
    hide Parse, HidesSwitches, LoadTimeHazard, RefusedFrom, CountOf, ContextOf, ROOT_LINE;
    forall k | s'.lo <= k < s'.hi
      ensures FlatText(known, toks', s', k) == toks[k].text <==> !QualifiedFrom(toks', st, 0, mine, k)
    {
      assert |s'.ctx + "." + toks'[k].text| > |toks[k].text|;
    }
    hide FlatText;
    forall k | s'.lo <= k < s'.hi && QualifiedFrom(toks', st, 0, mine, k)
      ensures exists i :: 0 <= i < |st.uses| && st.uses[i].idx == k
    {
      hide BindingOf;
    }
    hide QualifiedFrom;
  }

  lemma UnmovedRefused(known: Known, allowComputed: bool, toks: seq<Tok>, toks': seq<Tok>, s': Stmt)
    requires s'.lo < s'.hi <= |toks| == |toks'| && IsCodeStatement(toks', s') && !HidesSwitches(toks', s'.lo, s'.hi)
    requires !(Nested(s'.ctx) && Parse(toks', s'.lo, s'.hi).Parsed?)
    requires forall k :: s'.lo <= k < s'.hi ==> toks'[k].text == toks[k].text
    ensures ComesBack(known, allowComputed, toks, toks', s') <==> !Nested(s'.ctx)
  {
    hide Parse, HidesSwitches, LoadTimeHazard, RefusedFrom, CountOf, ContextOf, ROOT_LINE, QualifiedFrom;
  }

  lemma {:induction false} UnmovedWritten(known: Known, allowComputed: bool, toks: seq<Tok>, toks': seq<Tok>, s': Stmt)
    requires s'.lo < s'.hi <= |toks| == |toks'| && IsCodeStatement(toks', s') && !HidesSwitches(toks', s'.lo, s'.hi)
    requires Parse(toks', s'.lo, s'.hi) == Parse(toks, s'.lo, s'.hi)
    requires forall k :: s'.lo <= k < s'.hi ==> toks'[k].text == toks[k].text
    requires var st := Parse(toks, s'.lo, s'.hi);
             st.Parsed? ==> SameUseTexts(toks, toks', st) && forall i :: 0 <= i < |st.uses| ==>
                 s'.lo <= st.uses[i].idx < s'.hi
    ensures ComesBack(known, allowComputed, toks, toks', s')
            <==> (Nested(s'.ctx) ==> Untouched(known, allowComputed, toks, s', s'.ctx))
  {
    var st := Parse(toks, s'.lo, s'.hi);
    hide Parse, HidesSwitches, LoadTimeHazard, RefusedFrom, BindingOf, CountOf, SameUseTexts, QualifiedFrom, ComesBack;
    if Nested(s'.ctx) && st.Parsed? {
      KeptUses(toks, toks', st, known.DefinedIn(s'.ctx));
      SameHazard(known, allowComputed, toks, toks', st, s'.ctx);
      UnmovedNested(known, allowComputed, toks, toks', st, s');
    } else {
      UnmovedRefused(known, allowComputed, toks, toks', s');
    }
  }

  lemma SameHazard(known: Known, allowComputed: bool, toks: seq<Tok>, toks': seq<Tok>, st: Statement, ctx: string)
    requires st.Parsed? && SameUseTexts(toks, toks', st)
    ensures LoadTimeHazard(known, allowComputed, toks', st, ctx) <==>
            LoadTimeHazard(known, allowComputed, toks, st, ctx)
  {
    hide SameUseTexts, Calls, InlineIn;
    UnmovedCalls(toks, toks', st, ctx, true);
  }

  lemma UnmovedReturns(known: Known, allowComputed: bool, toks: seq<Tok>, ss: seq<Stmt>, toks': seq<Tok>, s': Stmt,
                       j: nat)
    requires Nests(known, toks, ss, toks') && j < |ss| && IsCodeStatement(toks, ss[j])
    requires MovesTo(known, toks, ss, j).None?
    requires s' == Stmt(ss[j].lo, ss[j].hi, RunsIn(known, toks, ss, j))
    ensures ComesBack(known, allowComputed, toks, toks', s')
            <==> StatementReturns(known, allowComputed, toks, ss, j)
  {
    hide ComesBack, Untouched, RunsIn, HidesSwitches, Parse, MovesTo, SameUseTexts, CountOf;
    assert |toks| == |toks'|;
    UnmovedSame(known, toks, ss, toks', j);
    UnmovedWritten(known, allowComputed, toks, toks', s');
    assert Untouched(known, allowComputed, toks, s', s'.ctx)
           == Untouched(known, allowComputed, toks, ss[j], s'.ctx) by {
      UntouchedAt(known, allowComputed, toks, s', ss[j], s'.ctx);
    }
  }

  lemma UntouchedAt(known: Known, allowComputed: bool, toks: seq<Tok>, s: Stmt, t: Stmt, ctx: string)
    requires s.lo == t.lo < s.hi == t.hi <= |toks|
    ensures Untouched(known, allowComputed, toks, s, ctx) == Untouched(known, allowComputed, toks, t, ctx)
  {
    hide Parse, LoadTimeHazard, BindingOf;
  }

  // ---- code that moved

  lemma UnusedText(toks: seq<Tok>, s: Stmt, ctx: string, k: nat)
    requires s.lo <= k < s.hi <= |toks|
    requires Parse(toks, s.lo, s.hi).Parsed? ==> forall u :: 0 <= u < |Parse(toks, s.lo, s.hi).uses| ==>
               Parse(toks, s.lo, s.hi).uses[u].idx != k
    ensures MovedText(toks, s, ctx, k) == toks[k].text
  {
    hide Parse, ShortOf;
  }

  /** What a moved statement and its tokens are, before and after. */
  lemma MovedSame(known: Known, toks: seq<Tok>, ss: seq<Stmt>, toks': seq<Tok>, j: nat)
    requires Nests(known, toks, ss, toks') && j < |ss| && MovesTo(known, toks, ss, j).Some?
    ensures ss[j].lo < ss[j].hi <= |toks| == |toks'|
    ensures IsCodeStatement(toks', Stmt(ss[j].lo, ss[j].hi, RunsIn(known, toks, ss, j)))
    ensures !HidesSwitches(toks', ss[j].lo, ss[j].hi)
    ensures Nested(RunsIn(known, toks, ss, j)) && RunsIn(known, toks, ss, j) == MovesTo(known, toks, ss, j).value
    ensures var st, st' := Parse(toks, ss[j].lo, ss[j].hi), Parse(toks', ss[j].lo, ss[j].hi);
            && Moved(known, toks, toks', st, st', RunsIn(known, toks, ss, j))
            && !Unmovable(known, toks, st, RunsIn(known, toks, ss, j))
  {
    assert IsCodeStatement(toks, ss[j]) && ParamsIn(toks, ss[j]);
    assert FlatStatement(toks, ss[j]) && toks[ss[j].lo].kind == toks'[ss[j].lo].kind;
    hide StatementsOf, Valid, LeavesNamed, IsFlat, MovesTo, ParamsIn, Nestled, HidesSwitches, Parse, Moved, Unmovable;
    hide CountOf;
    hide RunsIn, AmendsRoot;
    MovedRunsIn(known, toks, ss, j);
    MovesIsMovable(known, toks, ss, j);
    RestoredStrings(known, toks, ss, toks', j);
    StatementIsMoved(known, toks, ss, toks', j);
  }

  /** A token of a moved statement that no use stands at is as it was. */
  lemma MovedUnused(known: Known, toks: seq<Tok>, ss: seq<Stmt>, toks': seq<Tok>, j: nat, k: nat)
    requires Nests(known, toks, ss, toks') && j < |ss| && MovesTo(known, toks, ss, j).Some? && ss[j].lo <= k < ss[j].hi
    requires Parse(toks, ss[j].lo, ss[j].hi).Parsed?
    requires forall u :: 0 <= u < |Parse(toks, ss[j].lo, ss[j].hi).uses| ==>
               Parse(toks, ss[j].lo, ss[j].hi).uses[u].idx != k
    ensures toks'[k].text == toks[k].text
  {
    hide StatementsOf, Valid, LeavesNamed, IsFlat, MovesTo, ParamsIn, Nestled, Parse, NestText, MovedText;
    MovedTokenText(known, toks, ss, toks', j, k);
    ShortenedText(known, toks, ss, j, k);
    UnusedText(toks, ss[j], MovesTo(known, toks, ss, j).value, k);
  }

  /** The 4.0 conversion's say on a statement in a nested context, by its uses. */
  lemma {:induction false} UsedWritten(known: Known, allowComputed: bool, toks: seq<Tok>, toks': seq<Tok>,
                                       st': Statement, s': Stmt)
    requires s'.lo < s'.hi <= |toks| == |toks'| && IsCodeStatement(toks', s') && !HidesSwitches(toks', s'.lo, s'.hi)
    requires Nested(s'.ctx) && st' == Parse(toks', s'.lo, s'.hi) && st'.Parsed?
    requires forall i :: 0 <= i < |st'.uses| ==> s'.lo <= st'.uses[i].idx < s'.hi
    requires forall i, j :: 0 <= i < |st'.uses| && 0 <= j < |st'.uses| && st'.uses[i].idx == st'.uses[j].idx ==> i == j
    requires forall k :: s'.lo <= k < s'.hi && (forall i :: 0 <= i < |st'.uses| ==> st'.uses[i].idx != k)
               ==> toks'[k].text == toks[k].text
    ensures ComesBack(known, allowComputed, toks, toks', s')
            <==> !LoadTimeHazard(known, allowComputed, toks', st', s'.ctx)
                 && UsesBack(toks, toks', st', s'.ctx, known.DefinedIn(s'.ctx))
  {
    var mine := known.DefinedIn(s'.ctx);
    UsesBackAt(toks, toks', st', s'.ctx, mine);
    hide Parse, HidesSwitches, LoadTimeHazard, RefusedFrom, BindingOf, CountOf, UsesBack, ContextOf, ROOT_LINE;
    forall k | s'.lo <= k < s'.hi ensures FlatText(known, toks', s', k) == UsedText(toks', st', s'.ctx, mine, k) {}
    hide FlatText;
    forall k | s'.lo <= k < s'.hi && forall i :: 0 <= i < |st'.uses| ==> st'.uses[i].idx != k
      ensures UsedText(toks', st', s'.ctx, mine, k) == toks[k].text
    {
    }
    hide UsedText;
  }

  lemma UsesInside(toks: seq<Tok>, lo: nat, hi: nat)
    requires hi <= |toks| && Parse(toks, lo, hi).Parsed?
    ensures var uses := Parse(toks, lo, hi).uses;
            && (forall i :: 0 <= i < |uses| ==> lo <= uses[i].idx < hi)
            && (forall i, j :: 0 <= i < |uses| && 0 <= j < |uses| && uses[i].idx == uses[j].idx ==> i == j)
  {
    hide Parse;
    ParseUses(toks, lo, hi);
    ParseLocals(toks, lo, hi);
  }

  lemma MovedBack(known: Known, known': Known, allowComputed: bool, toks: seq<Tok>, ss: seq<Stmt>, toks': seq<Tok>,
                  s': Stmt, j: nat)
    requires Nests(known, toks, ss, toks') && j < |ss| && MovesTo(known, toks, ss, j).Some?
    requires s' == Stmt(ss[j].lo, ss[j].hi, RunsIn(known, toks, ss, j))
    ensures var st' := Parse(toks', s'.lo, s'.hi);
            && |toks| == |toks'| && st'.Parsed?
            && (ComesBack(known', allowComputed, toks, toks', s')
                <==> !LoadTimeHazard(known', allowComputed, toks', st', s'.ctx)
                     && UsesBack(toks, toks', st', s'.ctx, known'.DefinedIn(s'.ctx)))
  {
    hide *;
    MovedSame(known, toks, ss, toks', j);
    var st, st' := Parse(toks, s'.lo, s'.hi), Parse(toks', s'.lo, s'.hi);
    MovedIsParsed(known, toks, toks', st, st', s'.ctx);
    UsesInside(toks, s'.lo, s'.hi);
    forall k | s'.lo <= k < s'.hi && (forall i :: 0 <= i < |st'.uses| ==> st'.uses[i].idx != k)
      ensures toks'[k].text == toks[k].text
    {
      MovedUnused(known, toks, ss, toks', j, k);
    }
    UsedWritten(known', allowComputed, toks, toks', st', s');
  }

  /** A moved statement comes back if and only if it amends no relative name but plain locals. */
  lemma MovedReturns(known: Known, allowComputed: bool, toks: seq<Tok>, ss: seq<Stmt>, toks': seq<Tok>, s': Stmt,
                     j: nat)
    requires Nests(known, toks, ss, toks') && j < |ss| && MovesTo(known, toks, ss, j).Some?
    requires s' == Stmt(ss[j].lo, ss[j].hi, RunsIn(known, toks, ss, j))
    ensures |toks| == |toks'| && (ComesBack(known, allowComputed, toks, toks', s') <==> AmendsIn(toks, ss[j]))
  {
    hide ComesBack, RunsIn, HidesSwitches, Parse, MovesTo, CountOf, Moved, Unmovable, LoadTimeHazard, UsesBack;
    hide AmendsLocals;
    assert |toks| == |toks'| && s'.lo < s'.hi <= |toks|;
    MovedSame(known, toks, ss, toks', j);
    MovedBack(known, known, allowComputed, toks, ss, toks', s', j);
    var st, st' := Parse(toks, s'.lo, s'.hi), Parse(toks', s'.lo, s'.hi);
    StatementRestored(known, toks, toks', st, st', s'.ctx);
    if AmendsLocals(toks, st) { MovedNoHazard(known, allowComputed, toks, toks', st, st', s'.ctx); }
  }

  /** Whatever the inputs define, no other moved statement comes back. */
  lemma OnlyMovedReturns(known: Known, known': Known, allowComputed: bool, toks: seq<Tok>, ss: seq<Stmt>,
                         toks': seq<Tok>, s': Stmt, j: nat)
    requires Nests(known, toks, ss, toks') && j < |ss| && MovesTo(known, toks, ss, j).Some?
    requires s' == Stmt(ss[j].lo, ss[j].hi, RunsIn(known, toks, ss, j))
    ensures |toks| == |toks'| && (ComesBack(known', allowComputed, toks, toks', s') ==> AmendsIn(toks, ss[j]))
  {
    hide ComesBack, RunsIn, HidesSwitches, Parse, MovesTo, CountOf, Moved, Unmovable, LoadTimeHazard, UsesBack;
    hide AmendsLocals;
    assert |toks| == |toks'| && s'.lo < s'.hi <= |toks|;
    MovedSame(known, toks, ss, toks', j);
    MovedBack(known, known', allowComputed, toks, ss, toks', s', j);
    var st, st' := Parse(toks, s'.lo, s'.hi), Parse(toks', s'.lo, s'.hi);
    OnlyLocalsRestored(known, toks, toks', st, st', s'.ctx, known'.DefinedIn(s'.ctx));
  }

  // ---- whole files

  /** A flat file whose shortened names are names of their own, and whose moved lambdas take relative parameters. */
  ghost predicate Nestable(known: Known, toks: seq<Tok>) {
    var ss := StatementsOf(toks);
    && IsFlat(toks) && LeavesNamed(known, toks, ss)
    && forall j: nat :: j < |ss| && MovesTo(known, toks, ss, j).Some? ==> ParamsIn(toks, ss[j])
  }

  lemma NestsFile(known: Known, text: string)
    requires LexOf(text).Lexed? && Nestable(known, LexOf(text).toks)
    ensures var toks := LexOf(text).toks; var lexed := LexOf(NestedText(known, toks));
            && lexed.Lexed? && Nests(known, toks, StatementsOf(toks), lexed.toks)
            && SameStatements(StatementsOf(toks), StatementsOf(lexed.toks))
  {
    hide LexOf, NestedText, StatementsOf, Valid, Nestled, LeavesNamed, IsFlat, MovesTo, ParamsIn, SameStatements;
    NestledFile(known, text);
  }

  /** Every statement of the nested file comes back. */
  ghost predicate AllBack(known: Known, allowComputed: bool, toks: seq<Tok>, toks': seq<Tok>, ss': seq<Stmt>)
    requires Ordered(toks', ss') && |toks| == |toks'|
  {
    forall j :: 0 <= j < |ss'| ==> ComesBack(known, allowComputed, toks, toks', ss'[j])
  }

  lemma {:induction false} NestedContextsNamed(known: Known, known': Known, toks: seq<Tok>, ss: seq<Stmt>,
                                               toks': seq<Tok>, ss': seq<Stmt>)
    requires Ordered(toks', ss') && |toks| == |toks'|
    requires Nests(known, toks, ss, toks') && ss' == StatementsOf(toks') && SameStatements(ss, ss')
    ensures ContextsNamed(known', toks', ss')
  {
    forall j, k: nat | 0 <= j < |ss'| && k < |toks'| && QualifiedIn(known', toks', ss'[j], k)
      ensures NameShaped(ss'[j].ctx)
    {
      assert Nested(ss'[j].ctx);
      NestsRunsIn(known, toks, ss, toks', ss', j);
    }
  }

  lemma NestsRunsIn(known: Known, toks: seq<Tok>, ss: seq<Stmt>, toks': seq<Tok>, ss': seq<Stmt>, j: nat)
    requires Nests(known, toks, ss, toks') && ss' == StatementsOf(toks') && SameStatements(ss, ss') && j < |ss|
    ensures ss'[j] == Stmt(ss[j].lo, ss[j].hi, RunsIn(known, toks, ss, j))
    ensures Nested(ss'[j].ctx) ==> NameShaped(ss'[j].ctx)
  {
    hide StatementsOf, Valid, Nestled, LeavesNamed, IsFlat, MovesTo, ParamsIn, SameStatements, RunsIn, Nested;
    hide NameShaped;
    RunsInIs(known, toks, ss, toks', ss', j);
    RunsInNamed(known, toks, ss, j);
  }

  /** Statement by statement back is token by token back. */
  lemma {:induction false} BackTokens(known: Known, allowComputed: bool, toks: seq<Tok>, toks': seq<Tok>,
                                      ss': seq<Stmt>,
                                      out: seq<string>)
    requires |toks| == |toks'| == |out| && Ordered(toks', ss')
    requires forall k :: 0 <= k < |toks| ==> FlatAt(known, toks', ss', out, k)
    requires forall k :: 0 <= k < |toks| && (forall j :: 0 <= j < |ss'| ==> !(ss'[j].lo <= k < ss'[j].hi)) ==>
               toks'[k].text == toks[k].text
    ensures AllBack(known, allowComputed, toks, toks', ss')
            <==> !(exists j :: 0 <= j < |ss'| && FlatRefused(known, allowComputed, toks', ss'[j])) && out == Texts(toks)
  {
    hide FlatText, FlatRefused;
    if AllBack(known, allowComputed, toks, toks', ss') {
      forall k | 0 <= k < |toks| ensures out[k] == toks[k].text {
        assert FlatAt(known, toks', ss', out, k);
        if j :| 0 <= j < |ss'| && ss'[j].lo <= k < ss'[j].hi {
          assert ComesBack(known, allowComputed, toks, toks', ss'[j]);
        }
      }
      assert out == Texts(toks);
    }
    if out == Texts(toks) && !(exists j :: 0 <= j < |ss'| && FlatRefused(known, allowComputed, toks', ss'[j])) {
      forall j | 0 <= j < |ss'| ensures ComesBack(known, allowComputed, toks, toks', ss'[j]) {
        forall k | ss'[j].lo <= k < ss'[j].hi ensures FlatText(known, toks', ss'[j], k) == toks[k].text {
          assert FlatAt(known, toks', ss', out, k) && out[k] == toks[k].text;
        }
      }
    }
  }

  lemma LexIsCut(text: string)
    requires LexOf(text).Lexed?
    ensures CutAll(text, LineStart) == Cuts(Unplaced(LexOf(text).toks))
  {
    UnplacedPlace("", CutAll(text, LineStart).all);
    hide CutAll, Place, Unplaced;
  }

  /** Two lexed files whose tokens are joined to one text have one list of token texts. */
  lemma SameTokens(text: string, text': string, out: seq<string>)
    requires LexOf(text).Lexed? && LexOf(text').Lexed? && |out| == |LexOf(text').toks|
    requires CutAll(Join(out), LineStart) == Cuts(Retexted(LexOf(text').toks, out)) && Join(out) == text
    ensures out == Texts(LexOf(text).toks)
  {
    LexIsCut(text);
    hide LexOf, CutAll, Join;
    var toks, toks' := LexOf(text).toks, LexOf(text').toks;
    assert Unplaced(toks) == Retexted(toks', out);
    forall k | 0 <= k < |out| ensures out[k] == toks[k].text {
      assert Unplaced(toks)[k] == Retexted(toks', out)[k];
    }
  }

  /** The file comes back if and only if each of its statements does, whatever the flattening run knows. */
  lemma {:induction false} FileBack(known: Known, known': Known, allowComputed: bool, text: string)
    requires LexOf(text).Lexed? && Nestable(known, LexOf(text).toks)
    ensures var toks := LexOf(text).toks; var lexed := LexOf(NestedText(known, toks));
            && lexed.Lexed? && |toks| == |lexed.toks|
            && (Convert(known', allowComputed, Flat, NestedText(known, toks)) == Written(text)
                <==> AllBack(known', allowComputed, toks, lexed.toks, StatementsOf(lexed.toks)))
  {
    hide LexOf, CutAll, NestedText, StatementsOf, Nestable, ConvertToks, Join, Retexted, Valid, FlatRefused, FlatAt;
    hide AllBack, ContextsNamed;
    var toks := LexOf(text).toks;
    var nested := NestedText(known, toks);
    NestsFile(known, text);
    var toks' := LexOf(nested).toks;
    var ss, ss' := StatementsOf(toks), StatementsOf(toks');
    assert Ordered(toks', ss') && |toks| == |toks'|;
    NestedContextsNamed(known, known', toks, ss, toks', ss');
    FlatOutput(known', allowComputed, toks');
    var cv := ConvertToks(known', allowComputed, Flat, toks');
    forall k | 0 <= k < |toks| && (forall j :: 0 <= j < |ss'| ==> !(ss'[j].lo <= k < ss'[j].hi))
      ensures toks'[k].text == toks[k].text
    {
      NestsOutside(known, toks, ss, toks', ss', k);
    }
    BackTokens(known', allowComputed, toks, toks', ss', cv.out);
    FlatRelexIff(known', allowComputed, nested);
    if Join(cv.out) == text { SameTokens(text, nested, cv.out); }
    if cv.out == Texts(toks) { OwnText(text); }
  }

  lemma NestsOutside(known: Known, toks: seq<Tok>, ss: seq<Stmt>, toks': seq<Tok>, ss': seq<Stmt>, k: nat)
    requires Nests(known, toks, ss, toks') && SameStatements(ss, ss') && k < |toks|
    requires forall j :: 0 <= j < |ss'| ==> !(ss'[j].lo <= k < ss'[j].hi)
    ensures toks'[k].text == toks[k].text
  {
    hide StatementsOf, Valid, LeavesNamed, IsFlat, MovesTo, ParamsIn, Nestled;
    OutsideStatements(known, toks, ss, toks', k);
  }

  lemma OutsideStatements(known: Known, toks: seq<Tok>, ss: seq<Stmt>, toks': seq<Tok>, k: nat)
    requires Nestled(known, toks, toks') && ss == StatementsOf(toks) && Ordered(toks, ss) && |toks| == |toks'|
    requires k < |toks|
    requires forall j: nat :: j < |ss| ==> !(ss[j].lo <= k < ss[j].hi)
    ensures toks'[k].text == toks[k].text
  {
    hide StatementsOf, NestText;
    assert toks'[k].text == Texts(toks')[k];
  }

  ghost predicate AllReturn(known: Known, allowComputed: bool, toks: seq<Tok>) {
    forall j: nat :: j < |StatementsOf(toks)| ==> StatementReturns(known, allowComputed, toks, StatementsOf(toks), j)
  }

  /** Statement `j` of the nested file, flattened. */
  lemma StatementBack(known: Known, allowComputed: bool, toks: seq<Tok>, ss: seq<Stmt>, toks': seq<Tok>, ss': seq<Stmt>,
                      j: nat)
    requires Nests(known, toks, ss, toks') && ss' == StatementsOf(toks') && SameStatements(ss, ss') && j < |ss|
    ensures |toks| == |toks'| && ss'[j].lo < ss'[j].hi <= |toks|
    ensures ComesBack(known, allowComputed, toks, toks', ss'[j]) <==>
            StatementReturns(known, allowComputed, toks, ss, j)
  {
    NestsRunsIn(known, toks, ss, toks', ss', j);
    assert |toks| == |toks'| && ss[j].lo < ss[j].hi <= |toks|;
    hide Nests, StatementsOf, SameStatements, ComesBack, RunsIn, HomeIn, Untouched, AmendsIn, Nested, ContextOf;
    hide ROOT_LINE;
    if !IsCodeStatement(toks, ss[j]) {
      LineReturns(known, known, allowComputed, toks, ss, toks', ss'[j], j);
    } else if MovesTo(known, toks, ss, j).Some? {
      hide MovesTo;
      MovedReturns(known, allowComputed, toks, ss, toks', ss'[j], j);
    } else {
      hide MovesTo;
      UnmovedReturns(known, allowComputed, toks, ss, toks', ss'[j], j);
    }
  }

  /** THE FILE'S ROUND TRIP. Nesting a flat file and flattening it with the same
      inputs gives the file back if and only if each statement is one that returns. */
  lemma {:induction false} FileReturns(known: Known, allowComputed: bool, text: string)
    requires LexOf(text).Lexed? && Nestable(known, LexOf(text).toks)
    ensures Convert(known, allowComputed, Flat, NestedText(known, LexOf(text).toks)) == Written(text)
            <==> AllReturn(known, allowComputed, LexOf(text).toks)
  {
    hide LexOf, NestedText, StatementsOf, Nestable, Nests, ComesBack, StatementReturns, Convert;
    var toks := LexOf(text).toks;
    NestsFile(known, text);
    var toks' := LexOf(NestedText(known, toks)).toks;
    var ss, ss' := StatementsOf(toks), StatementsOf(toks');
    FileBack(known, known, allowComputed, text);
    forall j: nat | j < |ss|
      ensures ComesBack(known, allowComputed, toks, toks', ss'[j]) <==>
              StatementReturns(known, allowComputed, toks, ss, j)
    {
      StatementBack(known, allowComputed, toks, ss, toks', ss', j);
    }
  }

  /** Each block that moves opens with just `\d .`, and its statements amend no relative name but plain locals. */
  ghost predicate Returnable(known: Known, toks: seq<Tok>) {
    forall j: nat :: j < |StatementsOf(toks)| ==> BlockReturnable(known, toks, StatementsOf(toks), j)
  }

  ghost predicate BlockReturnable(known: Known, toks: seq<Tok>, ss: seq<Stmt>, j: nat)
    requires Ordered(toks, ss) && j < |ss|
  {
    && (HomeIn(known, toks, ss, j).Some? ==> toks[ss[j].lo].text == ROOT_LINE)
    && (MovesTo(known, toks, ss, j).Some? ==> AmendsIn(toks, ss[j]))
  }

  lemma OnlyStatementBack(known: Known, known': Known, allowComputed: bool, toks: seq<Tok>, ss: seq<Stmt>,
                          toks': seq<Tok>, ss': seq<Stmt>,
                          j: nat)
    requires Nests(known, toks, ss, toks') && ss' == StatementsOf(toks') && SameStatements(ss, ss') && j < |ss|
    ensures |toks| == |toks'| && ss'[j].lo < ss'[j].hi <= |toks|
    ensures ComesBack(known', allowComputed, toks, toks', ss'[j]) ==> BlockReturnable(known, toks, ss, j)
  {
    NestsRunsIn(known, toks, ss, toks', ss', j);
    assert |toks| == |toks'| && ss[j].lo < ss[j].hi <= |toks|;
    if HomeIn(known, toks, ss, j).Some? { HomeOpens(known, toks, ss, j); }
    hide Nests, StatementsOf, SameStatements, ComesBack, RunsIn, HomeIn, Untouched, AmendsIn, Nested, ContextOf;
    hide ROOT_LINE, IsCandidate;
    if !IsCodeStatement(toks, ss[j]) {
      LineReturns(known, known', allowComputed, toks, ss, toks', ss'[j], j);
    } else if MovesTo(known, toks, ss, j).Some? {
      hide MovesTo;
      OnlyMovedReturns(known, known', allowComputed, toks, ss, toks', ss'[j], j);
    }
  }

  /** Whatever the flattening run knows, a file that comes back is returnable. */
  lemma {:induction false} OnlyReturnableReturns(known: Known, known': Known, allowComputed: bool, text: string)
    requires LexOf(text).Lexed? && Nestable(known, LexOf(text).toks)
    requires Convert(known', allowComputed, Flat, NestedText(known, LexOf(text).toks)) == Written(text)
    ensures Returnable(known, LexOf(text).toks)
  {
    hide LexOf, NestedText, StatementsOf, Nestable, Nests, ComesBack, BlockReturnable, Convert;
    var toks := LexOf(text).toks;
    NestsFile(known, text);
    var toks' := LexOf(NestedText(known, toks)).toks;
    var ss, ss' := StatementsOf(toks), StatementsOf(toks');
    FileBack(known, known', allowComputed, text);
    forall j: nat | j < |ss| ensures BlockReturnable(known, toks, ss, j) {
      OnlyStatementBack(known, known', allowComputed, toks, ss, toks', ss', j);
    }
  }

  lemma {:induction false} ClosedStatement(known: Known, allowComputed: bool, toks: seq<Tok>, ss: seq<Stmt>,
                                           toks': seq<Tok>, j: nat)
    requires Nests(known, toks, ss, toks') && j < |ss| && NoneStranded(known, toks, ss)
    ensures StatementReturns(known, allowComputed, toks, ss, j) <==> BlockReturnable(known, toks, ss, j)
  {
    hide StatementsOf, RunsIn, HomeIn, Untouched, AmendsIn, ContextOf, ROOT_LINE, IsCandidate, CountOf, LeftIn, MovesTo;
    hide HidesSwitches, SameStatements, Valid, Nestled, LeavesNamed;
    RunsInLeft(known, toks, ss, j);
    assert FlatStatement(toks, ss[j]) && !Stranded(known, toks, ss, j);
    if HomeIn(known, toks, ss, j).Some? { HomeOpens(known, toks, ss, j); }
    if MovesTo(known, toks, ss, j).Some? { MovedIsCode(known, toks, ss, j); }
  }

  /** In a file whose blocks that move leave nothing else inside, that is just what comes back. */
  lemma {:induction false} ClosedFileReturns(known: Known, allowComputed: bool, text: string)
    requires LexOf(text).Lexed? && Nestable(known, LexOf(text).toks)
    requires NoneStranded(known, LexOf(text).toks, StatementsOf(LexOf(text).toks))
    ensures Convert(known, allowComputed, Flat, NestedText(known, LexOf(text).toks)) == Written(text)
            <==> Returnable(known, LexOf(text).toks)
  {
    hide LexOf, NestedText, StatementsOf, Nestable, Nests, BlockReturnable, StatementReturns, Convert, NoneStranded;
    var toks := LexOf(text).toks;
    NestsFile(known, text);
    var toks' := LexOf(NestedText(known, toks)).toks;
    var ss := StatementsOf(toks);
    FileReturns(known, allowComputed, text);
    forall j: nat | j < |ss|
      ensures StatementReturns(known, allowComputed, toks, ss, j) <==> BlockReturnable(known, toks, ss, j)
    {
      ClosedStatement(known, allowComputed, toks, ss, toks', j);
    }
  }
}
