/** When the 5.0 output lexes into the tokens it was joined from, and the contexts its statements then run in. */
module NestLexing {
  import opened Options
  import opened Chars
  import opened Lexer
  import opened LexerProofs
  import opened QWords
  import opened Scanner
  import opened Converter
  import opened Layout
  import opened Flatten
  import opened FlattenLexing
  import opened Nesting

  // ---- the context a block moves into

  lemma HomeOfUses(toks: seq<Tok>, st: Statement, ctx: string) returns (u: nat)
    requires st.Parsed? && ctx in HomesOf(toks, st)
    ensures u < |st.uses| && ParentOf(TextOf(toks, st.uses[u].idx)) == ctx && Nested(ctx)
  {
    hide CountOf, ParentOf;
    u :| 0 <= u < |st.uses| && Nested(ParentOf(TextOf(toks, st.uses[u].idx))) &&
      ParentOf(TextOf(toks, st.uses[u].idx)) == ctx;
  }

  lemma HomeOfStatement(toks: seq<Tok>, s: Stmt, ctx: string) returns (k: nat)
    requires s.lo < s.hi <= |toks| && Parse(toks, s.lo, s.hi).Parsed? && ctx in HomesOf(toks, Parse(toks, s.lo, s.hi))
    ensures k < |toks| && toks[k].kind == Name && Nested(ctx) && ParentOf(toks[k].text) == ctx
  {
    hide Parse, Nested, RelativeDotted, ParentOf, HomesOf;
    ParseUses(toks, s.lo, s.hi);
    var u := HomeOfUses(toks, Parse(toks, s.lo, s.hi), ctx);
    k := Parse(toks, s.lo, s.hi).uses[u].idx;
  }

  lemma {:induction false} HomeHasName(toks: seq<Tok>, block: seq<Stmt>, i: nat, ctx: string) returns (k: nat)
    requires Ordered(toks, block) && AllParse(toks, block) && i <= |block| && ctx in HomesFrom(toks, block, i)
    ensures k < |toks| && toks[k].kind == Name && Nested(ctx) && ParentOf(toks[k].text) == ctx
    decreases |block| - i
  {
    hide Parse, Nested, HomesOf, ParentOf;
    if ctx in HomesOf(toks, Parse(toks, block[i].lo, block[i].hi)) {
      k := HomeOfStatement(toks, block[i], ctx);
    } else {
      k := HomeHasName(toks, block, i + 1, ctx);
    }
  }

  lemma {:induction false} ParentIsName(name: string)
    requires NameShaped(name) && Nested(ParentOf(name))
    ensures NameShaped(ParentOf(name))
  {
    var ctx := ParentOf(name);
    var n := |ctx|;
    NameStarts(name);
    assert ctx == name[..n] && name[n] == '.' && n >= 1;
    assert name[0] == ctx[0] == '.';
    assert NameGoesOn(name, n);
    assert IsNameStart(name[1]) && n != 1;
    forall i | 1 <= i < n ensures NameGoesOn(ctx, i) {
      assert NameGoesOn(name, i);
      assert i + 1 == n && name[i] == '.' ==> name[n] == '.';
    }
    NameShapedIs(ctx);
  }

  lemma WordIsD(line: string)
    requires |line| >= 3 && line[..3] == "\\d "
    ensures WordEnd(line) == 2
  {
    assert line[0] == line[..3][0] && line[1] == line[..3][1] && line[2] == line[..3][2];
    assert line[1..][1..] == line[2..];
    assert WordEnd(line[2..]) == 0 && WordEnd(line[1..]) == 1;
  }

  lemma StripsOne(s: string, t: string)
    requires s == " " + t && t != "" && !IsSpace(t[0]) && !IsSpace(t[|t| - 1])
    ensures Strip(s) == t
  {
    assert s[1..] == t;
    assert LeadingSpaces(s) == 1 by {
      assert LeadingSpaces(t) == 0;
    }
    assert TrailingSpaces(t) == 0;
  }

  /** A line that switches to a context whose name is one whole name says just that. */
  lemma {:induction false} SwitchLine(ctx: string)
    requires NameShaped(ctx) && ctx[0] == '.'
    ensures SwitchShaped("\\d " + ctx) && ContextOf("\\d " + ctx) == Some(ctx)
  {
    hide NameShaped, Strip, WordEnd;
    var t := "\\d " + ctx;
    NameStarts(ctx);
    NameHasNoNewline(ctx);
    var last := ctx[|ctx| - 1];
    assert NameGoesOn(ctx, |ctx| - 1);
    assert IsNameChar(last) && !IsSpace(last);
    WordIsD(t);
    StripsOne(t[2..], ctx);
    assert t[..2] == "\\d" && t[|t| - 1] == last;
    forall i | 0 <= i < |t| ensures t[i] != '\n' { if i >= 3 { assert t[i] == ctx[i - 3]; } }
  }

  lemma HomeInIs(known: Known, toks: seq<Tok>, ss: seq<Stmt>, i: nat) returns (block: seq<Stmt>)
    requires Ordered(toks, ss) && i < |ss| && HomeIn(known, toks, ss, i).Some?
    ensures Ordered(toks, block) && block == ss[i + 1..BlockStop(toks, ss, i + 1)]
    ensures HomeOf(known, toks, block) == HomeIn(known, toks, ss, i)
  {
    hide HomeOf, IsCandidate;
    block := ss[i + 1..BlockStop(toks, ss, i + 1)];
  }

  lemma {:induction false} HomeIsName(known: Known, toks: seq<Tok>, ss: seq<Stmt>, i: nat)
    requires Ordered(toks, ss) && i < |ss| && HomeIn(known, toks, ss, i).Some? && Valid(Unplaced(toks), LineStart)
    ensures var ctx := HomeIn(known, toks, ss, i).value;
            && NameShaped(ctx) && Nested(ctx) && SwitchShaped("\\d " + ctx) && ContextOf("\\d " + ctx) == Some(ctx)
  {
    var block := HomeInIs(known, toks, ss, i);
    var ctx := HomeIn(known, toks, ss, i).value;
    hide HomeIn, Valid, CountOf, HomesFrom, HomeOf, AllParse, Movable, SwitchShaped, ContextOf, NameShaped, ParentOf;
    HomeParses(known, toks, block);
    var k := HomeHasName(toks, block, 0, ctx);
    assert Unplaced(toks)[k] == Piece(toks[k].kind, toks[k].text);
    NamePiece(Unplaced(toks), k);
    ParentIsName(toks[k].text);
    SwitchLine(ctx);
  }

  // ---- the tokens written

  /** Token `k` of statement `j` is a name the conversion shortens. */
  ghost predicate ShortenedIn(known: Known, toks: seq<Tok>, ss: seq<Stmt>, j: nat, k: nat)
    requires Ordered(toks, ss) && j < |ss|
  {
    MovesTo(known, toks, ss, j).Some? && Shortened(toks, ss[j], MovesTo(known, toks, ss, j).value, k)
  }

  lemma ShortenedName(toks: seq<Tok>, s: Stmt, ctx: string, k: nat)
    requires s.lo < s.hi <= |toks| && Shortened(toks, s, ctx, k)
    ensures toks[k].kind == Name && |ctx| + 1 <= |toks[k].text|
    ensures toks[k].text == ctx + "." + MovedText(toks, s, ctx, k)
    ensures var leaf := MovedText(toks, s, ctx, k); '.' !in leaf && !IsBuiltin(leaf) && leaf != toks[k].text
  {
    ParseUses(toks, s.lo, s.hi);
    hide Parse;
    var st := Parse(toks, s.lo, s.hi);
    var u :| 0 <= u < |st.uses| && st.uses[u].idx == k && ShortOf(st.lams, st.uses[u], TextOf(toks, k), ctx).Some?;
    ShortIsLeaf(st.lams, st.uses[u], TextOf(toks, k), ctx);
    hide IsBuiltin, IsLocalIn;
  }

  /** The shortened names are names of their own: each leaf starts with a letter, and none follows an operator dot. */
  ghost predicate LeavesNamed(known: Known, toks: seq<Tok>, ss: seq<Stmt>)
    requires Ordered(toks, ss)
  {
    forall j: nat, k: nat :: j < |ss| && k < |toks| && ShortenedIn(known, toks, ss, j, k) ==>
        LeafNamed(known, toks, ss, j, k)
  }

  ghost predicate LeafNamed(known: Known, toks: seq<Tok>, ss: seq<Stmt>, j: nat, k: nat)
    requires Ordered(toks, ss) && j < |ss| && k < |toks| && ShortenedIn(known, toks, ss, j, k)
  {
    && StartsBare(MovedText(toks, ss[j], MovesTo(known, toks, ss, j).value, k))
    && (k > 0 ==> !(toks[k - 1].kind == Op && toks[k - 1].text == "."))
  }

  /** The text token `k` has in the 5.0 output. */
  ghost predicate NestTokens(known: Known, toks: seq<Tok>, ss: seq<Stmt>, out: seq<string>)
    requires Ordered(toks, ss)
  {
    && |out| == |toks|
    && (forall j: nat, k: nat :: j < |ss| && ss[j].lo <= k < ss[j].hi ==> out[k] == NestText(known, toks, ss, j, k))
    && (forall k: nat :: k < |toks| && (forall j :: 0 <= j < |ss| ==> !(ss[j].lo <= k < ss[j].hi)) ==>
        out[k] == toks[k].text)
  }

  lemma WrittenEverywhere(known: Known, toks: seq<Tok>, ss: seq<Stmt>, out: seq<string>)
    requires Ordered(toks, ss) && |out| == |toks|
    requires forall k: nat :: k < |toks| ==> WrittenAt(known, toks, ss, 0, |ss|, Texts(toks), out, k)
    ensures NestTokens(known, toks, ss, out)
  {
    hide NestText;
    forall j: nat, k: nat | j < |ss| && ss[j].lo <= k < ss[j].hi ensures out[k] == NestText(known, toks, ss, j, k) {
      assert WrittenAt(known, toks, ss, 0, |ss|, Texts(toks), out, k);
    }
    forall k: nat | k < |toks| && (forall j :: 0 <= j < |ss| ==> !(ss[j].lo <= k < ss[j].hi))
      ensures out[k] == toks[k].text
    {
      assert WrittenAt(known, toks, ss, 0, |ss|, Texts(toks), out, k);
    }
  }

  lemma NestOutputTokens(known: Known, toks: seq<Tok>)
    ensures NestTokens(known, toks, StatementsOf(toks), NestFrom(known, toks, StatementsOf(toks), 0, Texts(toks)))
  {
    hide StatementsOf, NestFrom, WrittenAt, NestTokens;
    var ss := StatementsOf(toks);
    var out := NestFrom(known, toks, ss, 0, Texts(toks));
    NestOutput(known, toks, out);
    WrittenEverywhere(known, toks, ss, out);
  }

  /** A changed token: a block's head, or a shortened name. */
  lemma NestChange(known: Known, toks: seq<Tok>, ss: seq<Stmt>, out: seq<string>, k: nat) returns (j: nat)
    requires Ordered(toks, ss) && NestTokens(known, toks, ss, out) && k < |toks| && out[k] != toks[k].text
    ensures j < |ss| && ss[j].lo <= k < ss[j].hi
    ensures || (&& k == ss[j].lo && toks[k].kind == Sys && HomeIn(known, toks, ss, j).Some? && OpensRoot(toks[k])
                && out[k] == "\\d " + HomeIn(known, toks, ss, j).value)
            || (&& ShortenedIn(known, toks, ss, j, k)
                && out[k] == MovedText(toks, ss[j], MovesTo(known, toks, ss, j).value, k))
  {
    j :| 0 <= j < |ss| && ss[j].lo <= k < ss[j].hi;
    assert out[k] == NestText(known, toks, ss, j, k);
    if HomeIn(known, toks, ss, j).Some? { HomeOpens(known, toks, ss, j); }
    hide HomeIn, MovesTo, Shortened, NestTokens, OpensRoot;
  }

  lemma HomeOpens(known: Known, toks: seq<Tok>, ss: seq<Stmt>, j: nat)
    requires Ordered(toks, ss) && j < |ss| && HomeIn(known, toks, ss, j).Some?
    ensures OpensRoot(toks[ss[j].lo]) && IsCandidate(toks, ss, j, BlockStop(toks, ss, j + 1))
  {
    hide HomeOf, ContextOf;
  }

  lemma {:induction false} NestRewrites(known: Known, toks: seq<Tok>, ss: seq<Stmt>, out: seq<string>)
    requires Ordered(toks, ss) && NestTokens(known, toks, ss, out) && Valid(Unplaced(toks), LineStart)
    ensures RewritesAll(Unplaced(toks), Retexted(toks, out))
  {
    hide HomeIn, MovesTo, Shortened, Valid, SwitchShaped, ContextOf, MovedText;
    assert |out| == |toks|;
    forall k | 0 <= k < |toks| && out[k] != toks[k].text
      ensures toks[k].kind == Name || (toks[k].kind == Sys && SwitchShaped(toks[k].text) && SwitchShaped(out[k]))
    {
      var j := NestChange(known, toks, ss, out, k);
      if ShortenedIn(known, toks, ss, j, k) {
        ShortenedName(toks, ss[j], MovesTo(known, toks, ss, j).value, k);
      } else {
        HomeIsName(known, toks, ss, j);
        assert Unplaced(toks)[k] == Piece(toks[k].kind, toks[k].text);
        SysPiece(Unplaced(toks), k);
        SwitchIsShaped(toks[k].text);
      }
    }
  }

  lemma {:induction false} LeafIsName(leaf: string, name: string, ctx: string)
    requires NameShaped(name) && name == ctx + "." + leaf && '.' !in leaf
    ensures NameShaped(leaf) <==> StartsBare(leaf)
  {
    NameStarts(name);
    var n := |ctx| + 1;
    assert forall i :: 0 <= i < |leaf| ==> leaf[i] == name[n + i] && leaf[i] != '.';
    if StartsBare(leaf) {
      forall i | 1 <= i < |leaf| ensures NameGoesOn(leaf, i) { assert NameGoesOn(name, n + i); }
      NameShapedIs(leaf);
    }
    if NameShaped(leaf) { NameStarts(leaf); }
  }

  lemma ShortenedShape(known: Known, toks: seq<Tok>, ss: seq<Stmt>, j: nat, k: nat)
    requires Ordered(toks, ss) && j < |ss| && ShortenedIn(known, toks, ss, j, k) && Valid(Unplaced(toks), LineStart)
    ensures k < |toks| && toks[k].kind == Name
    ensures var leaf := MovedText(toks, ss[j], MovesTo(known, toks, ss, j).value, k);
            leaf != toks[k].text && (NameShaped(leaf) <==> StartsBare(leaf))
  {
    var ctx := MovesTo(known, toks, ss, j).value;
    ShortenedName(toks, ss[j], ctx, k);
    hide Valid, NameShaped, MovedText, StartsBare, MovesTo;
    assert Unplaced(toks)[k] == Piece(toks[k].kind, toks[k].text);
    NamePiece(Unplaced(toks), k);
    LeafIsName(MovedText(toks, ss[j], ctx, k), toks[k].text, ctx);
  }

  lemma ShortenedText(known: Known, toks: seq<Tok>, ss: seq<Stmt>, j: nat, k: nat)
    requires Ordered(toks, ss) && j < |ss| && ss[j].lo <= k < ss[j].hi && MovesTo(known, toks, ss, j).Some?
    ensures NestText(known, toks, ss, j, k) == MovedText(toks, ss[j], MovesTo(known, toks, ss, j).value, k)
  {
    assert IsCodeStatement(toks, ss[j]);
    hide HomeIn, MovesTo, MovedText, IsCodeStatement;
  }

  lemma ShortenedWritten(known: Known, toks: seq<Tok>, ss: seq<Stmt>, out: seq<string>, j: nat, k: nat)
    requires Ordered(toks, ss) && NestTokens(known, toks, ss, out) && j < |ss| && ShortenedIn(known, toks, ss, j, k)
    ensures k < |toks| && out[k] == MovedText(toks, ss[j], MovesTo(known, toks, ss, j).value, k)
  {
    hide MovesTo, Parse, ShortenedFrom, MovedText, NestText;
    ShortenedText(known, toks, ss, j, k);
  }

  /** Token `k` of the rewriting is a name of its own where it changed. */
  predicate NamedOwn(ps: seq<Piece>, qs: seq<Piece>, k: nat)
    requires k < |ps| == |qs|
  {
    ps[k] != qs[k] && ps[k].kind == Name ==>
      NameShaped(qs[k].text) && (k > 0 && StartsBare(qs[k].text) ==> ps[k - 1] != Piece(Op, "."))
  }

  lemma KeepsIsNamed(ps: seq<Piece>, qs: seq<Piece>)
    requires |ps| == |qs|
    ensures KeepsBoundaries(ps, qs) <==> forall k :: 0 <= k < |ps| ==> NamedOwn(ps, qs, k)
  {
    hide NameShaped, StartsBare;
    if forall k :: 0 <= k < |ps| ==> NamedOwn(ps, qs, k) {
      forall k | 0 <= k < |ps| && ps[k] != qs[k] && ps[k].kind == Name
        ensures NameShaped(qs[k].text) && (k > 0 && StartsBare(qs[k].text) ==> ps[k - 1] != Piece(Op, "."))
      {
        assert NamedOwn(ps, qs, k);
      }
    }
  }

  lemma RetextedAt(toks: seq<Tok>, out: seq<string>, k: nat)
    requires |out| == |toks| && k < |toks|
    ensures Unplaced(toks)[k] == Piece(toks[k].kind, toks[k].text)
    ensures Retexted(toks, out)[k] == Piece(toks[k].kind, out[k])
    ensures k > 0 ==> Unplaced(toks)[k - 1] == Piece(toks[k - 1].kind, toks[k - 1].text)
  {
  }

  lemma LeafBoundary(known: Known, toks: seq<Tok>, ss: seq<Stmt>, out: seq<string>, j: nat, k: nat)
    requires Ordered(toks, ss) && NestTokens(known, toks, ss, out) && Valid(Unplaced(toks), LineStart)
    requires j < |ss| && k < |toks| && ShortenedIn(known, toks, ss, j, k)
    ensures |out| == |toks| && (NamedOwn(Unplaced(toks), Retexted(toks, out), k) <==> LeafNamed(known, toks, ss, j, k))
  {
    assert |out| == |toks|;
    hide HomeIn, MovesTo, Shortened, NestTokens, Valid, MovedText, NameShaped, StartsBare;
    RetextedAt(toks, out, k);
    ShortenedShape(known, toks, ss, j, k);
    ShortenedWritten(known, toks, ss, out, j, k);
  }

  /** No boundary merges or splits if and only if the shortened names are names of their own. */
  lemma {:induction false} NestBoundaries(known: Known, toks: seq<Tok>, ss: seq<Stmt>, out: seq<string>)
    requires Ordered(toks, ss) && NestTokens(known, toks, ss, out) && Valid(Unplaced(toks), LineStart)
    ensures KeepsBoundaries(Unplaced(toks), Retexted(toks, out)) <==> LeavesNamed(known, toks, ss)
  {
    var ps, qs := Unplaced(toks), Retexted(toks, out);
    assert |out| == |toks|;
    KeepsIsNamed(ps, qs);
    hide HomeIn, MovesTo, NestTokens, Valid, MovedText, NamedOwn, LeafNamed, ShortenedIn, KeepsBoundaries, Unplaced;
    hide Retexted;
    forall j: nat, k: nat | j < |ss| && k < |toks| && ShortenedIn(known, toks, ss, j, k)
      ensures NamedOwn(ps, qs, k) <==> LeafNamed(known, toks, ss, j, k)
    {
      LeafBoundary(known, toks, ss, out, j, k);
    }
    forall k | 0 <= k < |toks| && !NamedOwn(ps, qs, k)
      ensures exists j: nat :: j < |ss| && ShortenedIn(known, toks, ss, j, k)
    {
      RetextedAt(toks, out, k);
      OwnSame(ps, qs, k);
      var j := NestChange(known, toks, ss, out, k);
    }
  }

  lemma OwnSame(ps: seq<Piece>, qs: seq<Piece>, k: nat)
    requires k < |ps| == |qs| && !NamedOwn(ps, qs, k)
    ensures ps[k] != qs[k] && ps[k].kind == Name
  {
    hide NameShaped, StartsBare;
  }

  /** The 5.0 output lexes back into the tokens it was joined from if and only
      if every shortened name starts with a letter and follows no operator dot. */
  lemma {:induction false} NestRelexIff(known: Known, text: string)
    requires LexOf(text).Lexed?
    ensures var toks := LexOf(text).toks; var out := NestFrom(known, toks, StatementsOf(toks), 0, Texts(toks));
            CutAll(Join(out), LineStart) == Cuts(Retexted(toks, out)) <==> LeavesNamed(known, toks, StatementsOf(toks))
  {
    hide Valid, LexOf, CutAll, NestFrom, StatementsOf, NestTokens, LeavesNamed, KeepsBoundaries, RewritesAll;
    var toks := LexOf(text).toks;
    LexIsLossless(text);
    var ss := StatementsOf(toks);
    var out := NestFrom(known, toks, ss, 0, Texts(toks));
    NestOutputTokens(known, toks);
    NestRewrites(known, toks, ss, out);
    NestBoundaries(known, toks, ss, out);
    JoinIsConcat(toks, out);
    RelexIff(Unplaced(toks), Retexted(toks, out));
  }

  // ---- contexts

  ghost predicate Nestled(known: Known, toks: seq<Tok>, toks': seq<Tok>) {
    SameLayout(toks, toks') && NestTokens(known, toks, StatementsOf(toks), Texts(toks'))
  }

  lemma SysTextNested(known: Known, toks: seq<Tok>, toks': seq<Tok>, j: nat)
    requires Nestled(known, toks, toks') && j < |StatementsOf(toks)|
    ensures var ss := StatementsOf(toks);
            var t, t' := toks[ss[j].lo], toks'[ss[j].lo];
            && t.kind == t'.kind
            && (t.kind == Sys ==>
                t'.text
                == if HomeIn(known, toks, ss, j).Some? then "\\d " + HomeIn(known, toks, ss, j).value else t.text)
  {
    var ss := StatementsOf(toks);
    var k := ss[j].lo;
    assert toks'[k].text == Texts(toks')[k];
    hide StatementsOf, HomeIn;
    assert Texts(toks')[k] == NestText(known, toks, ss, j, k);
  }
}
