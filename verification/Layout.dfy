/** Rewritten tokens lexed again stand on the same lines and start the same statements. */
module Layout {
  import opened Chars
  import opened Lexer
  import opened LexerProofs
  import opened Scanner
  import opened Converter

  /** The pieces of `toks` with other texts. */
  function Retexted(toks: seq<Tok>, out: seq<string>): (qs: seq<Piece>)
    requires |out| == |toks|
    ensures |qs| == |toks| && forall k :: 0 <= k < |qs| ==> qs[k] == Piece(toks[k].kind, out[k])
  {
    seq(|toks|, k requires 0 <= k < |toks| => Piece(toks[k].kind, out[k]))
  }

  lemma {:induction false} JoinIsConcat(toks: seq<Tok>, out: seq<string>)
    requires |out| == |toks|
    ensures Join(out) == Concat(Retexted(toks, out))
  {
    if out != [] {
      JoinIsConcat(toks[1..], out[1..]);
      assert Retexted(toks, out)[1..] == Retexted(toks[1..], out[1..]);
    }
  }

  /** Token by token: the same kind, the same line, and at a line's start or not alike. */
  ghost predicate SameLayout(toks: seq<Tok>, toks': seq<Tok>) {
    |toks| == |toks'| &&
    forall k :: 0 <= k < |toks| ==>
      toks[k].kind == toks'[k].kind && toks[k].line == toks'[k].line && (toks[k].col == 0 <==> toks'[k].col == 0)
  }

  lemma {:induction false} AtStart(s: string)
    ensures ColAfter(s) == 0 <==> s == "" || s[|s| - 1] == '\n'
  {
  }

  lemma {:induction false} ConcatLast(ps: seq<Piece>, k: nat)
    requires 0 < k <= |ps| && ps[k - 1].text != ""
    ensures Concat(ps[..k]) != "" && Concat(ps[..k])[|Concat(ps[..k])| - 1] == ps[k - 1].text[|ps[k - 1].text| - 1]
  {
    assert ps[..k] == ps[..k - 1] + [ps[k - 1]];
    ConcatAppend(ps[..k - 1], [ps[k - 1]]);
    assert Concat([ps[k - 1]]) == ps[k - 1].text;
  }

  lemma {:induction false} SameNewlines(ps: seq<Piece>, qs: seq<Piece>, k: nat)
    requires |ps| == |qs| && k <= |ps|
    requires forall i :: 0 <= i < k ==> CountOf(ps[i].text, '\n') == CountOf(qs[i].text, '\n')
    ensures CountOf(Concat(ps[..k]), '\n') == CountOf(Concat(qs[..k]), '\n')
    decreases k
  {
    hide CountOf;
    if k == 0 {
      assert ps[..0] == [] && qs[..0] == [];
    } else {
      SameNewlines(ps, qs, k - 1);
      ConcatSnoc(ps, k);
      ConcatSnoc(qs, k);
      CountOfConcat(Concat(ps[..k - 1]), ps[k - 1].text, '\n');
      CountOfConcat(Concat(qs[..k - 1]), qs[k - 1].text, '\n');
    }
  }

  lemma ConcatSnoc(ps: seq<Piece>, k: nat)
    requires 0 < k <= |ps|
    ensures Concat(ps[..k]) == Concat(ps[..k - 1]) + ps[k - 1].text
  {
    assert ps[..k] == ps[..k - 1] + [ps[k - 1]];
    ConcatAppend(ps[..k - 1], [ps[k - 1]]);
    assert Concat([ps[k - 1]]) == ps[k - 1].text;
  }

  /** A piece and its rewriting hold as many newlines, and end a line or not alike. */
  lemma RewriteKeepsLines(ps: seq<Piece>, qs: seq<Piece>, k: nat)
    requires Valid(ps, LineStart) && Valid(qs, LineStart) && RewritesAll(ps, qs) && k < |ps|
    ensures ps[k].text != "" && qs[k].text != ""
    ensures CountOf(ps[k].text, '\n') == CountOf(qs[k].text, '\n')
    ensures ps[k].text[|ps[k].text| - 1] == '\n' <==> qs[k].text[|qs[k].text| - 1] == '\n'
  {
    hide Step, CountOf, NameShaped;
    ValidAt(ps, LineStart, k);
    ValidAt(qs, LineStart, k);
    assert ps[k..][0] == ps[k] && qs[k..][0] == qs[k];
    NoneCounted(ps[k].text, '\n');
    NoneCounted(qs[k].text, '\n');
    assert Rewrites(ps[k], qs[k]);
    if ps[k].text != qs[k].text && ps[k].kind == Name {
      PieceIsName(ps[k].text, Concat(ps[k..][1..]), ModeAt(ps, LineStart, k));
      PieceIsName(qs[k].text, Concat(qs[k..][1..]), ModeAt(qs, LineStart, k));
      NameHasNoNewline(ps[k].text);
      NameHasNoNewline(qs[k].text);
    }
  }

  lemma {:induction false} PlaceKeepsLayout(ps: seq<Piece>, qs: seq<Piece>, k: nat)
    requires Valid(ps, LineStart) && Valid(qs, LineStart) && RewritesAll(ps, qs) && k < |ps|
    ensures LineAfter(Concat(ps[..k])) == LineAfter(Concat(qs[..k]))
    ensures ColAfter(Concat(ps[..k])) == 0 <==> ColAfter(Concat(qs[..k])) == 0
  {
    hide Valid, CountOf, Rewrites, ColAfter;
    forall i | 0 <= i < k ensures CountOf(ps[i].text, '\n') == CountOf(qs[i].text, '\n') {
      RewriteKeepsLines(ps, qs, i);
    }
    SameNewlines(ps, qs, k);
    AtStart(Concat(ps[..k]));
    AtStart(Concat(qs[..k]));
    if k > 0 {
      RewriteKeepsLines(ps, qs, k - 1);
      ConcatLast(ps, k);
      ConcatLast(qs, k);
    } else {
      assert ps[..0] == [] && qs[..0] == [];
    }
  }

  /** Re-lexing rewritten tokens keeps kinds, order and line numbers. */
  lemma {:induction false} RelexKeepsLayout(text: string, out: seq<string>)
    requires LexOf(text).Lexed?
    requires |out| == |LexOf(text).toks|
    requires RewritesAll(Unplaced(LexOf(text).toks), Retexted(LexOf(text).toks, out))
    requires KeepsBoundaries(Unplaced(LexOf(text).toks), Retexted(LexOf(text).toks, out))
    ensures LexOf(Join(out)).Lexed?
    ensures SameLayout(LexOf(text).toks, LexOf(Join(out)).toks) && Texts(LexOf(Join(out)).toks) == out
  {
    var toks := LexOf(text).toks;
    var ps, qs := Unplaced(toks), Retexted(toks, out);
    LexIsLossless(text);
    JoinIsConcat(toks, out);
    RelexIff(ps, qs);
    var toks' := Place("", qs);
    assert LexOf(Join(out)) == Lexed(toks');
    UnplacedPlace("", qs);
    LexIsLossless(Join(out));
    hide *;
    PlacedAlike(toks, toks', ps, qs);
    PlacedTexts(toks, toks', out);
  }

  lemma {:induction false} PlacedAlike(toks: seq<Tok>, toks': seq<Tok>, ps: seq<Piece>, qs: seq<Piece>)
    requires ps == Unplaced(toks) && qs == Unplaced(toks') && |ps| == |qs|
    requires Valid(ps, LineStart) && Valid(qs, LineStart) && RewritesAll(ps, qs)
    requires forall k :: 0 <= k < |ps| ==> ps[k].kind == qs[k].kind
    requires forall k :: 0 <= k < |ps| ==>
               toks[k].line == LineAfter(Concat(ps[..k])) && toks[k].col == ColAfter(Concat(ps[..k]))
    requires forall k :: 0 <= k < |qs| ==>
               toks'[k].line == LineAfter(Concat(qs[..k])) && toks'[k].col == ColAfter(Concat(qs[..k]))
    ensures SameLayout(toks, toks')
  {
    assert |toks| == |toks'|;
    assert forall k :: 0 <= k < |toks| ==> ps[k].kind == toks[k].kind && qs[k].kind == toks'[k].kind;
    hide Unplaced, Valid, LineAfter, ColAfter, RewritesAll, Concat;
    forall k | 0 <= k < |toks|
      ensures toks[k].kind == toks'[k].kind && toks[k].line == toks'[k].line
      ensures (toks[k].col == 0 <==> toks'[k].col == 0)
    {
      PlaceKeepsLayout(ps, qs, k);
    }
  }

  lemma PlacedTexts(toks: seq<Tok>, toks': seq<Tok>, out: seq<string>)
    requires |out| == |toks| && Unplaced(toks') == Retexted(toks, out)
    ensures Texts(toks') == out
  {
    assert |toks'| == |out|;
    forall k | 0 <= k < |out| ensures toks'[k].text == out[k] {
      assert Unplaced(toks')[k] == Retexted(toks, out)[k];
    }
  }

  lemma {:induction false} SameStarts(toks: seq<Tok>, toks': seq<Tok>, k: nat)
    requires SameLayout(toks, toks') && k <= |toks|
    ensures StartsFrom(toks, k) == StartsFrom(toks', k)
    decreases |toks| - k
  {
    if k < |toks| { SameStarts(toks, toks', k + 1); }
  }

  /** The statements of the two files, their contexts aside. */
  ghost predicate SameStatements(ss: seq<Stmt>, ss': seq<Stmt>) {
    |ss| == |ss'| && forall j :: 0 <= j < |ss| ==> ss[j].lo == ss'[j].lo && ss[j].hi == ss'[j].hi
  }

  lemma SameAt(ss: seq<Stmt>, ss': seq<Stmt>, j: nat)
    requires SameStatements(ss, ss') && j < |ss|
    ensures |ss'| == |ss| && ss'[j] == Stmt(ss[j].lo, ss[j].hi, ss'[j].ctx)
  {
  }

  lemma LayoutKeepsStatements(toks: seq<Tok>, toks': seq<Tok>)
    requires SameLayout(toks, toks')
    ensures SameStatements(StatementsOf(toks), StatementsOf(toks'))
  {
    SameStarts(toks, toks', 0);
  }

  /** Each statement's context follows from the one before. */
  lemma {:induction false} ContextAt(toks: seq<Tok>, starts: seq<nat>, i: nat, ctx: string, j: nat)
    requires i <= |starts| && i + j < |starts|
    requires forall a :: 0 <= a < |starts| ==> starts[a] < |toks|
    requires forall a, b :: 0 <= a < b < |starts| ==> starts[a] < starts[b]
    ensures var ss := StatementsFrom(toks, starts, i, ctx);
            ss[j].ctx == if j == 0 then ctx else NextContext(toks[ss[j - 1].lo], ss[j - 1].ctx)
    decreases j
  {
    hide *;
    FirstStatement(toks, starts, i, ctx);
    if j > 0 {
      var next := NextContext(toks[starts[i]], ctx);
      LaterStatement(toks, starts, i, ctx, j);
      if j > 1 { LaterStatement(toks, starts, i, ctx, j - 1); }
      ContextAt(toks, starts, i + 1, next, j - 1);
    }
  }

  lemma FirstStatement(toks: seq<Tok>, starts: seq<nat>, i: nat, ctx: string)
    requires i < |starts|
    requires forall a :: 0 <= a < |starts| ==> starts[a] < |toks|
    requires forall a, b :: 0 <= a < b < |starts| ==> starts[a] < starts[b]
    ensures var s := StatementsFrom(toks, starts, i, ctx)[0]; s.lo == starts[i] && s.ctx == ctx
  {
    hide NextContext;
  }

  lemma LaterStatement(toks: seq<Tok>, starts: seq<nat>, i: nat, ctx: string, j: nat)
    requires 0 < j && i + j < |starts|
    requires forall a :: 0 <= a < |starts| ==> starts[a] < |toks|
    requires forall a, b :: 0 <= a < b < |starts| ==> starts[a] < starts[b]
    ensures StatementsFrom(toks, starts, i, ctx)[j]
            == StatementsFrom(toks, starts, i + 1, NextContext(toks[starts[i]], ctx))[j - 1]
  {
    hide NextContext;
  }

  lemma StatementContext(toks: seq<Tok>, j: nat)
    requires j < |StatementsOf(toks)|
    ensures var ss := StatementsOf(toks);
            ss[j].ctx == if j == 0 then "." else NextContext(toks[ss[j - 1].lo], ss[j - 1].ctx)
  {
    ContextAt(toks, StartsFrom(toks, 0), 0, ".", j);
  }
}
