/** Small files worked out: their tokens, statements and parses. */
module Evaluation {
  import opened Options
  import opened Chars
  import opened Lexer
  import opened LexerProofs
  import opened QWords
  import opened Scanner
  import opened Converter
  import opened Levels
  import opened Layout
  import opened Flatten
  import opened FlattenLexing
  import opened Idempotence
  import opened Nesting
  import opened NestLexing
  import opened RunContexts
  import opened MovedStatements
  import opened RoundTrip
  import opened Returning
  import opened Projects

  // ---- files spelled token by token

  function FirstChar(ps: seq<Piece>, k: nat): char {
    if k < |ps| && ps[k].text != "" then ps[k].text[0] else '\n'
  }

  function SecondChar(ps: seq<Piece>, k: nat): char {
    if k < |ps| && |ps[k].text| >= 2 then ps[k].text[1] else FirstChar(ps, k + 1)
  }

  /** Nothing after the name makes it longer. */
  predicate NameEnds(a: char, b: char) { !IsNameChar(a) && (a == '.' ==> !IsNameChar(b)) }

  /** Piece `k` is cut where it ends, whatever comes later: a sufficient condition by what stands beside it. */
  predicate Clear(ps: seq<Piece>, k: nat)
    requires k < |ps|
  {
    var p, a, b := ps[k], FirstChar(ps, k + 1), SecondChar(ps, k + 1);
    match p.kind
    case Nl => p.text == "\n"
    case Ws => p.text == " " && !IsBlank(a)
    case Name => NameShaped(p.text) && NameEnds(a, b)
    case Num => NumShaped(p.text) && !NumGoesOn([a], 0)
    case Op =>
      || p.text == "::"
      || p.text == "{" || p.text == "}" || p.text == "+"
      || (p.text == ":" && a != ':')
      || (p.text == "." && a == '.')
    case Sys => LineShaped(p.text) && a == '\n' && (k == 0 || ps[k - 1].kind == Nl)
    case _ => false
  }

  /** Digits, colons and the letter x, a digit first. */
  predicate NumShaped(t: string) {
    t != "" && '0' <= t[0] <= '9' && forall i :: 0 <= i < |t| ==> '0' <= t[i] <= '9' || t[i] == 'x' || t[i] == ':'
  }

  /** A system line's text. */
  predicate LineShaped(t: string) {
    2 <= |t| && t[0] == '\\' && '\n' !in t && t[|t| - 1] != '\r' && !IsBlank(t[|t| - 1])
  }

  ghost predicate Spelled(ps: seq<Piece>) {
    forall k :: 0 <= k < |ps| ==> Clear(ps, k)
  }

  lemma ClearText(ps: seq<Piece>, k: nat)
    requires k < |ps| && Clear(ps, k)
    ensures ps[k].text != "" && (ps[k].text[|ps[k].text| - 1] == '\n' <==> ps[k].kind == Nl)
  {
    if ps[k].kind == Name {
      NameStarts(ps[k].text);
      NameHasNoNewline(ps[k].text);
    }
    var last := ps[k].text[|ps[k].text| - 1];
    assert ps[k].kind == Num ==> last != '\n';
  }

  /** The characters that follow are those of the next pieces. */
  lemma {:induction false} FollowedBy(ps: seq<Piece>, k: nat)
    requires k <= |ps| && forall i :: 0 <= i < |ps| ==> ps[i].text != ""
    ensures Concat(ps[k..]) == "" <==> k == |ps|
    ensures k < |ps| ==> Concat(ps[k..])[0] == FirstChar(ps, k)
    ensures k < |ps| && |Concat(ps[k..])| >= 2 ==> Concat(ps[k..])[1] == SecondChar(ps, k)
  {
    if k < |ps| {
      assert ps[k..][1..] == ps[k + 1..];
      assert Concat(ps[k..]) == ps[k].text + Concat(ps[k + 1..]);
      if k + 1 < |ps| {
        assert ps[k + 1..][1..] == ps[k + 2..];
        assert Concat(ps[k + 1..]) == ps[k + 1].text + Concat(ps[k + 2..]);
      }
    }
  }

  lemma NameCut(t: string, r: string, m: Mode)
    requires NameShaped(t) && (r != "" ==> !IsNameChar(r[0]) && (r[0] == '.' && |r| >= 2 ==> !IsNameChar(r[1])))
    ensures Step(t + r, m) == Cut(Name, |t|)
  {
    NameStarts(t);
    var s := t + r;
    assert s[0] == t[0] && (|t| >= 2 ==> s[1] == t[1]);
    forall i | 1 <= i < |t| ensures NameGoesOn(s, i) {
      assert NameGoesOn(t, i) && s[i] == t[i];
      assert i + 1 < |t| ==> s[i + 1] == t[i + 1];
    }
    assert r != "" ==> s[|t|] == r[0];
    assert |r| >= 2 ==> s[|t| + 1] == r[1];
    NameEndIs(s, 1, |t|);
  }

  lemma LineCutIs(t: string, r: string)
    requires LineShaped(t) && (r != "" ==> r[0] == '\n')
    ensures Step(t + r, LineStart) == Cut(Sys, |t|)
  {
    LineBody(t, r);
    NotBlankEnd(t);
    assert (t + r)[0] == t[0];
    assert AtLineEnd(r);
  }

  lemma NotBlankEnd(t: string)
    requires LineShaped(t)
    ensures RStrip(t, {' ', '\t'}) == t
  {
  }

  lemma {:induction false} NumRun(t: string, r: string, j: nat)
    requires NumShaped(t) && 1 <= j <= |t| && (r != "" ==> !NumGoesOn([r[0]], 0))
    ensures NumEnd(t + r, j) == |t|
    decreases |t| - j
  {
    var s := t + r;
    if j < |t| {
      assert s[j] == t[j] && NumGoesOn(s, j) && !Exponent(s, j);
      NumRun(t, r, j + 1);
    } else if r != "" {
      assert s[j] == r[0];
      assert NumGoesOn([r[0]], 0) <==> NumGoesOn(s, j);
    }
  }

  lemma PlainCutIs(p: Piece, r: string, m: Mode)
    requires m != LineStart || (p.text != "" && p.text[0] != '/' && p.text[0] != '\\')
    requires p.text != "" && p.text[0] != '/'
    requires match p.kind
             case Nl => p.text == "\n"
             case Ws => p.text == " " && (r != "" ==> !IsBlank(r[0]))
             case Num => NumShaped(p.text) && (r != "" ==> !NumGoesOn([r[0]], 0))
             case Op => || p.text == "::" || p.text == "{" || p.text == "}" || p.text == "+"
                        || (p.text == ":" && (r != "" ==> r[0] != ':'))
                        || (p.text == "." && r != "" && r[0] == '.')
             case _ => false
    ensures Step(p.text + r, m) == Cut(p.kind, |p.text|)
  {
    var s := p.text + r;
    assert s[0] == p.text[0];
    assert |p.text| == 1 && r != "" ==> s[1] == r[0];
    assert p.text == "::" ==> s[1] == ':';
    if p.kind == Ws { BlankEndIs(s, 1, 1); }
    if p.kind == Num { NumRun(p.text, r, 1); }
  }

  lemma {:induction false} ClearCut(ps: seq<Piece>, k: nat, m: Mode)
    requires k < |ps| && Clear(ps, k) && forall i :: 0 <= i < |ps| ==> ps[i].text != ""
    requires ps[k].kind == Sys ==> m == LineStart
    ensures ps[k].text != "" && Concat(ps[k..]) != ""
    ensures Step(Concat(ps[k..]), m) == Cut(ps[k].kind, |ps[k].text|)
  {
    var p, r := ps[k], Concat(ps[k + 1..]);
    FollowedBy(ps, k + 1);
    assert ps[k..][1..] == ps[k + 1..] && Concat(ps[k..]) == p.text + r;
    hide Step, Concat, NameShaped, LineShaped, NumShaped, NumGoesOn, IsNameChar, IsBlank;
    assert |r| >= 2 ==> k + 1 < |ps|;
    if p.kind == Name {
      NameCut(p.text, r, m);
    } else if p.kind == Sys {
      LineCutIs(p.text, r);
    } else {
      PlainCutIs(p, r, m);
    }
  }

  lemma AllTexts(ps: seq<Piece>)
    requires Spelled(ps)
    ensures forall i :: 0 <= i < |ps| ==> ps[i].text != ""
  {
    forall i | 0 <= i < |ps| ensures ps[i].text != "" {
      assert Clear(ps, i);
      ClearText(ps, i);
    }
  }

  lemma {:induction false} SpelledIsValid(ps: seq<Piece>, k: nat, m: Mode)
    requires Spelled(ps) && k <= |ps|
    requires m == LineStart <==> k == 0 || ps[k - 1].kind == Nl
    ensures Valid(ps[k..], m)
    decreases |ps| - k
  {
    if k < |ps| {
      assert Clear(ps, k);
      AllTexts(ps);
      ClearCut(ps, k, m);
      ClearText(ps, k);
      assert ps[k..][1..] == ps[k + 1..];
      hide Step, Concat, Spelled;
      SpelledIsValid(ps, k + 1, NextMode(ps[k]));
    }
  }

  /** `toks` are the pieces, and start statements where they are code at a line's start. */
  ghost predicate TokensOf(toks: seq<Tok>, ps: seq<Piece>) {
    |toks| == |ps| && forall k :: 0 <= k < |ps| ==> TokenIs(toks, ps, k)
  }

  predicate TokenIs(toks: seq<Tok>, ps: seq<Piece>, k: nat)
    requires k < |toks| == |ps|
  {
    && toks[k].kind == ps[k].kind && toks[k].text == ps[k].text
    && (Starts(toks[k]) <==> IsCode(ps[k].kind) && (k == 0 || ps[k - 1].kind == Nl))
  }

  lemma StartsAt(ps: seq<Piece>, t: Tok, k: nat)
    requires Spelled(ps) && k < |ps| && t.col == ColAfter(Concat(ps[..k]))
    ensures t.col == 0 <==> k == 0 || ps[k - 1].kind == Nl
  {
    AtStart(Concat(ps[..k]));
    if k > 0 {
      assert Clear(ps, k - 1);
      ClearText(ps, k - 1);
      ConcatLast(ps, k);
    } else {
      assert ps[..0] == [];
      NothingSpells();
    }
  }

  /** The text such pieces spell lexes into them. */
  lemma {:induction false} SpelledLexes(ps: seq<Piece>)
    requires Spelled(ps)
    ensures LexOf(Concat(ps)).Lexed? && TokensOf(LexOf(Concat(ps)).toks, ps) && Valid(ps, LineStart)
  {
    var text := Concat(ps);
    SpelledIsValid(ps, 0, LineStart);
    assert ps[0..] == ps;
    CutIffValid(text, LineStart, ps);
    UnplacedPlace("", ps);
    assert LexOf(text).Lexed?;
    LexIsLossless(text);
    var toks := LexOf(text).toks;
    assert Unplaced(toks) == ps && |toks| == |ps|;
    hide LexOf, Step, CutAll, Valid, Concat, ColAfter, LineAfter, Place, Spelled, TokenIs;
    forall k | 0 <= k < |ps| ensures TokenIs(toks, ps, k) { PlacedToken(ps, toks, k); }
  }

  lemma PlacedToken(ps: seq<Piece>, toks: seq<Tok>, k: nat)
    requires Spelled(ps) && Unplaced(toks) == ps && k < |ps| && toks[k].col == ColAfter(Concat(ps[..k]))
    ensures |toks| == |ps| && TokenIs(toks, ps, k)
  {
    assert |toks| == |ps| && Unplaced(toks)[k] == ps[k];
    hide Spelled, Concat, ColAfter;
    StartsAt(ps, toks[k], k);
  }

  lemma NothingSpells()
    ensures Concat([]) == ""
  {
  }

  /** A quote opens a string that nothing closes. */
  predicate NeverCloses(t: string) { t != "" && t[0] == '"' && StrEnd(t, 1) > |t| }

  lemma NoCutThere(t: string, m: Mode)
    requires NeverCloses(t)
    ensures Step(t, m) == NoCut
  {
  }

  /** After clear pieces a quote that is never closed leaves the text unlexed. */
  lemma {:induction false} OpenTail(ps: seq<Piece>, k: nat, m: Mode)
    requires k < |ps| && (forall i :: 0 <= i < |ps| ==> ps[i].text != "")
    requires forall i :: 0 <= i < |ps| - 1 ==> Clear(ps, i)
    requires m == LineStart <==> k == 0 || ps[k - 1].kind == Nl
    requires NeverCloses(ps[|ps| - 1].text)
    ensures CutAll(Concat(ps[k..]), m).Open?
    decreases |ps| - k
  {
    assert ps[k..][1..] == ps[k + 1..];
    if k < |ps| - 1 {
      ClearCut(ps, k, m);
      ClearText(ps, k);
      var p, r := ps[k], Concat(ps[k + 1..]);
      assert Concat(ps[k..]) == p.text + r;
      assert (p.text + r)[..|p.text|] == p.text && (p.text + r)[|p.text|..] == r;
      hide Step, Concat, Clear;
      OpenTail(ps, k + 1, NextMode(p));
    } else {
      assert Concat(ps[k..]) == ps[k].text + Concat([]);
      NothingSpells();
      assert Concat(ps[k..]) == ps[k].text;
      NoCutThere(ps[k].text, m);
      hide Step, Concat, Clear;
    }
  }

  // ---- a file of one block: `\d .`, one statement, `\d .`

  /** The statement's pieces are those from 2 up to `n`. */
  predicate OneBlock(ps: seq<Piece>, n: nat) {
    && 2 < n && |ps| == n + 3 && IsCode(ps[2].kind)
    && ps[0] == Piece(Sys, ROOT_LINE) && ps[n + 1] == Piece(Sys, ROOT_LINE)
    && ps[1].kind == Nl && ps[n].kind == Nl && ps[n + 2].kind == Nl
    && forall k :: 2 <= k < n ==> ps[k].kind != Nl && ps[k].kind != Sys && ps[k].kind != Tail && ps[k].kind != Str
  }

  lemma {:induction false} SkipStarts(toks: seq<Tok>, k: nat, j: nat)
    requires k <= j <= |toks| && forall i :: k <= i < j ==> !Starts(toks[i])
    ensures StartsFrom(toks, k) == StartsFrom(toks, j)
    decreases j - k
  {
    if k < j { SkipStarts(toks, k + 1, j); }
  }

  lemma StartHere(toks: seq<Tok>, k: nat)
    requires k < |toks| && Starts(toks[k])
    ensures StartsFrom(toks, k) == [k] + StartsFrom(toks, k + 1)
  {
  }

  predicate StartsOnlyAt(toks: seq<Tok>, n: nat) {
    |toks| == n + 3 && forall k :: 0 <= k < n + 3 ==> (Starts(toks[k]) <==> k == 0 || k == 2 || k == n + 1)
  }

  lemma BlockStartsAt(toks: seq<Tok>, ps: seq<Piece>, n: nat)
    requires TokensOf(toks, ps) && OneBlock(ps, n)
    ensures StartsOnlyAt(toks, n)
  {
    hide ROOT_LINE;
    forall k | 0 <= k < n + 3 ensures Starts(toks[k]) <==> k == 0 || k == 2 || k == n + 1 {
      assert TokenIs(toks, ps, k);
      assert k > 2 && k <= n ==> ps[k - 1].kind != Nl;
    }
  }

  lemma BlockStarts(toks: seq<Tok>, n: nat)
    requires 2 < n && StartsOnlyAt(toks, n)
    ensures StartsFrom(toks, 0) == [0, 2, n + 1]
  {
    hide Starts, StartsFrom;
    StartHere(toks, 0);
    SkipStarts(toks, 1, 2);
    StartHere(toks, 2);
    SkipStarts(toks, 3, n + 1);
    StartHere(toks, n + 1);
    SkipStarts(toks, n + 2, n + 3);
    NoMoreStarts(toks);
  }

  lemma NoMoreStarts(toks: seq<Tok>)
    ensures StartsFrom(toks, |toks|) == []
  {
  }

  lemma RootSwitch(t: Tok, ctx: string)
    ensures t.kind == Sys && t.text == ROOT_LINE ==> NextContext(t, ctx) == "."
    ensures t.kind != Sys ==> NextContext(t, ctx) == ctx
  {
    RootLine();
    hide ContextOf, ROOT_LINE;
  }

  lemma BlockSpans(toks: seq<Tok>, n: nat)
    requires |toks| == n + 3 && StartsFrom(toks, 0) == [0, 2, n + 1]
    ensures var ss := StatementsOf(toks);
            && |ss| == 3 && ss[0].lo == 0 && ss[0].hi == 2 && ss[1].lo == 2 && ss[1].hi == n + 1
            && ss[2].lo == n + 1 && ss[2].hi == n + 3
  {
    hide StartsFrom, NextContext;
  }

  lemma BlockPieces(toks: seq<Tok>, ps: seq<Piece>, n: nat)
    requires TokensOf(toks, ps) && OneBlock(ps, n)
    ensures |toks| == n + 3 && toks[0].kind == Sys && toks[0].text == ROOT_LINE
    ensures toks[n + 1].kind == Sys && toks[n + 1].text == ROOT_LINE
    ensures forall k :: 2 <= k < n ==> toks[k].kind == ps[k].kind && toks[k].text == ps[k].text
    ensures forall k :: 2 <= k < n ==>
              toks[k].kind != Nl && toks[k].kind != Sys && toks[k].kind != Tail && toks[k].kind != Str
    ensures toks[1].kind == Nl && toks[n].kind == Nl && toks[n + 2].kind == Nl
    ensures forall k :: 0 <= k < n + 3 ==> toks[k].kind != Str
  {
    hide ROOT_LINE, Starts;
    forall k | 0 <= k < n + 3 ensures toks[k].kind == ps[k].kind && toks[k].text == ps[k].text {
      assert TokenIs(toks, ps, k);
    }
  }

  lemma BlockStatements(toks: seq<Tok>, ps: seq<Piece>, n: nat)
    requires TokensOf(toks, ps) && OneBlock(ps, n)
    ensures StatementsOf(toks) == [Stmt(0, 2, "."), Stmt(2, n + 1, "."), Stmt(n + 1, n + 3, ".")]
  {
    BlockPieces(toks, ps, n);
    BlockStartsAt(toks, ps, n);
    hide *;
    BlockStarts(toks, n);
    BlockSpans(toks, n);
    StatementContext(toks, 0);
    StatementContext(toks, 1);
    StatementContext(toks, 2);
    RootSwitch(toks[0], ".");
    RootSwitch(toks[2], ".");
  }

  // ---- its code

  ghost predicate Picks(toks: seq<Tok>, lo: nat, hi: nat, idxs: seq<nat>)
    requires hi <= |toks|
  {
    && (forall i, j :: 0 <= i < j < |idxs| ==> idxs[i] < idxs[j])
    && (forall i :: 0 <= i < |idxs| ==> lo <= idxs[i] < hi && IsCode(toks[idxs[i]].kind))
    && (forall k :: lo <= k < hi && IsCode(toks[k].kind) ==> k in idxs)
  }

  lemma PicksSome(toks: seq<Tok>, lo: nat, hi: nat, idxs: seq<nat>)
    requires hi <= |toks| && Picks(toks, lo, hi, idxs) && idxs != []
    ensures lo <= idxs[0] < hi
  {
  }

  lemma PicksRest(toks: seq<Tok>, lo: nat, hi: nat, idxs: seq<nat>)
    requires lo < hi <= |toks| && Picks(toks, lo, hi, idxs)
    ensures IsCode(toks[lo].kind) ==> idxs != [] && idxs[0] == lo && Picks(toks, lo + 1, hi, idxs[1..])
    ensures !IsCode(toks[lo].kind) ==> Picks(toks, lo + 1, hi, idxs)
  {
    hide IsCode;
    if IsCode(toks[lo].kind) {
      assert lo in idxs;
      FirstIsLeast(idxs, lo);
      forall k | lo + 1 <= k < hi && IsCode(toks[k].kind) ensures k in idxs[1..] {
        assert k in idxs;
        InRest(idxs, k);
      }
    }
  }

  lemma FirstIsLeast(idxs: seq<nat>, lo: nat)
    requires lo in idxs && (forall i, j :: 0 <= i < j < |idxs| ==> idxs[i] < idxs[j])
    requires forall i :: 0 <= i < |idxs| ==> lo <= idxs[i]
    ensures idxs[0] == lo
  {
    var i :| 0 <= i < |idxs| && idxs[i] == lo;
  }

  lemma InRest(idxs: seq<nat>, k: nat)
    requires k in idxs && idxs[0] != k
    ensures k in idxs[1..]
  {
    var j :| 0 <= j < |idxs| && idxs[j] == k;
    assert idxs[1..][j - 1] == k;
  }

  function SigOf(toks: seq<Tok>, k: nat): Sig {
    if k < |toks| then Sig(toks[k].kind, toks[k].text, k) else Sig(Op, "", k)
  }

  function SigsAt(toks: seq<Tok>, idxs: seq<nat>): (c: Code)
    ensures |c| == |idxs| && forall i :: 0 <= i < |idxs| ==> c[i] == SigOf(toks, idxs[i])
  {
    if idxs == [] then [] else [SigOf(toks, idxs[0])] + SigsAt(toks, idxs[1..])
  }

  /** The code of a stretch of tokens, by the positions of its code tokens. */
  lemma {:induction false} SignificantIs(toks: seq<Tok>, lo: nat, hi: nat, idxs: seq<nat>)
    requires lo <= hi <= |toks| && Picks(toks, lo, hi, idxs)
    ensures Significant(toks, lo, hi) == SigsAt(toks, idxs)
    decreases hi - lo
  {
    hide Picks, IsCode, Significant, SigsAt;
    SigsStep(toks, idxs);
    if idxs != [] { PicksSome(toks, lo, hi, idxs); }
    SignificantStep(toks, lo, hi);
    if lo < hi {
      PicksRest(toks, lo, hi, idxs);
      SignificantIs(toks, lo + 1, hi, if IsCode(toks[lo].kind) then idxs[1..] else idxs);
    }
  }

  lemma SigsStep(toks: seq<Tok>, idxs: seq<nat>)
    ensures SigsAt(toks, idxs) == if idxs == [] then [] else [SigOf(toks, idxs[0])] + SigsAt(toks, idxs[1..])
  {
  }

  lemma SignificantStep(toks: seq<Tok>, lo: nat, hi: nat)
    requires lo <= hi <= |toks|
    ensures lo == hi ==> Significant(toks, lo, hi) == []
    ensures lo < hi ==>
              Significant(toks, lo, hi)
              == (if IsCode(toks[lo].kind) then [Sig(toks[lo].kind, toks[lo].text, lo)]
                  else []) + Significant(toks, lo + 1, hi)
  {
  }

  // ---- brackets

  predicate NoBracket(c: Code, p: nat) { !OpenerAt(c, p) && !CloserAt(c, p) }

  lemma {:induction false} SkipBrackets(c: Code, pos: nat, end: nat, stack: seq<nat>, close: map<nat, nat>,
                                        open: map<nat, nat>)
    requires pos <= end <= |c| && (forall p: nat :: pos <= p < end ==> NoBracket(c, p))
    requires forall i :: 0 <= i < |stack| ==> stack[i] < |c|
    ensures MatchFrom(c, pos, stack, close, open) == MatchFrom(c, end, stack, close, open)
    decreases end - pos
  {
    if pos < end {
      assert NoBracket(c, pos);
      hide OpenerAt, CloserAt, CloserOf;
      SkipBrackets(c, pos + 1, end, stack, close, open);
    }
  }

  /** Code with no bracket. */
  lemma NoBrackets(c: Code)
    requires forall p: nat :: p < |c| ==> NoBracket(c, p)
    ensures MatchAll(c) == Matched(map[], map[])
  {
    SkipBrackets(c, 0, |c|, [], map[], map[]);
  }

  /** Code with one pair of braces. */
  lemma OneBrace(c: Code, o: nat, q: nat)
    requires o < q < |c| && c[o].kind == Op && c[o].text == "{" && c[q].kind == Op && c[q].text == "}"
    requires forall p: nat :: p < |c| && p != o && p != q ==> NoBracket(c, p)
    ensures MatchAll(c) == Matched(map[o := q], map[q := o])
  {
    hide NoBracket;
    SkipBrackets(c, 0, o, [], map[], map[]);
    BraceOpens(c, o, map[], map[]);
    SkipBrackets(c, o + 1, q, [o], map[], map[]);
    BraceCloses(c, o, q, map[], map[]);
    assert map[][o := q] == map[o := q] && map[][q := o] == map[q := o];
    SkipBrackets(c, q + 1, |c|, [], map[o := q], map[q := o]);
  }

  lemma BraceOpens(c: Code, o: nat, close: map<nat, nat>, open: map<nat, nat>)
    requires o < |c| && c[o].kind == Op && c[o].text == "{"
    ensures MatchFrom(c, o, [], close, open) == MatchFrom(c, o + 1, [o], close, open)
  {
    assert OpenerAt(c, o) && [] + [o] == [o];
    hide OpenerAt, CloserAt, CloserOf;
  }

  lemma BraceCloses(c: Code, o: nat, q: nat, close: map<nat, nat>, open: map<nat, nat>)
    requires o < q < |c| && c[o].text == "{" && c[q].kind == Op && c[q].text == "}"
    ensures MatchFrom(c, q, [o], close, open) == MatchFrom(c, q + 1, [], close[o := q], open[q := o])
  {
    assert CloserAt(c, q) && !OpenerAt(c, q) && CloserOf("{") == "}" && [o][..0] == [];
    hide OpenerAt, CloserAt, CloserOf;
  }

  // ---- the walk over `name:{`

  const TOP: Frame := Frame(Top, None, NoPhrase, false)

  /** A name the scanner's walk takes for no word of its own. */
  predicate PlainName(t: string) {
    && t !in QSQL_START && t !in READERS && t !in WRITERS && t != "system" && !RelativeDotted(t)
  }

  lemma DottedIsPlain(t: string)
    requires t != "" && t[0] == '.'
    ensures PlainName(t) && !IsBuiltin(t)
  {
    hide IsPlainWord;
    if IsBuiltin(t) {
      BuiltinIsBare(t);
      assert false;
    }
  }

  lemma LetterIsPlain(t: string)
    requires |t| == 1 && t[0] != '.'
    ensures PlainName(t)
  {
  }

  /** The code starts by assigning a plain name. */
  predicate AssignedName(c: Code) {
    2 < |c| && c[0].kind == Name && PlainName(c[0].text) && c[1].kind == Op && c[1].text == ":"
  }

  /** At the statement's top level, after the first token. */
  function AtTop(uses: seq<Use>): Scan { Scan([TOP], [], uses, [], false) }

  function Assigned(c: Code): Scan
    requires |c| > 0
  {
    AtTop([Use(0, c[0].idx, None, Assign, false, false)])
  }

  lemma AssignStep(c: Code, m: Brackets)
    requires Pairs(c, m) && AssignedName(c)
    ensures WalkStep(c, m, 0, START) == (Assigned(c), 1)
  {
    assert TextAt(c, 1) == ":" && TextAt(c, -1) == "";
    assert START.stack[..0] + [TOP] == [TOP] && !Called(c, 0) && RoleOf(c, m, 0, START.stack[0]) == Assign;
    assert LookupLevel(c, m, 0) == 0 && !InColumnPhrase(START.stack) && !RelativeDotted(c[0].text);
    assert RecordName(c, m, 0, START) == Assigned(c) by { assert [] + Assigned(c).uses == Assigned(c).uses; }
    assert NameStep(c, m, 0, START) == RecordName(c, m, 0, START);
    hide Pairs, IsBuiltin, QSQL_START, READERS, WRITERS, Called, RoleOf;
  }

  lemma TopQuietStep(c: Code, m: Brackets, pos: nat, uses: seq<Use>)
    requires Pairs(c, m) && pos < |c|
    requires c[pos].kind == Num || (c[pos].kind == Op && (c[pos].text == ":" ||
                                                          (c[pos].text == "." && TextAt(c, pos + 1) != "[")))
    ensures WalkStep(c, m, pos, AtTop(uses)) == (AtTop(uses), pos + 1)
  {
    assert WithTop(AtTop(uses), TOP).stack == [TOP];
    hide Pairs, RelativeSymbol;
  }

  /** A name at the top level that is only referred to. */
  lemma TopUseStep(c: Code, m: Brackets, pos: nat, uses: seq<Use>)
    requires Pairs(c, m) && pos < |c| && c[pos].kind == Name && PlainName(c[pos].text) && RoleOf(c, m, pos, TOP) == Ref
    ensures WalkStep(c, m, pos, AtTop(uses)) == (AtTop(uses + [Use(pos, c[pos].idx, None, Ref, false, Called(c, pos))]),
                                                 pos + 1)
  {
    var st := AtTop(uses);
    assert st.stack[..0] + [TOP] == [TOP] && !InColumnPhrase(st.stack) && LookupLevel(c, m, pos) == 0;
    hide Pairs, RoleOf, Called, LookupLevel, InColumnPhrase, QSQL_START, READERS, WRITERS;
  }

  lemma ColonStep(c: Code, m: Brackets)
    requires Pairs(c, m) && AssignedName(c)
    ensures WalkStep(c, m, 1, Assigned(c)) == (Assigned(c), 2)
  {
    hide Pairs, WalkStep, PlainName;
    TopQuietStep(c, m, 1, Assigned(c).uses);
  }

  /** `name:{` and a closing brace at the end. */
  predicate OpensFunction(c: Code) {
    && 5 <= |c| && AssignedName(c) && c[2].kind == Op && c[2].text == "{" && c[3].text != "["
    && c[|c| - 1].kind == Op && c[|c| - 1].text == "}" && c[|c| - 2].text != "["
  }

  function Opened(c: Code): Scan
    requires |c| > 0
  {
    Scan([TOP, Frame(InLambda, Some(0), NoPhrase, false)], [Lambda(false, None, false, {}, {}, 2, |c| - 1)],
         Assigned(c).uses, [], false)
  }

  lemma BraceStep(c: Code, m: Brackets)
    requires Pairs(c, m) && OpensFunction(c) && m.close == map[2 := |c| - 1]
    ensures WalkStep(c, m, 2, Assigned(c)) == (Opened(c), 3)
  {
    assert OpenerAt(c, 2) && TextAt(c, 3) != "[";
    assert !HasParams(c, m, 2);
    assert TextAt(c, |c| - 2) != "[" && !Called(c, |c| - 1);
    assert OpenLambda(c, m, 2, Assigned(c)).0.stack == Opened(c).stack;
    assert OpenLambda(c, m, 2, Assigned(c)).0.lams == Opened(c).lams;
    hide Pairs, Called, HasParams;
  }

  /** The walk comes to the function's body with one use and one lambda. */
  lemma OpensBody(c: Code, m: Brackets)
    requires Pairs(c, m) && OpensFunction(c) && m.close == map[2 := |c| - 1]
    ensures Walk(c, m, 0, START) == Walk(c, m, 3, Opened(c))
  {
    hide WalkStep, Pairs, Walk, OpensFunction, AssignedName;
    AtLeast(c);
    AssignStep(c, m);
    OneRound(c, m, 0, START);
    ColonStep(c, m);
    OneRound(c, m, 1, Assigned(c));
    BraceStep(c, m);
    OneRound(c, m, 2, Assigned(c));
  }

  lemma AtLeast(c: Code)
    requires OpensFunction(c)
    ensures 5 <= |c| && AssignedName(c)
  {
  }

  lemma OneRound(c: Code, m: Brackets, pos: nat, st: Scan)
    requires Pairs(c, m) && pos < |c| && st.stack != []
    ensures var (st', next) := WalkStep(c, m, pos, st); Walk(c, m, pos, st) == Walk(c, m, next, st')
  {
    hide WalkStep, Pairs;
  }

  // ---- the walk over the body

  /** Inside the function: its frame, its lambda and the uses so far. */
  function Inside(f: Frame, l: Lambda, uses: seq<Use>): Scan { Scan([TOP, f], [l], uses, [], false) }

  lemma InsideTop(f: Frame, l: Lambda, uses: seq<Use>, g: Frame)
    ensures TopOf(Inside(f, l, uses)) == f && WithTop(Inside(f, l, uses), g) == Inside(g, l, uses)
  {
    assert Inside(f, l, uses).stack[..1] + [g] == [TOP, g];
  }

  /** A literal, or an operator that is neither bracket, separator nor index. */
  lemma QuietStep(c: Code, m: Brackets, pos: nat, f: Frame, l: Lambda, uses: seq<Use>)
    requires Pairs(c, m) && pos < |c|
    requires c[pos].kind == Num || (c[pos].kind == Op && (c[pos].text == ":" || c[pos].text == "::" ||
                                                          c[pos].text == "+"))
    ensures WalkStep(c, m, pos, Inside(f, l, uses)) == (Inside(f.(segStart := false), l, uses), pos + 1)
  {
    InsideTop(f, l, uses, f.(segStart := false));
    hide Pairs, RelativeSymbol, WithTop, TopOf;
  }

  lemma CloseStep(c: Code, m: Brackets, pos: nat, f: Frame, l: Lambda, uses: seq<Use>)
    requires Pairs(c, m) && pos < |c| && c[pos].kind == Op && c[pos].text == "}" && f.kind == InLambda
    ensures WalkStep(c, m, pos, Inside(f, l, uses)) == (Scan([TOP], [l], uses, [], false), pos + 1)
  {
    assert Inside(f, l, uses).stack[..1] == [TOP];
    hide Pairs, RelativeSymbol;
  }

  /** The name at `pos` is used in the function's lambda as given, and looks nothing up. */
  lemma UseStep(c: Code, m: Brackets, pos: nat, f: Frame, l: Lambda, uses: seq<Use>, role: Role)
    requires Pairs(c, m) && pos < |c| && c[pos].kind == Name && f.kind == InLambda && f.lam == Some(0)
    requires c[pos].text !in QSQL_START && NextPhrase(f.qsql, c[pos].text) == NoPhrase
    requires LookupLevel(c, m, pos) == 0 && RoleOf(c, m, pos, f) == role && !Called(c, pos)
    requires !RelativeDotted(c[pos].text)
    ensures var u := Use(pos, c[pos].idx, Some(0), role, f.qsql == Cols || f.qsql == By || f.qsql == Where, false);
            var l' := if role == Assign && IsRelative(c[pos].text) then l.(locals := l.locals + {c[pos].text}) else l;
            WalkStep(c, m, pos, Inside(f, l, uses)) == (Inside(f.(segStart := false), l', uses + [u]), pos + 1)
  {
    var st := Inside(f, l, uses);
    InsideTop(f, l, uses, f.(segStart := false));
    assert st.stack[..1] + [f.(segStart := false)] == [TOP, f.(segStart := false)];
    assert InColumnPhrase(st.stack) <==> f.qsql == Cols || f.qsql == By || f.qsql == Where;
    assert [l][0 := l.(locals := l.locals + {c[pos].text})] == [l.(locals := l.locals + {c[pos].text})];
    hide Pairs, LookupLevel, RoleOf, Called, RelativeDotted, NextPhrase, InColumnPhrase, IsRelative, QSQL_START;
  }

  /** The statement's parse, when its walk ends with the top frame. */
  lemma ParsedAs(c: Code, m: Brackets, l: Lambda, uses: seq<Use>)
    requires OpensFunction(c) && m == MatchAll(c) && m.Matched? && m.close == map[2 := |c| - 1]
    requires Walk(c, m, 0, START) == Scan([TOP], [l], uses, [], false)
    ensures ParseCode(c) == Parsed(uses, [], [l], Some(c[0].text))
  {
    assert c[|c| - 1].text != ";";
    hide Walk, MatchAll;
  }

  // ---- the block moves

  const HOME: string := ".a.b"

  lemma HomeIsNested()
    ensures Nested(HOME) && NameShaped(HOME)
  {
    var s := HOME;
    assert s[1..] == "a.b" && s[1..][1..] == ".b";
    assert CountOf(".b", '.') >= 1;
    assert CountOf("a.b", '.') == CountOf(".b", '.');
    assert !IsDigit(s[0]) && !IsDigit(s[1]);
    assert NameEnd(s, 4) == 4 && NameEnd(s, 3) == 4 && NameEnd(s, 2) == 4 && NameEnd(s, 1) == 4;
  }

  lemma {:induction false} ParentIs(ctx: string, leaf: string)
    requires '.' !in leaf && ctx != ""
    ensures ParentOf(ctx + "." + leaf) == ctx && LeafOf(ctx + "." + leaf) == leaf
  {
    var full := ctx + "." + leaf;
    assert forall i :: 0 <= i < |leaf| ==> full[|ctx| + 1 + i] == leaf[i];
    assert full[|ctx|] == '.';
    assert LastOf(full, '.') == |ctx|;
    assert full[..|ctx|] == ctx && full[|ctx| + 1..] == leaf;
  }

  /** The statement assigns `.a.b.` and `leaf` at its top level, amends nothing
      else there, and nothing in it stays behind. */
  ghost predicate Goes(known: Known, toks: seq<Tok>, st: Statement, leaf: string) {
    && st.Parsed? && |st.uses| > 0 && '.' !in leaf
    && st.uses[0].lam.None? && st.uses[0].role == Assign && TextOf(toks, st.uses[0].idx) == HOME + "." + leaf
    && (forall i :: 1 <= i < |st.uses| ==> !(st.uses[i].lam.None? && Amends(st.uses[i])))
    && !Unmovable(known, toks, st, HOME)
  }

  lemma OneHome(known: Known, toks: seq<Tok>, st: Statement, leaf: string)
    requires Goes(known, toks, st, leaf)
    ensures st.Parsed? && HomesOf(toks, st) == {HOME} && !AmendsRoot(toks, st)
  {
    hide HomesOf, AmendsRoot;
    FirstHome(known, toks, st, leaf);
    NoRoot(known, toks, st, leaf);
    hide Goes;
    forall ctx | ctx in HomesOf(toks, st) ensures ctx == HOME { OnlyHome(known, toks, st, leaf, ctx); }
  }

  lemma FirstHome(known: Known, toks: seq<Tok>, st: Statement, leaf: string)
    requires Goes(known, toks, st, leaf)
    ensures st.Parsed? && HOME in HomesOf(toks, st)
  {
    HomeIsNested();
    ParentIs(HOME, leaf);
    hide ParentOf, Nested, Unmovable, NameShaped, HomesOf, TextOf;
    HomeThere(toks, st, 0);
  }

  lemma OnlyHome(known: Known, toks: seq<Tok>, st: Statement, leaf: string, ctx: string)
    requires Goes(known, toks, st, leaf) && st.Parsed? && ctx in HomesOf(toks, st)
    ensures ctx == HOME
  {
    ParentIs(HOME, leaf);
    hide ParentOf, Unmovable, HomesOf, TextOf, Amends;
    var i := HomeFrom(toks, st, ctx);
    assert i == 0;
  }

  lemma NoRoot(known: Known, toks: seq<Tok>, st: Statement, leaf: string)
    requires Goes(known, toks, st, leaf)
    ensures st.Parsed? && !AmendsRoot(toks, st)
  {
    assert (HOME + "." + leaf)[0] == '.';
    hide Unmovable, TextOf, Amends;
  }

  lemma HomeThere(toks: seq<Tok>, st: Statement, i: nat)
    requires st.Parsed? && i < |st.uses| && st.uses[i].lam.None? && Amends(st.uses[i])
    requires Nested(ParentOf(TextOf(toks, st.uses[i].idx)))
    ensures ParentOf(TextOf(toks, st.uses[i].idx)) in HomesOf(toks, st)
  {
    hide ParentOf, Nested, TextOf;
  }

  lemma HomeFrom(toks: seq<Tok>, st: Statement, ctx: string) returns (i: nat)
    requires st.Parsed? && ctx in HomesOf(toks, st)
    ensures i < |st.uses| && st.uses[i].lam.None? && Amends(st.uses[i]) && ctx == ParentOf(TextOf(toks, st.uses[i].idx))
  {
    hide ParentOf, Nested, TextOf;
    i :| 0 <= i < |st.uses| && st.uses[i].lam.None? && Amends(st.uses[i]) &&
      ParentOf(TextOf(toks, st.uses[i].idx)) == ctx;
  }

  /** The home of a block of one statement. */
  lemma OneStatementHome(known: Known, toks: seq<Tok>, s: Stmt, ctx: string)
    requires s.lo < s.hi <= |toks| && Parse(toks, s.lo, s.hi).Parsed?
    requires var st := Parse(toks, s.lo, s.hi);
             HomesOf(toks, st) == {ctx} && !AmendsRoot(toks, st) && !Unmovable(known, toks, st, ctx)
    ensures HomeOf(known, toks, [s]) == Some(ctx)
  {
    hide Parse, Unmovable, AmendsRoot, HomesOf, Movable;
    assert AllParse(toks, [s]) && forall j :: 0 <= j < |[s]| ==> [s][j] == s;
    HomesOfOne(toks, s);
    OneMovable(known, toks, s, ctx);
    hide AllParse, HomesFrom;
    assert |{ctx}| == 1;
  }

  lemma HomesOfOne(toks: seq<Tok>, s: Stmt)
    requires s.lo < s.hi <= |toks| && AllParse(toks, [s]) && Parse(toks, s.lo, s.hi).Parsed?
    ensures HomesFrom(toks, [s], 0) == HomesOf(toks, Parse(toks, s.lo, s.hi))
  {
    hide Parse, HomesOf, AllParse;
    assert HomesFrom(toks, [s], 1) == {};
  }

  lemma OneMovable(known: Known, toks: seq<Tok>, s: Stmt, ctx: string)
    requires s.lo < s.hi <= |toks| && AllParse(toks, [s]) && Parse(toks, s.lo, s.hi).Parsed?
    requires !Unmovable(known, toks, Parse(toks, s.lo, s.hi), ctx)
    ensures Movable(known, toks, [s], ctx)
  {
    hide Parse, Unmovable, AllParse;
  }

  /** The statements of such a file stand as one block does. */
  ghost predicate BlockOf(toks: seq<Tok>, ss: seq<Stmt>, n: nat) {
    && 2 < n && |toks| == n + 3
    && ss == [Stmt(0, 2, "."), Stmt(2, n + 1, "."), Stmt(n + 1, n + 3, ".")]
    && OpensRoot(toks[0]) && OpensRoot(toks[n + 1]) && toks[2].kind != Sys && toks[2].kind != Tail
  }

  lemma OneBlockIs(toks: seq<Tok>, ps: seq<Piece>, n: nat)
    requires TokensOf(toks, ps) && OneBlock(ps, n)
    ensures BlockOf(toks, StatementsOf(toks), n)
  {
    BlockStatements(toks, ps, n);
    BlockPieces(toks, ps, n);
    RootLine();
    hide StatementsOf, TokensOf, OneBlock, ContextOf, ROOT_LINE;
  }

  lemma BlockShape(toks: seq<Tok>, ss: seq<Stmt>, n: nat)
    requires BlockOf(toks, ss, n)
    ensures |ss| == 3 && Ordered(toks, ss) && ss[1..2] == [ss[1]]
    ensures BlockStop(toks, ss, 1) == 2 && IsCandidate(toks, ss, 0, 2)
    ensures BlockStop(toks, ss, 2) == 2 && !IsCandidate(toks, ss, 1, 2)
    ensures BlockStop(toks, ss, 3) == 3 && !IsCandidate(toks, ss, 2, 3)
    ensures IsCodeStatement(toks, ss[1]) && !IsCodeStatement(toks, ss[0]) && !IsCodeStatement(toks, ss[2])
  {
    hide ContextOf;
  }

  lemma BlockHead(toks: seq<Tok>, ss: seq<Stmt>, n: nat)
    requires BlockOf(toks, ss, n)
    ensures Ordered(toks, ss) && HeadBefore(toks, ss, 1) == Some(0)
  {
    hide ContextOf;
  }

  /** The block of such a file has moved. */
  ghost predicate BlockMoved(known: Known, toks: seq<Tok>, ss: seq<Stmt>, home: string)
    requires Ordered(toks, ss) && |ss| == 3
  {
    && HomeIn(known, toks, ss, 0) == Some(home) && MovesTo(known, toks, ss, 1) == Some(home)
    && HomeIn(known, toks, ss, 1).None? && HomeIn(known, toks, ss, 2).None?
    && MovesTo(known, toks, ss, 0).None? && MovesTo(known, toks, ss, 2).None?
  }

  /** In a file of one block whose statement goes, the block moves. */
  lemma BlockGoes(known: Known, toks: seq<Tok>, ss: seq<Stmt>, n: nat, leaf: string)
    requires BlockOf(toks, ss, n) && Goes(known, toks, Parse(toks, 2, n + 1), leaf)
    ensures |ss| == 3 && Ordered(toks, ss) && BlockMoved(known, toks, ss, HOME)
  {
    hide Parse, HomeOf, Goes, IsCandidate, BlockStop, HeadBefore, IsCodeStatement;
    BlockShape(toks, ss, n);
    BlockHead(toks, ss, n);
    assert ss[1].lo == 2 && ss[1].hi == n + 1;
    GoesHome(known, toks, ss[1], leaf);
  }

  lemma GoesHome(known: Known, toks: seq<Tok>, s: Stmt, leaf: string)
    requires s.lo < s.hi <= |toks| && Goes(known, toks, Parse(toks, s.lo, s.hi), leaf)
    ensures HomeOf(known, toks, [s]) == Some(HOME)
  {
    GoesIs(known, toks, Parse(toks, s.lo, s.hi), leaf);
    hide Parse, Unmovable, AmendsRoot, HomesOf, Goes, HomeOf;
    OneHome(known, toks, Parse(toks, s.lo, s.hi), leaf);
    OneStatementHome(known, toks, s, HOME);
  }

  lemma GoesIs(known: Known, toks: seq<Tok>, st: Statement, leaf: string)
    requires Goes(known, toks, st, leaf)
    ensures st.Parsed? && !Unmovable(known, toks, st, HOME)
  {
    hide Unmovable, Amends;
  }

  // ---- and is written anew

  lemma BlockIsWritten(known: Known, toks: seq<Tok>, ss: seq<Stmt>, n: nat, out: seq<string>)
    requires BlockOf(toks, ss, n) && |ss| == 3 && Ordered(toks, ss) && BlockMoved(known, toks, ss, HOME)
    requires NestTokens(known, toks, ss, out)
    ensures |out| == n + 3 && out[0] == "\\d " + HOME && out[1] == toks[1].text
    ensures out[n + 1] == toks[n + 1].text && out[n + 2] == toks[n + 2].text
    ensures ss[1].lo == 2 && ss[1].hi == n + 1
    ensures forall k :: 2 <= k <= n ==> out[k] == MovedText(toks, ss[1], HOME, k)
  {
    hide *;
    BlockShape(toks, ss, n);
    BlockBounds(toks, ss, n);
    HeadText(known, toks, ss, 0);
    TailText(known, toks, ss, 1);
    CloserText(known, toks, ss, n + 1);
    CloserText(known, toks, ss, n + 2);
    TokenWritten(known, toks, ss, out, 0, 0);
    TokenWritten(known, toks, ss, out, 0, 1);
    TokenWritten(known, toks, ss, out, 2, n + 1);
    TokenWritten(known, toks, ss, out, 2, n + 2);
    forall k | 2 <= k <= n ensures out[k] == MovedText(toks, ss[1], HOME, k) {
      TokenWritten(known, toks, ss, out, 1, k);
      StatementText(known, toks, ss, k);
    }
  }

  lemma BlockBounds(toks: seq<Tok>, ss: seq<Stmt>, n: nat)
    requires BlockOf(toks, ss, n)
    ensures 2 < n && |toks| == n + 3 && ss[0] == Stmt(0, 2, ".") && ss[1] == Stmt(2, n + 1, ".")
    ensures ss[2] == Stmt(n + 1, n + 3, ".")
  {
    hide OpensRoot;
  }

  lemma TokenWritten(known: Known, toks: seq<Tok>, ss: seq<Stmt>, out: seq<string>, j: nat, k: nat)
    requires Ordered(toks, ss) && NestTokens(known, toks, ss, out) && j < |ss| && ss[j].lo <= k < ss[j].hi
    ensures |out| == |toks| && out[k] == NestText(known, toks, ss, j, k)
  {
    hide NestText;
  }

  lemma HeadText(known: Known, toks: seq<Tok>, ss: seq<Stmt>, k: nat)
    requires Ordered(toks, ss) && |ss| == 3 && BlockMoved(known, toks, ss, HOME) && !IsCodeStatement(toks, ss[0])
    requires k == ss[0].lo
    ensures NestText(known, toks, ss, 0, k) == "\\d " + HOME
  {
    hide HomeIn, MovesTo, IsCodeStatement;
  }

  lemma TailText(known: Known, toks: seq<Tok>, ss: seq<Stmt>, k: nat)
    requires Ordered(toks, ss) && |ss| == 3 && !IsCodeStatement(toks, ss[0]) && ss[0].lo < k < ss[0].hi
    ensures NestText(known, toks, ss, 0, k) == toks[k].text
  {
    hide HomeIn, MovesTo, IsCodeStatement;
  }

  lemma CloserText(known: Known, toks: seq<Tok>, ss: seq<Stmt>, k: nat)
    requires Ordered(toks, ss) && |ss| == 3 && BlockMoved(known, toks, ss, HOME) && !IsCodeStatement(toks, ss[2])
    requires ss[2].lo <= k < ss[2].hi
    ensures NestText(known, toks, ss, 2, k) == toks[k].text
  {
    hide HomeIn, MovesTo, IsCodeStatement;
  }

  lemma StatementText(known: Known, toks: seq<Tok>, ss: seq<Stmt>, k: nat)
    requires Ordered(toks, ss) && |ss| == 3 && BlockMoved(known, toks, ss, HOME) && IsCodeStatement(toks, ss[1])
    requires ss[1].lo <= k < ss[1].hi
    ensures NestText(known, toks, ss, 1, k) == MovedText(toks, ss[1], HOME, k)
  {
    hide HomeIn, MovesTo, IsCodeStatement, MovedText;
  }

  /** A token that does not start with the context and a dot is not shortened. */
  lemma NotShortened(toks: seq<Tok>, s: Stmt, ctx: string, k: nat)
    requires s.lo <= k < s.hi <= |toks| && !(ctx + "." <= toks[k].text)
    ensures !Shortened(toks, s, ctx, k) && MovedText(toks, s, ctx, k) == toks[k].text
  {
    if Shortened(toks, s, ctx, k) {
      ShortenedName(toks, s, ctx, k);
    }
    hide Shortened, MovedText;
    MovedOrSame(toks, s, ctx, k);
  }

  /** A plain leaf of the home, used outside qSQL phrases and made no local, is what its name is shortened to. */
  lemma LeafIs(lams: seq<Lambda>, use: Use, leaf: string)
    requires '.' !in leaf && !IsBuiltin(leaf) && leaf !in QSQL_START && leaf !in QSQL_NEXT
    requires !use.columnCtx && use.role != Column
    requires use.lam.None? || (!IsLocalIn(lams, use.lam, leaf) && use.role != Assign)
    ensures ShortOf(lams, use, HOME + "." + leaf, HOME) == Some(leaf)
  {
    var name := HOME + "." + leaf;
    assert name[|HOME| + 1..] == leaf && HOME + "." <= name;
    hide IsBuiltin, IsLocalIn;
  }

  /** Short names that q owns none of. */
  lemma LetterIsFree(t: string)
    requires |t| == 1
    ensures !IsBuiltin(t) && t !in QSQL_START && t !in QSQL_NEXT
  {
    assert !IsPlainWord(t);
  }

  /** A file of one block is flat. */
  lemma BlockIsFlat(toks: seq<Tok>, ps: seq<Piece>, n: nat)
    requires TokensOf(toks, ps) && OneBlock(ps, n)
    ensures IsFlat(toks)
  {
    BlockStatements(toks, ps, n);
    BlockPieces(toks, ps, n);
    hide *;
    RootIsFlatLine(toks[0]);
    RootIsFlatLine(toks[n + 1]);
    FlatPart(toks, Stmt(0, 2, "."));
    FlatPart(toks, Stmt(2, n + 1, "."));
    FlatPart(toks, Stmt(n + 1, n + 3, "."));
    FlatParts(toks, StatementsOf(toks));
  }

  lemma RootIsFlatLine(t: Tok)
    ensures t.text == ROOT_LINE ==> FlatLine(t)
    ensures t.kind != Sys ==> FlatLine(t)
  {
    RootLine();
    hide ContextOf, ROOT_LINE, CountOf;
  }

  lemma FlatPart(toks: seq<Tok>, s: Stmt)
    requires s.lo < s.hi <= |toks| && s.ctx == "." && FlatLine(toks[s.lo])
    requires forall k :: s.lo <= k < s.hi ==> toks[k].kind != Str
    ensures FlatStatement(toks, s)
  {
    NestedIsNoRoot();
    hide FlatLine, HidesSwitch, Nested;
  }

  lemma FlatParts(toks: seq<Tok>, ss: seq<Stmt>)
    requires ss == StatementsOf(toks) && |ss| == 3
    requires FlatStatement(toks, ss[0]) && FlatStatement(toks, ss[1]) && FlatStatement(toks, ss[2])
    ensures IsFlat(toks)
  {
    hide FlatStatement, StatementsOf;
  }

  /** Each shortened token of the block is a name of its own. */
  ghost predicate LeavesOwn(toks: seq<Tok>, s: Stmt, ctx: string) {
    s.lo < s.hi <= |toks| &&
    forall k: nat :: s.lo <= k < s.hi && Shortened(toks, s, ctx, k) ==>
      StartsBare(MovedText(toks, s, ctx, k)) && (k > 0 ==> !(toks[k - 1].kind == Op && toks[k - 1].text == "."))
  }

  /** Where two tokens alone are shortened. */
  lemma TwoLeaves(toks: seq<Tok>, s: Stmt, ctx: string, at: nat, other: nat)
    requires s.lo <= at < s.hi <= |toks| && StartsBare(MovedText(toks, s, ctx, at))
    requires (at > 0 ==> toks[at - 1].kind != Op)
    requires s.lo <= other < s.hi && StartsBare(MovedText(toks, s, ctx, other))
    requires (other > 0 ==> toks[other - 1].kind != Op)
    requires forall k :: s.lo <= k < s.hi && k != at && k != other ==> !Shortened(toks, s, ctx, k)
    ensures LeavesOwn(toks, s, ctx)
  {
    hide Shortened, MovedText, StartsBare;
  }

  /** Where one token alone is shortened. */
  lemma OneLeaf(toks: seq<Tok>, s: Stmt, ctx: string, at: nat)
    requires s.lo <= at < s.hi <= |toks| && StartsBare(MovedText(toks, s, ctx, at))
    requires at > 0 ==> toks[at - 1].kind != Op
    requires forall k :: s.lo <= k < s.hi && k != at ==> !Shortened(toks, s, ctx, k)
    ensures LeavesOwn(toks, s, ctx)
  {
    hide Shortened, MovedText, StartsBare;
  }

  lemma BlockLeaf(known: Known, toks: seq<Tok>, ss: seq<Stmt>, j: nat, k: nat)
    requires Ordered(toks, ss) && |ss| == 3 && BlockMoved(known, toks, ss, HOME) && LeavesOwn(toks, ss[1], HOME)
    requires j < |ss| && k < |toks| && ShortenedIn(known, toks, ss, j, k)
    ensures LeafNamed(known, toks, ss, j, k)
  {
    assert j == 1 && Shortened(toks, ss[1], HOME, k) by { hide HomeIn, MovesTo, Shortened; }
    ShortenedInside(toks, ss[1], HOME, k);
    assert MovesTo(known, toks, ss, 1) == Some(HOME) by { hide HomeIn, MovesTo; }
    hide HomeIn, MovesTo, MovedText, StartsBare, Shortened, ShortenedIn, BlockMoved;
  }

  lemma BlockLeaves(known: Known, toks: seq<Tok>, ss: seq<Stmt>)
    requires Ordered(toks, ss) && |ss| == 3 && BlockMoved(known, toks, ss, HOME) && LeavesOwn(toks, ss[1], HOME)
    ensures LeavesNamed(known, toks, ss)
  {
    hide BlockMoved, LeavesOwn, ShortenedIn, LeafNamed;
    forall j: nat, k: nat | j < |ss| && k < |toks| && ShortenedIn(known, toks, ss, j, k)
      ensures LeafNamed(known, toks, ss, j, k)
    {
      BlockLeaf(known, toks, ss, j, k);
    }
  }

  lemma ShortenedInside(toks: seq<Tok>, s: Stmt, ctx: string, k: nat)
    requires s.lo < s.hi <= |toks| && Shortened(toks, s, ctx, k)
    ensures s.lo <= k < s.hi
  {
    hide Parse, ShortenedFrom;
  }

  /** A file of one block that moves can be nested and flattened again. */
  lemma BlockNestable(known: Known, toks: seq<Tok>, ss: seq<Stmt>)
    requires ss == StatementsOf(toks) && Ordered(toks, ss) && |ss| == 3 && BlockMoved(known, toks, ss, HOME)
    requires IsFlat(toks) && LeavesOwn(toks, ss[1], HOME) && ParamsIn(toks, ss[1])
    ensures Nestable(known, toks)
  {
    hide HomeIn, MovesTo, IsFlat, LeavesOwn, ParamsIn, LeavesNamed, StatementsOf;
    BlockLeaves(known, toks, ss);
    forall j: nat | j < |ss| && MovesTo(known, toks, ss, j).Some? ensures ParamsIn(toks, ss[j]) { assert j == 1; }
  }

  // ---- what it defines, as a project of its own

  lemma BlockCollects(toks: seq<Tok>, ss: seq<Stmt>, n: nat, all: Known)
    requires BlockOf(toks, ss, n) && |ss| == 3 && Ordered(toks, ss)
    ensures ss[1].lo < ss[1].hi <= |toks|
    ensures CollectFrom(toks, ss, 0, all) == CollectStatement(toks, ss[1], all)
  {
    BlockBounds(toks, ss, n);
    assert toks[0].kind == Sys && toks[n + 1].kind == Sys by { hide ContextOf; }
    assert CollectStatement(toks, ss[0], all) == all;
    var one := CollectStatement(toks, ss[1], all);
    assert CollectStatement(toks, ss[2], one) == one;
    hide CollectStatement, BlockOf, Ordered;
    assert CollectFrom(toks, ss, 3, one) == one;
    assert CollectFrom(toks, ss, 2, one) == one;
    assert CollectFrom(toks, ss, 1, all) == one;
  }

  lemma OneCollected(text: string)
    requires LexOf(text).Lexed?
    ensures var all := CollectFrom(LexOf(text).toks, StatementsOf(LexOf(text).toks), 0, NOTHING);
            KnownOf([text]) == Known(all.defined, Settled(all.functions))
  {
    hide LexOf, CollectFrom, StatementsOf, Settled;
    assert [text][1..] == [];
    assert CollectAll([text], NOTHING) == CollectAll([], Collect(text, NOTHING));
  }
}
