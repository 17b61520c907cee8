/** Lexing loses nothing, and re-lexing rewritten pieces finds the same pieces again. */
module LexerProofs {
  import opened Chars
  import opened Lexer

  // ---- lossless: the pieces, their text and their positions

  /** Each piece is what the lexer cuts off the front of itself and what follows. */
  ghost predicate Valid(ps: seq<Piece>, m: Mode)
    decreases |ps|
  {
    ps == [] ||
    (ps[0].text != "" &&
     Step(Concat(ps), m) == Cut(ps[0].kind, |ps[0].text|) &&
     Valid(ps[1..], NextMode(ps[0])))
  }

  lemma {:induction false} ConcatAppend(a: seq<Piece>, b: seq<Piece>)
    ensures Concat(a + b) == Concat(a) + Concat(b)
  {
    if a == [] {
      assert a + b == b;
    } else {
      assert (a + b)[1..] == a[1..] + b;
      ConcatAppend(a[1..], b);
    }
  }

  lemma {:induction false} CutIffValid(s: string, m: Mode, ps: seq<Piece>)
    ensures CutAll(s, m) == Cuts(ps) <==> Concat(ps) == s && Valid(ps, m)
    decreases |s| + |ps|
  {
    hide Step, NextMode;
    if s != "" && ps != [] {
      var c := Step(s, m);
      var p := ps[0];
      assert (p.text + Concat(ps[1..]))[..|p.text|] == p.text;
      assert (p.text + Concat(ps[1..]))[|p.text|..] == Concat(ps[1..]);
      if c.Cut? && p == Piece(c.kind, s[..c.len]) {
        CutIffValid(s[c.len..], NextMode(p), ps[1..]);
        assert s == p.text + s[c.len..];
        assert (Cuts([p] + ps[1..])).all[1..] == ps[1..] && [p] + ps[1..] == ps;
        var rest := CutAll(s[c.len..], NextMode(p));
        if rest.Cuts? { assert ([p] + rest.all)[1..] == rest.all; }
      }
    }
  }

  /** Nothing is lost when lexing fails either: the pieces are what comes before the open string. */
  lemma {:induction false} OpenIsPrefix(s: string, m: Mode)
    requires CutAll(s, m).Open?
    ensures Concat(CutAll(s, m).before) < s && s[|Concat(CutAll(s, m).before)|] == '"'
    decreases |s|
  {
    var c := Step(s, m);
    assert s != "" && (c.NoCut? ==> s[0] == '"');
    hide Step, NextMode;
    if c.Cut? {
      var p := Piece(c.kind, s[..c.len]);
      OpenIsPrefix(s[c.len..], NextMode(p));
      PrefixAfter(p, CutAll(s[c.len..], NextMode(p)).before, s);
    }
  }

  lemma PrefixAfter(p: Piece, ps: seq<Piece>, s: string)
    requires p.text <= s && Concat(ps) < s[|p.text|..]
    ensures Concat([p] + ps) < s && s[|Concat([p] + ps)|] == s[|p.text|..][|Concat(ps)|]
  {
    var b := Concat(ps);
    assert ([p] + ps)[1..] == ps;
    assert Concat([p] + ps) == p.text + b;
    hide Concat;
    Prefix(p.text, b, s);
  }

  lemma Prefix(a: string, b: string, s: string)
    requires a <= s && b < s[|a|..]
    ensures a + b < s && s[|a + b|] == s[|a|..][|b|]
  {
    forall k | 0 <= k < |a + b| ensures s[k] == (a + b)[k] {
      if k >= |a| { assert s[|a|..][k - |a|] == s[k]; }
    }
  }

  lemma {:induction false} PlaceAt(before: string, ps: seq<Piece>, k: nat)
    requires k < |ps|
    ensures Place(before, ps)[k] ==
            Tok(ps[k].kind, ps[k].text, LineAfter(before + Concat(ps[..k])), ColAfter(before + Concat(ps[..k])))
    decreases k
  {
    if k == 0 {
      assert before + Concat(ps[..0]) == before;
    } else {
      PlaceAt(before + ps[0].text, ps[1..], k - 1);
      assert ps[..k][1..] == ps[1..][..k - 1];
      assert before + Concat(ps[..k]) == before + ps[0].text + Concat(ps[1..][..k - 1]);
    }
  }

  function Bare1(t: Tok): Piece { Piece(t.kind, t.text) }

  /** Tokens without their positions. */
  function Unplaced(ts: seq<Tok>): seq<Piece> { seq(|ts|, i requires 0 <= i < |ts| => Bare1(ts[i])) }

  lemma {:induction false} UnplacedPlace(before: string, ps: seq<Piece>)
    ensures Unplaced(Place(before, ps)) == ps
  {
    forall k | 0 <= k < |ps| ensures Unplaced(Place(before, ps))[k] == ps[k] { PlaceAt(before, ps, k); }
  }

  /** Tokens are nonempty, join to the text exactly, and stand where they say. */
  lemma {:induction false} LexIsLossless(text: string)
    requires LexOf(text).Lexed?
    ensures var ps := Unplaced(LexOf(text).toks);
            && Concat(ps) == text && Valid(ps, LineStart)
            && (forall k :: 0 <= k < |ps| ==> ps[k].text != "")
            && (forall k :: 0 <= k < |ps| ==>
                  LexOf(text).toks[k].line == LineAfter(Concat(ps[..k])) &&
                  LexOf(text).toks[k].col == ColAfter(Concat(ps[..k])))
  {
    var ps := CutAll(text, LineStart).all;
    CutIffValid(text, LineStart, ps);
    UnplacedPlace("", ps);
    forall k | 0 <= k < |ps|
      ensures ps[k].text != ""
      ensures LexOf(text).toks[k].line == LineAfter(Concat(ps[..k]))
      ensures LexOf(text).toks[k].col == ColAfter(Concat(ps[..k]))
    {
      ValidAt(ps, LineStart, k);
      PlaceAt("", ps, k);
      assert "" + Concat(ps[..k]) == Concat(ps[..k]);
    }
  }

  function ModeAt(ps: seq<Piece>, m: Mode, k: nat): Mode
    requires k <= |ps|
  {
    if k == 0 then m else NextMode(ps[k - 1])
  }

  lemma {:induction false} ValidAt(ps: seq<Piece>, m: Mode, k: nat)
    requires Valid(ps, m) && k <= |ps|
    ensures Valid(ps[k..], ModeAt(ps, m, k))
    ensures k < |ps| ==> ps[k].text != ""
    decreases k
  {
    if k == 0 {
      assert ps[0..] == ps;
    } else {
      ValidAt(ps[1..], NextMode(ps[0]), k - 1);
      assert ps[1..][k - 1..] == ps[k..];
      assert k - 1 > 0 ==> ps[1..][k - 2] == ps[k - 1];
    }
  }

  // ---- what the lexer can see of the text after a token

  predicate AtLineEnd(r: string) {
    r == "" || r[0] == '\n' || (r[0] == '\r' && AtLineEnd(r[1..]))
  }

  predicate DotName(r: string) { 2 <= |r| && r[0] == '.' && IsNameChar(r[1]) }

  predicate SecondDigit(r: string) { 2 <= |r| && IsDigit(r[1]) }

  ghost predicate SameFront(r: string, q: string) {
    r != "" && q != "" && r[0] == q[0] && SecondDigit(r) == SecondDigit(q) && DotName(r) == DotName(q)
  }

  /** No token before them can tell `r` from `q`, an operator dot before a bare name apart. */
  ghost predicate Alike(r: string, q: string) {
    && AtLineEnd(r) == AtLineEnd(q)
    && ((r == "" && q == "") || (BeginsName(r) && BeginsName(q)) || SameFront(r, q))
  }

  lemma {:induction false} BlankEndIs(s: string, j: nat, k: nat)
    requires j <= k <= |s| && (forall i :: j <= i < k ==> IsBlank(s[i])) && (k < |s| ==> !IsBlank(s[k]))
    ensures BlankEnd(s, j) == k
    decreases k - j
  {
    if j < k { BlankEndIs(s, j + 1, k); }
  }

  lemma {:induction false} SymEndIs(s: string, j: nat, k: nat)
    requires j <= k <= |s| && (forall i :: j <= i < k ==> IsSymChar(s[i])) && (k < |s| ==> !IsSymChar(s[k]))
    ensures SymEnd(s, j) == k
    decreases k - j
  {
    if j < k { SymEndIs(s, j + 1, k); }
  }

  lemma {:induction false} NameEndIs(s: string, j: nat, k: nat)
    requires j <= k <= |s| && (forall i :: j <= i < k ==> NameGoesOn(s, i)) && !NameGoesOn(s, k)
    ensures NameEnd(s, j) == k
    decreases k - j
  {
    if j < k { NameEndIs(s, j + 1, k); }
  }

  lemma {:induction false} EolIs(s: string, j: nat, k: nat)
    requires j <= k <= |s| && (forall i :: j <= i < k ==> s[i] != '\n') && (k < |s| ==> s[k] == '\n')
    ensures Eol(s, j) == k
  {
  }

  lemma {:induction false} NameEndKept(t: string, r: string, q: string, j: nat)
    requires j <= |t| && NameEnd(t + r, j) == |t|
    requires !NameGoesOn(t + q, |t|)
    ensures NameEnd(t + q, j) == |t|
  {
    assert !NameGoesOn(t + r, |t|);
    forall i | j <= i < |t| ensures NameGoesOn(t + q, i) {
      assert NameGoesOn(t + r, i);
    }
    NameEndIs(t + q, j, |t|);
  }

  lemma {:induction false} NumEndKept(t: string, r: string, q: string, j: nat)
    requires j <= |t| && NumEnd(t + r, j) == |t| && Alike(r, q)
    ensures NumEnd(t + q, j) == |t|
    decreases |t| - j
  {
    if j < |t| {
      assert NumGoesOn(t + r, j);
      var n := if Exponent(t + r, j) then 3 else 1;
      assert NumEnd(t + r, j) == NumEnd(t + r, j + n);
      if j + 2 == |t| { assert NumEnd(t + r, j + 1) == |t| ==> NumGoesOn(t + r, j + 1); }
      assert Exponent(t + q, j) == Exponent(t + r, j);
      NumEndKept(t, r, q, j + n);
    } else {
      assert NumGoesOn(t + q, j) ==> NumGoesOn(t + r, j);
    }
  }

  lemma {:induction false} StrEndKept(t: string, r: string, q: string, j: nat)
    requires StrEnd(t + r, j) == |t|
    ensures StrEnd(t + q, j) == |t|
    decreases |t| - j
  {
    if j < |t| {
      if t[j] != '"' { StrEndKept(t, r, q, j + if t[j] == '\\' then 2 else 1); }
    }
  }

  /** The text after is at an end of line that is not a carriage return's. */
  predicate Stops(r: string) { r == "" || r[0] == '\n' }

  lemma {:induction false} EolKept(t: string, r: string, q: string, j: nat)
    requires j <= |t| && Stops(r) && Stops(q)
    ensures Eol(t + r, j) == Eol(t + q, j) <= |t|
  {
    var e := Eol(t + r, j);
    assert r != "" ==> (t + r)[|t|] == '\n';
    assert forall i :: 0 <= i < |t| ==> (t + r)[i] == (t + q)[i];
    EolIs(t + q, j, e);
  }

  lemma {:induction false} BlockEndKept(t: string, r: string, q: string, j: nat)
    requires j <= |t| && Stops(r) && Stops(q) && (r == "" <==> q == "")
    requires BlockEnd(t + r, j) == |t|
    ensures BlockEnd(t + q, j) == |t|
    decreases |t| - j
  {
    hide Bare, Eol;
    if j < |t| {
      EolKept(t, r, q, j + 1);
      var k := Eol(t + r, j + 1);
      SliceOfFront(t, r, j + 1, k);
      SliceOfFront(t, q, j + 1, k);
      if Bare(t[j + 1..k]) != "\\" { BlockEndKept(t, r, q, k); }
    }
  }

  lemma SliceOfFront(t: string, r: string, j: nat, k: nat)
    requires j <= k <= |t|
    ensures (t + r)[j..k] == t[j..k]
  {
  }

  /** Returns, then the end of the line: how many returns. */
  function Returns(r: string): (n: nat)
    requires AtLineEnd(r)
    ensures n <= |r| && (forall i :: 0 <= i < n ==> r[i] == '\r') && (n < |r| ==> r[n] == '\n')
  {
    if r != "" && r[0] == '\r' then 1 + Returns(r[1..]) else 0
  }

  lemma {:induction false} LineEnds(r: string, n: nat)
    requires n <= |r| && (forall i :: 0 <= i < n ==> r[i] == '\r') && (n < |r| ==> r[n] == '\n')
    ensures AtLineEnd(r)
  {
    if n > 0 { LineEnds(r[1..], n - 1); }
  }

  lemma {:induction false} RStripIs(s: string, cut: set<char>, t: string)
    requires t <= s && (t != "" ==> t[|t| - 1] !in cut) && (forall i :: |t| <= i < |s| ==> s[i] in cut)
    ensures RStrip(s, cut) == t
  {
    if |t| < |s| { RStripIs(s[..|s| - 1], cut, t); }
  }

  /** A comment or system line: its whole line, less the returns at its end. */
  lemma {:induction false} LineBody(t: string, r: string)
    requires t != "" && '\n' !in t && t[|t| - 1] != '\r' && AtLineEnd(r)
    ensures var e := Eol(t + r, 0);
            e == |t| + Returns(r) && RStrip((t + r)[..e], {'\r'}) == t && Bare((t + r)[..e]) == RStrip(t, {' ', '\t'})
  {
    var e := |t| + Returns(r);
    EolIs(t + r, 0, e);
    RStripIs((t + r)[..e], {'\r'}, t);
  }

  lemma {:induction false} LineBodyOf(t: string, r: string)
    requires t != ""
    requires RStrip((t + r)[..Eol(t + r, 0)], {'\r'}) == t
    ensures '\n' !in t && t[|t| - 1] != '\r' && AtLineEnd(r)
  {
    var e := Eol(t + r, 0);
    assert t <= (t + r)[..e];
    assert forall i :: 0 <= i < |t| ==> t[i] == (t + r)[i];
    forall i | 0 <= i < e - |t| ensures r[i] == '\r' { assert (t + r)[..e][|t| + i] in {'\r'}; }
    if e < |t + r| { assert r[e - |t|] == (t + r)[e]; }
    LineEnds(r, e - |t|);
  }

  lemma {:induction false} LineCutKept(t: string, r: string, q: string)
    requires t != "" && (t[0] == '/' || t[0] == '\\') && Alike(r, q)
    requires LineCut(t + r).len == |t|
    ensures LineCut(t + q) == LineCut(t + r)
  {
    var e := Eol(t + r, 0);
    var body := RStrip((t + r)[..e], {'\r'});
    var bare := Bare((t + r)[..e]);
    assert body != "" by { assert (t + r)[..e][0] == t[0]; }
    if bare == "/" {
      assert Stops(r) by { if r != "" { BlockStops(t, r, e); } }
      assert Stops(q);
      EolKept(t, r, q, 0);
      assert (t + r)[..e] == (t + q)[..e];
      BlockEndKept(t, r, q, e);
    } else if bare == "\\" {
      assert r == "" && t + r == t;
    } else {
      assert |body| == |t| && body <= t + r;
      assert body == t;
      LineBodyOf(t, r);
      LineBody(t, r);
      LineBody(t, q);
    }
  }

  lemma {:induction false} BlockStops(t: string, r: string, j: nat)
    requires j <= |t + r| && BlockEnd(t + r, j) == |t| && r != "" && (j < |t + r| ==> (t + r)[j] == '\n')
    ensures r[0] == '\n'
    decreases |t + r| - j
  {
    if j < |t + r| {
      var k := Eol(t + r, j + 1);
      if Bare((t + r)[j + 1..k]) != "\\" { BlockStops(t, r, k); }
      assert BlockEnd(t + r, j) < |t + r|;
      assert (t + r)[|t|] == r[0];
    }
  }

  /** The front token does not change when what follows it looks alike. */
  lemma {:induction false} FrontKept(t: string, r: string, q: string, m: Mode)
    requires t != "" && Alike(r, q)
    requires Step(t + r, m).Cut? && Step(t + r, m).len == |t|
    requires t == "." ==> q == "" || !IsNameStart(q[0])
    ensures Step(t + q, m) == Step(t + r, m)
  {
    var s, u := t + r, t + q;
    assert s[0] == t[0] == u[0];
    if m == LineStart && (t[0] == '/' || t[0] == '\\') {
      LineCutKept(t, r, q);
    } else if m == AfterBlank && t[0] == '/' {
      assert Stops(r);
      EolKept(t, r, q, 0);
    } else {
      PlainKept(t, r, q);
    }
  }

  lemma {:induction false} PlainKept(t: string, r: string, q: string)
    requires t != "" && Alike(r, q)
    requires PlainCut(t + r).Cut? && PlainCut(t + r).len == |t|
    requires t == "." ==> q == "" || !IsNameStart(q[0])
    ensures PlainCut(t + q) == PlainCut(t + r)
  {
    var s, u := t + r, t + q;
    assert s[0] == t[0] == u[0];
    assert |t| >= 2 ==> s[1] == t[1] == u[1];
    if |t| == 1 {
      assert r != "" ==> s[1] == r[0];
      assert q != "" ==> u[1] == q[0];
      assert q == "" <==> r == "";
    }
    if t[0] == '\n' || t[0] == '\r' {
    } else if IsBlank(t[0]) {
      assert forall i :: 1 <= i < |t| ==> s[i] == u[i];
      BlankEndIs(u, 1, |t|);
    } else if t[0] == '"' {
      StrEndKept(t, r, q, 1);
    } else if t[0] == '`' {
      assert forall i :: 1 <= i < |t| ==> s[i] == u[i];
      SymEndIs(u, 1, |t|);
    } else if BeginsNum(s) {
      NumEndKept(t, r, q, 1);
      assert !NumGoesOn(s, |t|);
    } else if BeginsName(s) {
      assert !NameGoesOn(s, |t|);
      assert !NameGoesOn(u, |t|) by { NameStopKept(t, r, t, q); }
      NameEndKept(t, r, q, 1);
    }
  }

  lemma {:induction false} NameStopKept(t: string, r: string, t': string, q: string)
    requires Alike(r, q) && !NameGoesOn(t + r, |t|)
    ensures !NameGoesOn(t' + q, |t'|)
  {
    assert r != "" ==> (t + r)[|t|] == r[0];
    assert |r| >= 2 ==> (t + r)[|t| + 1] == r[1];
    assert q != "" ==> (t' + q)[|t'|] == q[0];
    assert |q| >= 2 ==> (t' + q)[|t'| + 1] == q[1];
  }

  // ---- rewriting pieces

  /** The text is one whole name. */
  predicate NameShaped(t: string) { BeginsName(t) && NameEnd(t, 1) == |t| }

  /** A `\d` line's text. */
  predicate SwitchShaped(t: string) {
    3 <= |t| && t[..2] == "\\d" && t[|t| - 1] != '\r' && '\n' !in t
  }

  /** `q` is `p`, or a name or context switch with another text. */
  ghost predicate Rewrites(p: Piece, q: Piece) {
    p.kind == q.kind &&
    (p.text != q.text ==>
       p.kind == Name || (p.kind == Sys && SwitchShaped(p.text) && SwitchShaped(q.text)))
  }

  ghost predicate RewritesAll(ps: seq<Piece>, qs: seq<Piece>) {
    |ps| == |qs| && forall k :: 0 <= k < |ps| ==> Rewrites(ps[k], qs[k])
  }

  predicate StartsBare(t: string) { t != "" && IsNameStart(t[0]) }

  /** Every rewritten name is one whole name, and none starting with a letter follows an operator dot. */
  ghost predicate KeepsBoundaries(ps: seq<Piece>, qs: seq<Piece>)
    requires |ps| == |qs|
  {
    && (forall k :: 0 <= k < |ps| && ps[k] != qs[k] && ps[k].kind == Name ==> NameShaped(qs[k].text))
    && (forall k :: 1 <= k < |ps| && ps[k] != qs[k] && ps[k].kind == Name && StartsBare(qs[k].text)
          ==> ps[k - 1] != Piece(Op, "."))
  }

  lemma {:induction false} NameFront(t: string, r: string, t': string, q: string, m: Mode)
    requires t != "" && Step(t + r, m) == Cut(Name, |t|) && Alike(r, q) && NameShaped(t')
    ensures Step(t' + q, m) == Cut(Name, |t'|)
    ensures Alike(t + r, t' + q)
  {
    assert BeginsName(t + r) && NameEnd(t + r, 1) == |t|;
    NameStopKept(t, r, t', q);
    assert t' + "" == t';
    NameEndKept(t', "", q, 1);
    assert (t' + q)[0] == t'[0] && (|t'| >= 2 ==> (t' + q)[1] == t'[1]);
    assert BeginsName(t' + q);
  }

  lemma {:induction false} SwitchFront(t: string, r: string, t': string, q: string, m: Mode)
    requires t != "" && Step(t + r, m) == Cut(Sys, |t|) && Alike(r, q) && SwitchShaped(t) && SwitchShaped(t')
    ensures Step(t' + q, m) == Cut(Sys, |t'|)
    ensures Alike(t + r, t' + q)
  {
    var s, u := t + r, t' + q;
    assert t[0] == t[..2][0] && t[1] == t[..2][1] && t'[0] == t'[..2][0] && t'[1] == t'[..2][1];
    assert s[0] == t[0] == '\\' && u[0] == t'[0] == '\\' && s[1] == t[1] == 'd' && u[1] == t'[1] == 'd';
    assert m == LineStart;
    var body := RStrip(s[..Eol(s, 0)], {'\r'});
    assert body == t;
    LineBodyOf(t, r);
    LineBody(t', q);
    var bare := RStrip(t', {' ', '\t'});
    assert |bare| >= 2;
  }

  lemma {:induction false} AlikeAfter(t: string, k: Kind, r: string, q: string, m: Mode)
    requires t != "" && Alike(r, q) && Step(t + r, m) == Cut(k, |t|)
    requires t == "." ==> q == "" || !IsNameStart(q[0])
    ensures Alike(t + r, t + q)
  {
    var s, u := t + r, t + q;
    assert s[0] == t[0] == u[0];
    assert |t| >= 2 ==> s[1] == t[1] == u[1];
    if |t| == 1 {
      assert r != "" ==> s[1] == r[0];
      assert q != "" ==> u[1] == q[0];
      assert s[1..] == r && u[1..] == q;
    }
    if t[0] == '\r' {
      assert |t| == 1 || t[1] == '\n';
      if |t| == 2 { assert s[1..][0] == '\n' && u[1..][0] == '\n'; }
    }
  }

  /** The front piece of a rewritten text, the rest being lexed again already. */
  lemma {:induction false} RelexFront(p: Piece, q: Piece, r: string, w: string, m: Mode)
    requires p.text != "" && Step(p.text + r, m) == Cut(p.kind, |p.text|)
    requires Alike(r, w) && Rewrites(p, q) && (p != q && p.kind == Name ==> NameShaped(q.text))
    requires p == Piece(Op, ".") ==> !StartsBare(w)
    ensures q.text != "" && Step(q.text + w, m) == Cut(q.kind, |q.text|)
    ensures Alike(p.text + r, q.text + w) && NextMode(p) == NextMode(q)
  {
    hide Step, Alike, AtLineEnd;
    if p == q {
      if p.text == "." { DotIsOp(r, m); }
      FrontKept(p.text, r, w, m);
      AlikeAfter(p.text, p.kind, r, w, m);
    } else if p.kind == Name {
      NameFront(p.text, r, q.text, w, m);
      NameHasNoNewline(q.text);
      PieceIsName(p.text, r, m);
      NameHasNoNewline(p.text);
    } else {
      SwitchFront(p.text, r, q.text, w, m);
    }
  }

  lemma {:induction false} RelexForward(ps: seq<Piece>, qs: seq<Piece>, m: Mode)
    requires Valid(ps, m) && RewritesAll(ps, qs) && KeepsBoundaries(ps, qs)
    ensures Valid(qs, m) && Alike(Concat(ps), Concat(qs))
    decreases |ps|
  {
    hide Step, NextMode, Alike, NameShaped, SwitchShaped;
    if ps == [] {
      NothingAlike();
    } else {
      assert forall k :: 0 <= k < |ps| - 1 ==> ps[1..][k] == ps[k + 1] && qs[1..][k] == qs[k + 1];
      RelexForward(ps[1..], qs[1..], NextMode(ps[0]));
      if ps[0] == Piece(Op, ".") { DotBeforeName(ps, qs, m); }
      RelexFront(ps[0], qs[0], Concat(ps[1..]), Concat(qs[1..]), m);
    }
  }

  lemma NothingAlike()
    ensures Alike("", "")
  {
  }

  lemma {:induction false} DotIsOp(r: string, m: Mode)
    requires Step("." + r, m).Cut? && Step("." + r, m).len == 1
    ensures Step("." + r, m).kind == Op && !StartsBare(r)
  {
    var s := "." + r;
    var num, name := NumGoesOn(s, 1), NameGoesOn(s, 1);
    assert r != "" ==> s[1] == r[0];
  }

  /** An operator dot is not followed by a bare name: the name was not one before, nor was it written. */
  lemma {:induction false} DotBeforeName(ps: seq<Piece>, qs: seq<Piece>, m: Mode)
    requires Valid(ps, m) && RewritesAll(ps, qs) && KeepsBoundaries(ps, qs)
    requires ps != [] && ps[0] == Piece(Op, ".")
    requires Valid(qs[1..], NextMode(ps[0]))
    ensures !StartsBare(Concat(qs[1..]))
  {
    hide Step;
    DotIsOp(Concat(ps[1..]), m);
    if |ps| >= 2 {
      var p, q := ps[1], qs[1];
      assert qs[1..][0] == q && ps[1..][0] == p && ps[1..] != [] && ps[1 - 1] == ps[0];
      assert p.text != "" && q.text != "";
      assert Concat(ps[1..])[0] == p.text[0] && Concat(qs[1..])[0] == q.text[0];
      assert p != q && p.kind != Name ==> q.text[0] == q.text[..2][0];
      assert Rewrites(p, q);
    }
  }

  lemma {:induction false} NameHasNoNewline(t: string)
    requires NameShaped(t)
    ensures '\n' !in t
  {
    forall i | 0 <= i < |t| ensures t[i] != '\n' { if i > 0 { assert NameGoesOn(t, i); } }
  }

  lemma {:induction false} PieceIsName(t: string, r: string, m: Mode)
    requires t != "" && Step(t + r, m) == Cut(Name, |t|)
    ensures NameShaped(t)
  {
    var s := t + r;
    assert BeginsName(s) && NameEnd(s, 1) == |t|;
    assert !NameGoesOn(s, |t|);
    assert s[0] == t[0] && (|t| >= 2 ==> s[1] == t[1]);
    assert t + "" == t;
    NameEndKept(t, r, "", 1);
  }

  lemma {:induction false} RelexBackward(ps: seq<Piece>, qs: seq<Piece>, k: nat)
    requires Valid(qs, LineStart) && RewritesAll(ps, qs)
    requires k < |ps| && ps[k] != qs[k] && ps[k].kind == Name
    ensures NameShaped(qs[k].text)
    ensures k > 0 && StartsBare(qs[k].text) ==> ps[k - 1] != Piece(Op, ".")
  {
    hide Step, NextMode, SwitchShaped, NameShaped;
    ValidAt(qs, LineStart, k);
    assert Rewrites(ps[k], qs[k]);
    assert qs[k..][0] == qs[k];
    PieceIsName(qs[k].text, Concat(qs[k..][1..]), ModeAt(qs, LineStart, k));
    if k > 0 && ps[k - 1] == Piece(Op, ".") {
      ValidAt(qs, LineStart, k - 1);
      assert Rewrites(ps[k - 1], qs[k - 1]);
      var rest := qs[k - 1..][1..];
      assert rest[0] == qs[k] && qs[k - 1..][0] == qs[k - 1];
      DotIsOp(Concat(rest), ModeAt(qs, LineStart, k - 1));
      assert Concat(rest)[0] == qs[k].text[0];
    }
  }

  /** Re-lexing rewritten pieces gives exactly those pieces, if and only if no boundary merges or splits. */
  lemma {:induction false} RelexIff(ps: seq<Piece>, qs: seq<Piece>)
    requires Valid(ps, LineStart) && RewritesAll(ps, qs)
    ensures CutAll(Concat(qs), LineStart) == Cuts(qs) <==> KeepsBoundaries(ps, qs)
  {
    hide Valid, NameShaped, CutAll, StartsBare, Rewrites;
    CutIffValid(Concat(qs), LineStart, qs);
    if KeepsBoundaries(ps, qs) {
      RelexForward(ps, qs, LineStart);
    }
    if Valid(qs, LineStart) {
      forall k | 0 <= k < |ps| && ps[k] != qs[k] && ps[k].kind == Name
        ensures NameShaped(qs[k].text)
        ensures k > 0 && StartsBare(qs[k].text) ==> ps[k - 1] != Piece(Op, ".")
      {
        RelexBackward(ps, qs, k);
      }
    }
  }
}
