/** The lexer as the source runs it: one pass over the text that moves an index
    and keeps the line number and the line's start. */
module LexLoop {
  import opened Chars
  import opened Lexer
  import opened LexerProofs

  /** What lexing gives from position `i` on, after the tokens found so far. */
  ghost function Remaining(text: string, i: nat, m: Mode, toks: seq<Tok>): LexResult
    requires i <= |text|
  {
    match CutAll(text[i..], m)
    case Cuts(ps) => Lexed(toks + Place(text[..i], ps))
    case Open(ps) => Unclosed(LineAfter(text[..i] + Concat(ps)), ColAfter(text[..i] + Concat(ps)))
  }

  lemma StartRemains(text: string)
    ensures Remaining(text, 0, LineStart, []) == LexOf(text)
    ensures LineAfter(text[..0]) == 1 && ColAfter(text[..0]) == 0
  {
    assert text[0..] == text && text[..0] == "";
    match CutAll(text, LineStart)
    case Cuts(ps) => assert [] + Place("", ps) == Place("", ps);
    case Open(ps) => assert "" + Concat(ps) == Concat(ps);
  }

  lemma TakeOne(text: string, i: nat, m: Mode, toks: seq<Tok>, kind: Kind, j: nat)
    requires i < j <= |text| && Step(text[i..], m) == Cut(kind, j - i)
    ensures Remaining(text, j, NextMode(Piece(kind, text[i..j])),
                      toks + [Tok(kind, text[i..j], LineAfter(text[..i]), ColAfter(text[..i]))])
            == Remaining(text, i, m, toks)
  {
    hide Step, NextMode, LineAfter, ColAfter;
    var p := Piece(kind, text[i..j]);
    assert text[i..][..j - i] == text[i..j] && text[i..][j - i..] == text[j..];
    assert text[..i] + text[i..j] == text[..j];
    var t := Tok(kind, text[i..j], LineAfter(text[..i]), ColAfter(text[..i]));
    match CutAll(text[j..], NextMode(p))
    case Cuts(ps) =>
      assert ([p] + ps)[1..] == ps;
      assert Place(text[..i], [p] + ps) == [t] + Place(text[..j], ps);
      assert toks + ([t] + Place(text[..j], ps)) == (toks + [t]) + Place(text[..j], ps);
    case Open(ps) =>
      assert ([p] + ps)[1..] == ps && Concat([p] + ps) == p.text + Concat(ps);
      assert text[..i] + (p.text + Concat(ps)) == text[..j] + Concat(ps);
  }

  lemma {:induction false} LastOfConcat(a: string, b: string, c: char)
    ensures LastOf(a + b, c) == if c in b then |a| + LastOf(b, c) else LastOf(a, c)
  {
    if b == "" {
      assert a + b == a;
    } else {
      assert (a + b)[..|a + b| - 1] == a + b[..|b| - 1];
      if b[|b| - 1] != c { LastOfConcat(a, b[..|b| - 1], c); }
    }
  }

  /** `add`: the new token, and the line and its start moved past it. */
  method Add(text: string, i: nat, j: nat, kind: Kind, toks: seq<Tok>, line: nat, bol: nat)
    returns (toks': seq<Tok>, line': nat, bol': nat)
    requires i < j <= |text| && line == LineAfter(text[..i]) && bol <= i && i - bol == ColAfter(text[..i])
    ensures toks' == toks + [Tok(kind, text[i..j], LineAfter(text[..i]), ColAfter(text[..i]))]
    ensures line' == LineAfter(text[..j]) && bol' <= j && j - bol' == ColAfter(text[..j])
    ensures bol' == j <==> text[j - 1] == '\n'
  {
    hide CountOf, LastOf;
    var piece := text[i..j];
    toks' := toks + [Tok(kind, piece, line, i - bol)];
    line', bol' := line, bol;
    PositionAfter(text, i, j);
    if '\n' in piece {
      line' := line + CountOf(piece, '\n');
      bol' := i + LastOf(piece, '\n') + 1;
    }
  }

  lemma PositionAfter(text: string, i: nat, j: nat)
    requires i < j <= |text|
    ensures var piece := text[i..j];
            && text[j - 1] == piece[|piece| - 1]
            && LineAfter(text[..j]) == LineAfter(text[..i]) + (if '\n' in piece then CountOf(piece, '\n') else 0)
            && ColAfter(text[..j]) == if '\n' in piece then |piece| - (LastOf(piece, '\n') + 1)
              else ColAfter(text[..i]) + |piece|
  {
    hide CountOf, LastOf;
    var piece := text[i..j];
    assert text[..i] + piece == text[..j];
    CountOfConcat(text[..i], piece, '\n');
    LastOfConcat(text[..i], piece, '\n');
    NoneCounted(piece, '\n');
  }

  method ScanBlock(text: string, i: nat) returns (j: nat)
    requires i < |text|
    ensures j == i + BlockEnd(text[i..], Eol(text[i..], 0))
  {
    hide Bare, Eol, BlockEnd;
    ghost var s := text[i..];
    j := Eol(text, i);
    EolShift(text, i, 0);
    while j < |text|
      invariant i <= j <= |text|
      invariant BlockEnd(s, j - i) == BlockEnd(s, Eol(s, 0))
    {
      var k := Eol(text, j + 1);
      var last := Bare(text[j + 1..k]) == "\\";
      BlockGoesOn(text, i, j);
      j := k;
      if last {
        break;
      }
    }
  }

  lemma BlockGoesOn(text: string, i: nat, j: nat)
    requires i <= j < |text|
    ensures var k := Eol(text, j + 1);
            BlockEnd(text[i..], j - i) == if Bare(text[j + 1..k]) == "\\" then k - i else BlockEnd(text[i..], k - i)
  {
    hide Bare, Eol;
    EolShift(text, i, j + 1 - i);
    var k := Eol(text, j + 1);
    assert text[j + 1..k] == text[i..][j + 1 - i..k - i];
  }

  lemma {:induction false} EolShift(text: string, i: nat, j: nat)
    requires i + j <= |text|
    ensures Eol(text, i + j) == i + Eol(text[i..], j)
  {
    EolIs(text, i + j, i + Eol(text[i..], j));
  }

  method ScanBlanks(text: string, i: nat) returns (j: nat)
    requires i < |text| && IsBlank(text[i])
    ensures j == i + BlankEnd(text[i..], 1)
  {
    j := i;
    while j < |text| && IsBlank(text[j])
      invariant i <= j <= |text| && forall k :: i <= k < j ==> IsBlank(text[k])
    {
      j := j + 1;
    }
    BlankEndIs(text[i..], 1, j - i);
  }

  method ScanString(text: string, i: nat) returns (j: nat)
    requires i < |text|
    ensures var k := StrEnd(text[i..], 1);
            if k > |text| - i then j >= |text| else j < |text| && j + 1 == i + k
  {
    ghost var s := text[i..];
    j := i + 1;
    while j < |text| && text[j] != '"'
      invariant i < j
      invariant StrEnd(s, j - i) == StrEnd(s, 1)
    {
      j := j + if text[j] == '\\' then 2 else 1;
    }
  }

  method ScanSymbol(text: string, i: nat) returns (j: nat)
    requires i < |text|
    ensures j == i + SymEnd(text[i..], 1)
  {
    j := i + 1;
    while j < |text| && IsSymChar(text[j])
      invariant i < j <= |text| && forall k :: i < k < j ==> IsSymChar(text[k])
    {
      j := j + 1;
    }
    SymEndIs(text[i..], 1, j - i);
  }

  method ScanNumber(text: string, i: nat) returns (j: nat)
    requires i < |text|
    ensures j == i + NumEnd(text[i..], 1)
  {
    ghost var s := text[i..];
    j := i + 1;
    while j < |text| && (IsAlnum(text[j]) || text[j] == '.' || text[j] == ':')
      invariant i < j <= |text|
      invariant NumEnd(s, j - i) == NumEnd(s, 1)
    {
      assert s[j - i] == text[j];
      if (text[j] == 'e' || text[j] == 'E') && j + 2 < |text| && (text[j + 1] == '+' || text[j + 1] == '-')
         && IsDigit(text[j + 2])
      {
        assert Exponent(s, j - i);
        j := j + 2;
      }
      j := j + 1;
    }
  }

  method ScanName(text: string, i: nat) returns (j: nat)
    requires i < |text|
    ensures j == i + NameEnd(text[i..], 1)
  {
    ghost var s := text[i..];
    j := i + 1;
    while j < |text| && (IsNameChar(text[j]) || (text[j] == '.' && j + 1 < |text| && IsNameChar(text[j + 1])))
      invariant i < j <= |text| && forall k :: 1 <= k < j - i ==> NameGoesOn(s, k)
    {
      assert NameGoesOn(s, j - i);
      j := j + 1;
    }
    NameEndIs(s, 1, j - i);
  }

  /** One token anywhere but at a line's start: where it ends and its kind, or an open string. */
  method ScanPlain(text: string, i: nat) returns (kind: Kind, j: nat, open: bool)
    requires i < |text|
    ensures open <==> PlainCut(text[i..]).NoCut?
    ensures !open ==> i < j <= |text| && PlainCut(text[i..]) == Cut(kind, j - i)
  {
    var n, c := |text|, text[i];
    ghost var s := text[i..];
    assert s[0] == c && (i + 1 < n ==> s[1] == text[i + 1]);
    open := false;
    if c == '\r' || c == '\n' {
      kind := Nl;
      j := if c == '\n' then i + 1 else if i + 1 < n && text[i + 1] == '\n' then i + 2 else i + 1;
    } else if IsBlank(c) {
      kind := Ws;
      j := ScanBlanks(text, i);
    } else if c == '"' {
      kind := Str;
      j := ScanString(text, i);
      if j >= n {
        open := true;
        return;
      }
      j := j + 1;
    } else if c == '`' {
      kind := Sym;
      j := ScanSymbol(text, i);
    } else if IsDigit(c) || (c == '.' && i + 1 < n && IsDigit(text[i + 1])) {
      kind := Num;
      j := ScanNumber(text, i);
    } else if IsNameStart(c) || (c == '.' && i + 1 < n && IsNameStart(text[i + 1])) {
      kind := Name;
      j := ScanName(text, i);
    } else if i + 1 < n && text[i + 1] == ':' && c in {':', '/', '\\', '\''} {
      kind, j := Op, i + 2;
    } else {
      kind, j := Op, i + 1;
    }
  }

  /** A token at a line's start, if the line decides what it holds. */
  method ScanLine(text: string, i: nat) returns (found: bool, kind: Kind, j: nat)
    requires i < |text|
    ensures found <==> text[i] == '/' || text[i] == '\\'
    ensures found ==> i < j <= |text| && LineCut(text[i..]) == Cut(kind, j - i)
  {
    ghost var s := text[i..];
    EolShift(text, i, 0);
    var line := text[i..Eol(text, i)];
    assert line == s[..Eol(s, 0)];
    var body := RStrip(line, {'\r'});
    var bare := Bare(line);
    kind, j := Ws, i;
    assert body != "" ==> body[0] == text[i];
    assert bare != "" ==> bare[0] == text[i];
    if bare == "/" {
      found, kind := true, Block;
      j := ScanBlock(text, i);
    } else if bare == "\\" {
      found, kind, j := true, Tail, |text|;
    } else if body != "" && (body[0] == '/' || body[0] == '\\') {
      found, kind, j := true, if body[0] == '/' then Comment else Sys, i + |body|;
    } else {
      found := false;
      assert line != "" ==> line[0] == text[i] && (body != "" || line[0] in {'\r'});
    }
  }

  /** The mode the lexer's index stands for, at the head of its loop. */
  ghost predicate Stands(text: string, i: nat, bol: nat, m: Mode) {
    && (m == LineStart <==> i == bol)
    && (m == AfterBlank && i < |text| ==> text[i] != '/')
  }

  lemma StepsPlain(text: string, i: nat, bol: nat, m: Mode)
    requires i < |text| && Stands(text, i, bol, m)
    ensures Step(text[i..], m) == if i == bol && (text[i] == '/' || text[i] == '\\') then LineCut(text[i..])
            else PlainCut(text[i..])
  {
    assert text[i..][0] == text[i];
  }

  /** Lexing, as a loop: exactly the function the results are about. */
  method Lex(text: string) returns (r: LexResult)
    ensures r == LexOf(text)
  {
    hide Step, LineCut, PlainCut, LexOf, Remaining, LineAfter, ColAfter, NextMode;
    var toks: seq<Tok> := [];
    var n := |text|;
    var i: nat, line: nat, bol: nat := 0, 1, 0;
    ghost var m := LineStart;
    StartRemains(text);
    while i < n
      invariant i <= n && bol <= i
      invariant line == LineAfter(text[..i]) && i - bol == ColAfter(text[..i])
      invariant Stands(text, i, bol, m)
      invariant Remaining(text, i, m, toks) == LexOf(text)
    {
      StepsPlain(text, i, bol, m);
      var found, kind, j := false, Op, i;
      if i == bol {
        found, kind, j := ScanLine(text, i);
      }
      if !found {
        var open;
        kind, j, open := ScanPlain(text, i);
        if open {
          OpenRemains(text, i, m, toks);
          return Unclosed(line, i - bol);
        }
      }
      TakeOne(text, i, m, toks, kind, j);
      ModeAfter(text, i, j, kind);
      if kind == Ws { BlanksOnly(text, i, j, m); }
      m := NextMode(Piece(kind, text[i..j]));
      toks, line, bol := Add(text, i, j, kind, toks, line, bol);
      i := j;
      if kind == Ws && i < n && text[i] == '/' {
        // Blanks, then a slash: a comment to the end of the line.
        j := Eol(text, i);
        SlashAfterBlank(text, i, m);
        TakeOne(text, i, m, toks, Comment, j);
        ModeAfter(text, i, j, Comment);
        m := NextMode(Piece(Comment, text[i..j]));
        toks, line, bol := Add(text, i, j, Comment, toks, line, bol);
        i := j;
      }
    }
    EndRemains(text, m, toks);
    return Lexed(toks);
  }

  lemma OpenRemains(text: string, i: nat, m: Mode, toks: seq<Tok>)
    requires i < |text| && Step(text[i..], m).NoCut?
    ensures Remaining(text, i, m, toks) == Unclosed(LineAfter(text[..i]), ColAfter(text[..i]))
  {
    assert text[..i] + Concat([]) == text[..i];
  }

  lemma EndRemains(text: string, m: Mode, toks: seq<Tok>)
    ensures Remaining(text, |text|, m, toks) == Lexed(toks)
  {
    assert toks + Place(text[..|text|], []) == toks;
  }

  lemma ModeAfter(text: string, i: nat, j: nat, kind: Kind)
    requires i < j <= |text|
    ensures NextMode(Piece(kind, text[i..j]))
            == if text[j - 1] == '\n' then LineStart else if kind == Ws then AfterBlank else Mid
  {
    assert text[i..j][j - i - 1] == text[j - 1];
  }

  lemma BlanksOnly(text: string, i: nat, j: nat, m: Mode)
    requires i < j <= |text| && Step(text[i..], m) == Cut(Ws, j - i)
    ensures NextMode(Piece(Ws, text[i..j])) == AfterBlank
  {
    var s := text[i..];
    assert j - i >= 2 ==> IsBlank(s[j - i - 1]);
    assert text[i..j][j - i - 1] == s[j - i - 1];
  }

  lemma SlashAfterBlank(text: string, i: nat, m: Mode)
    requires 0 < i < |text| && text[i] == '/' && m == AfterBlank
    ensures i < Eol(text, i) && Step(text[i..], m) == Cut(Comment, Eol(text, i) - i)
  {
    EolShift(text, i, 0);
    assert text[i..][0] == '/';
  }
}
