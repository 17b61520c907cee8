/** q source as tokens: the lexer as the source's loop, and the function it computes. */
module Lexer {
  import opened Chars

  datatype Kind = Ws | Nl | Comment | Block | Tail | Sys | Str | Sym | Num | Name | Op

  datatype Piece = Piece(kind: Kind, text: string)

  datatype Tok = Tok(kind: Kind, text: string, line: nat, col: nat)

  datatype LexResult = Lexed(toks: seq<Tok>) | Unclosed(line: nat, col: nat)

  /** What the lexer remembers of the text before a position: it stands at a
      line's start, just after blanks, or neither. */
  datatype Mode = LineStart | AfterBlank | Mid

  datatype Cut = Cut(kind: Kind, len: nat) | NoCut

  // ---- one token off the front of the remaining text

  function BlankEnd(s: string, j: nat): (k: nat)
    requires j <= |s|
    ensures j <= k <= |s|
    ensures forall i :: j <= i < k ==> IsBlank(s[i])
    ensures k < |s| ==> !IsBlank(s[k])
    decreases |s| - j
  {
    if j < |s| && IsBlank(s[j]) then BlankEnd(s, j + 1) else j
  }

  predicate IsSymChar(c: char) { IsNameChar(c) || c == '.' || c == ':' || c == '/' }

  function SymEnd(s: string, j: nat): (k: nat)
    requires j <= |s|
    ensures j <= k <= |s|
    ensures forall i :: j <= i < k ==> IsSymChar(s[i])
    ensures k < |s| ==> !IsSymChar(s[k])
    decreases |s| - j
  {
    if j < |s| && IsSymChar(s[j]) then SymEnd(s, j + 1) else j
  }

  /** A name goes on at `j`: a name character, or a dot before one. */
  predicate NameGoesOn(s: string, j: nat) {
    j < |s| && (IsNameChar(s[j]) || (s[j] == '.' && j + 1 < |s| && IsNameChar(s[j + 1])))
  }

  function NameEnd(s: string, j: nat): (k: nat)
    requires j <= |s|
    ensures j <= k <= |s|
    ensures forall i :: j <= i < k ==> NameGoesOn(s, i)
    ensures !NameGoesOn(s, k)
    decreases |s| - j
  {
    if NameGoesOn(s, j) then NameEnd(s, j + 1) else j
  }

  predicate NumGoesOn(s: string, j: nat) {
    j < |s| && (IsAlnum(s[j]) || s[j] == '.' || s[j] == ':')
  }

  /** A signed exponent starts at `j`: `e+5`, taken whole. */
  predicate Exponent(s: string, j: nat) {
    j + 2 < |s| && (s[j] == 'e' || s[j] == 'E') && (s[j + 1] == '+' || s[j + 1] == '-') && IsDigit(s[j + 2])
  }

  function NumEnd(s: string, j: nat): (k: nat)
    requires j <= |s|
    ensures j <= k <= |s| && !NumGoesOn(s, k)
    decreases |s| - j
  {
    if NumGoesOn(s, j) then NumEnd(s, j + if Exponent(s, j) then 3 else 1) else j
  }

  /** One past a string's closing quote, or past the end when there is none. */
  function StrEnd(s: string, j: nat): (k: nat)
    ensures k <= |s| ==> j < k
    decreases |s| - j
  {
    if j >= |s| then |s| + 1
    else if s[j] == '"' then j + 1
    else StrEnd(s, j + if s[j] == '\\' then 2 else 1)
  }

  function Bare(line: string): (r: string)
    ensures r <= line
  {
    RStrip(RStrip(line, {'\r'}), {' ', '\t'})
  }

  /** Where a block comment ends whose line before `j` is in it: after a line
      holding only a backslash, else at the end. */
  function BlockEnd(s: string, j: nat): (k: nat)
    requires j <= |s|
    ensures j <= k <= |s|
    ensures k < |s| ==> s[k] == '\n' || k == j
    decreases |s| - j
  {
    if j == |s| then j
    else
      var k := Eol(s, j + 1);
      if Bare(s[j + 1..k]) == "\\" then k else BlockEnd(s, k)
  }

  predicate TwoCharOp(s: string) {
    2 <= |s| && s[1] == ':' && (s[0] == ':' || s[0] == '/' || s[0] == '\\' || s[0] == '\'')
  }

  predicate BeginsNum(s: string) {
    s != "" && (IsDigit(s[0]) || (2 <= |s| && s[0] == '.' && IsDigit(s[1])))
  }

  predicate BeginsName(s: string) {
    s != "" && (IsNameStart(s[0]) || (2 <= |s| && s[0] == '.' && IsNameStart(s[1])))
  }

  function PlainCut(s: string): (c: Cut)
    requires s != ""
    ensures c.Cut? ==> 1 <= c.len <= |s|
  {
    if s[0] == '\n' then Cut(Nl, 1)
    else if s[0] == '\r' then Cut(Nl, if 2 <= |s| && s[1] == '\n' then 2 else 1)
    else if IsBlank(s[0]) then Cut(Ws, BlankEnd(s, 1))
    else if s[0] == '"' then
      var k := StrEnd(s, 1);
      if k > |s| then NoCut else Cut(Str, k)
    else if s[0] == '`' then Cut(Sym, SymEnd(s, 1))
    else if BeginsNum(s) then Cut(Num, NumEnd(s, 1))
    else if BeginsName(s) then Cut(Name, NameEnd(s, 1))
    else if TwoCharOp(s) then Cut(Op, 2)
    else Cut(Op, 1)
  }

  /** A line that starts with a slash or a backslash. */
  function LineCut(s: string): (c: Cut)
    requires s != "" && (s[0] == '/' || s[0] == '\\')
    ensures c.Cut? && 1 <= c.len <= |s|
  {
    var e := Eol(s, 0);
    var body := RStrip(s[..e], {'\r'});
    var bare := Bare(s[..e]);
    assert body != "" by { assert s[..e][0] == s[0]; }
    if bare == "/" then Cut(Block, BlockEnd(s, e))
    else if bare == "\\" then Cut(Tail, |s|)
    else Cut(if s[0] == '/' then Comment else Sys, |body|)
  }

  function Step(s: string, m: Mode): (c: Cut)
    requires s != ""
    ensures c.Cut? ==> 1 <= c.len <= |s|
  {
    if m == LineStart && (s[0] == '/' || s[0] == '\\') then LineCut(s)
    else if m == AfterBlank && s[0] == '/' then Cut(Comment, Eol(s, 0))
    else PlainCut(s)
  }

  function NextMode(p: Piece): Mode {
    if p.text != "" && p.text[|p.text| - 1] == '\n' then LineStart
    else if p.kind == Ws then AfterBlank
    else Mid
  }

  // ---- the whole text

  datatype Pieces = Cuts(all: seq<Piece>) | Open(before: seq<Piece>)

  /** The text cut into pieces; `Open` holds what comes before a string that is never closed. */
  function CutAll(s: string, m: Mode): Pieces
    decreases |s|
  {
    if s == "" then Cuts([])
    else
      var c := Step(s, m);
      if c.NoCut? then Open([])
      else
        var p := Piece(c.kind, s[..c.len]);
        match CutAll(s[c.len..], NextMode(p))
        case Cuts(rest) => Cuts([p] + rest)
        case Open(rest) => Open([p] + rest)
  }

  function Concat(ps: seq<Piece>): string {
    if ps == [] then "" else ps[0].text + Concat(ps[1..])
  }

  /** The line a text ends on, and the column, when it starts at column 0 of line 1. */
  function LineAfter(s: string): nat { 1 + CountOf(s, '\n') }

  function ColAfter(s: string): nat { |s| - (LastOf(s, '\n') + 1) }

  /** Tokens with their positions, for pieces that follow the text `before`. */
  function Place(before: string, ps: seq<Piece>): (ts: seq<Tok>)
    ensures |ts| == |ps|
    decreases |ps|
  {
    if ps == [] then []
    else [Tok(ps[0].kind, ps[0].text, LineAfter(before), ColAfter(before))] + Place(before + ps[0].text, ps[1..])
  }

  function LexOf(text: string): LexResult {
    match CutAll(text, LineStart)
    case Cuts(ps) => Lexed(Place("", ps))
    case Open(ps) => Unclosed(LineAfter(Concat(ps)), ColAfter(Concat(ps)))
  }
}
