/** What a token is, said of the text itself: the reference the lexer is proved to meet. */
module LexGrammar {
  import opened Chars
  import opened Lexer
  import opened LexerProofs

  // ---- lines

  /** The line of `s` that starts at `a` ends at `b`, its newline not included. */
  ghost predicate LineAt(s: string, a: nat, b: nat) {
    && a <= b <= |s| && (a == 0 || s[a - 1] == '\n')
    && (forall i :: a <= i < b ==> s[i] != '\n') && (b < |s| ==> s[b] == '\n')
  }

  /** The line says `c` and nothing else but blanks, then returns. */
  ghost predicate Marks(line: string, c: char) {
    line != "" && line[0] == c && exists k: nat :: BlanksThenReturns(line, k)
  }

  ghost predicate BlanksThenReturns(line: string, k: nat) {
    && 1 <= k <= |line| && (forall i :: 1 <= i < k ==> IsBlank(line[i]))
    && forall i :: k <= i < |line| ==> line[i] == '\r'
  }

  /** A line after the first one, holding only a backslash, ends at `b`. */
  ghost predicate StopLine(s: string, e: nat, b: nat) {
    exists a: nat :: a > e && LineAt(s, a, b) && Marks(s[a..b], '\\')
  }

  /** A block comment whose first line ends at `e` ends at `n`: with the first line
      after it that holds only a backslash, or with the text. */
  ghost predicate BlockTo(s: string, e: nat, n: nat) {
    && (StopLine(s, e, n) || n == |s|)
    && forall b: nat :: b < n ==> !StopLine(s, e, b)
  }

  /** The line up to `e`, less the returns at its end, is `n` long. */
  ghost predicate BodyTo(s: string, e: nat, n: nat) {
    1 <= n <= e <= |s| && s[n - 1] != '\r' && forall i :: n <= i < e ==> s[i] == '\r'
  }

  // ---- strings

  /** How many backslashes stand right before position `i` of a string that opened at 0. */
  function Slashes(s: string, i: nat): nat
    requires i <= |s|
  {
    if i > 1 && s[i - 1] == '\\' then 1 + Slashes(s, i - 1) else 0
  }

  /** A quote that no backslash escapes. */
  ghost predicate Closing(s: string, i: nat) {
    1 <= i < |s| && s[i] == '"' && Slashes(s, i) % 2 == 0
  }

  ghost predicate StringTo(s: string, n: nat) {
    2 <= n <= |s| && Closing(s, n - 1) && forall i :: 1 <= i < n - 1 ==> !Closing(s, i)
  }

  ghost predicate NeverClosed(s: string) {
    forall i :: 1 <= i < |s| ==> !Closing(s, i)
  }

  // ---- numbers

  /** The sign of an exponent: after an `e` that is not the first character, before a digit. */
  predicate SignAt(s: string, i: nat) {
    2 <= i && i + 1 < |s| && (s[i] == '+' || s[i] == '-') && (s[i - 1] == 'e' || s[i - 1] == 'E') && IsDigit(s[i + 1])
  }

  predicate InNumber(s: string, i: nat) {
    i < |s| && (IsAlnum(s[i]) || s[i] == '.' || s[i] == ':' || SignAt(s, i))
  }

  /** The longest run from 1 on. */
  ghost predicate RunTo(s: string, n: nat, more: (string, nat) -> bool) {
    1 <= n <= |s| && (forall i: nat :: 1 <= i < n ==> more(s, i)) && !more(s, n)
  }

  predicate BlankAt(s: string, i: nat) { i < |s| && (s[i] == ' ' || s[i] == '\t') }

  predicate SymbolAt(s: string, i: nat) {
    i < |s| && (IsAsciiLetter(s[i]) || '0' <= s[i] <= '9' || s[i] in {'_', '.', ':', '/'})
  }

  predicate WordAt(s: string, i: nat) {
    i < |s| && (IsAsciiLetter(s[i]) || '0' <= s[i] <= '9' || s[i] == '_')
  }

  /** In a name: a word character, or a dot before one. */
  predicate NameAt(s: string, i: nat) {
    WordAt(s, i) || (i < |s| && s[i] == '.' && WordAt(s, i + 1))
  }

  predicate NumberStarts(s: string) {
    s != "" && (IsDigit(s[0]) || (s[0] == '.' && 1 < |s| && IsDigit(s[1])))
  }

  predicate NameStarting(s: string) {
    s != "" && (IsAsciiLetter(s[0]) || (s[0] == '.' && 1 < |s| && IsAsciiLetter(s[1])))
  }

  predicate PairOp(s: string) {
    2 <= |s| && (s[..2] == "::" || s[..2] == "/:" || s[..2] == "\\:" || s[..2] == "':")
  }

  // ---- tokens

  /** At a line's start, a slash or a backslash: the line decides. */
  ghost predicate LineToken(s: string, kind: Kind, n: nat)
    requires s != ""
  {
    exists e: nat :: LineAt(s, 0, e) &&
      if Marks(s[..e], '/') then kind == Block && BlockTo(s, e, n)
      else if Marks(s[..e], '\\') then kind == Tail && n == |s|
      else kind == (if s[0] == '/' then Comment else Sys) && BodyTo(s, e, n)
  }

  /** Anywhere else, its first character decides. */
  ghost predicate PlainToken(s: string, kind: Kind, n: nat)
    requires s != ""
  {
    if s[0] == '\n' then kind == Nl && n == 1
    else if s[0] == '\r' then kind == Nl && n == (if 1 < |s| && s[1] == '\n' then 2 else 1)
    else if BlankAt(s, 0) then kind == Ws && RunTo(s, n, BlankAt)
    else if s[0] == '"' then kind == Str && StringTo(s, n)
    else if s[0] == '`' then kind == Sym && RunTo(s, n, SymbolAt)
    else if NumberStarts(s) then kind == Num && RunTo(s, n, InNumber)
    else if NameStarting(s) then kind == Name && RunTo(s, n, NameAt)
    else kind == Op && n == (if PairOp(s) then 2 else 1)
  }

  /** The first `n` characters of `s` are a token of this kind, `s` standing at a
      line's start, right after blanks, or neither. */
  ghost predicate Token(s: string, m: Mode, kind: Kind, n: nat)
    requires s != ""
  {
    if m == LineStart && (s[0] == '/' || s[0] == '\\') then LineToken(s, kind, n)
    else if m == AfterBlank && s[0] == '/' then kind == Comment && LineAt(s, 0, n)
    else PlainToken(s, kind, n)
  }

  /** A string starts here and never closes. */
  ghost predicate OpenString(s: string) {
    s != "" && s[0] == '"' && NeverClosed(s)
  }

  // ---- the lexer's cuts are those

  lemma {:induction false} StrEndIs(s: string, j: nat)
    requires 1 <= j && (j <= |s| ==> Slashes(s, j) % 2 == 0)
    ensures var k := StrEnd(s, j);
            if k <= |s| then j < k && Closing(s, k - 1) && forall i :: j <= i < k - 1 ==> !Closing(s, i)
            else forall i :: j <= i < |s| ==> !Closing(s, i)
    decreases |s| - j
  {
    if j < |s| && s[j] != '"' {
      if s[j] == '\\' {
        assert j + 1 <= |s| ==> Slashes(s, j + 1) == 1 + Slashes(s, j);
        StrEndIs(s, j + 2);
      } else {
        StrEndIs(s, j + 1);
      }
    }
  }

  lemma OneEnd(s: string, n: nat, k: nat)
    requires StringTo(s, n) && StringTo(s, k)
    ensures n == k
  {
    hide Closing;
  }

  lemma OneRun(s: string, n: nat, k: nat, more: (string, nat) -> bool)
    requires RunTo(s, n, more) && RunTo(s, k, more)
    ensures n == k
  {
  }

  lemma {:induction false} StringCut(s: string, n: nat)
    requires s != ""
    ensures StrEnd(s, 1) == n <= |s| <==> StringTo(s, n)
    ensures StrEnd(s, 1) > |s| <==> NeverClosed(s)
  {
    StrEndIs(s, 1);
    hide StrEnd, Slashes;
    var k := StrEnd(s, 1);
    if k <= |s| {
      assert StringTo(s, k);
      if StringTo(s, n) { OneEnd(s, n, k); }
    }
  }

  lemma {:induction false} NumEndIs(s: string, j: nat)
    requires 1 <= j <= |s| && (j < |s| ==> !SignAt(s, j) || NumGoesOn(s, j))
    ensures var k := NumEnd(s, j);
            (forall i: nat :: j <= i < k ==> InNumber(s, i)) && !InNumber(s, k)
    decreases |s| - j
  {
    if NumGoesOn(s, j) {
      if Exponent(s, j) {
        assert SignAt(s, j + 1) && InNumber(s, j) && InNumber(s, j + 1) && InNumber(s, j + 2);
        NoSignAfterDigit(s, j + 2);
        NumEndIs(s, j + 3);
      } else {
        assert InNumber(s, j);
        NumEndIs(s, j + 1);
      }
    }
  }

  /** No exponent's letter is a digit. */
  lemma NoSignAfterDigit(s: string, i: nat)
    requires i < |s| && IsDigit(s[i])
    ensures !SignAt(s, i + 1)
  {
  }

  lemma {:induction false} NumberCut(s: string, n: nat)
    requires s != ""
    ensures NumEnd(s, 1) == n <==> RunTo(s, n, InNumber)
  {
    NumEndIs(s, 1);
    hide NumEnd, InNumber;
    var k := NumEnd(s, 1);
    if RunTo(s, n, InNumber) && RunTo(s, k, InNumber) { OneRun(s, n, k, InNumber); }
  }

  lemma {:induction false} BlankCut(s: string, n: nat)
    requires s != ""
    ensures BlankEnd(s, 1) == n <==> RunTo(s, n, BlankAt)
  {
    forall i: nat ensures BlankAt(s, i) <==> i < |s| && IsBlank(s[i]) {}
    hide BlankAt, IsBlank;
    var k := BlankEnd(s, 1);
    assert forall i: nat :: 1 <= i < k ==> BlankAt(s, i);
    if RunTo(s, n, BlankAt) && RunTo(s, k, BlankAt) { OneRun(s, n, k, BlankAt); }
  }

  lemma {:induction false} SymbolCut(s: string, n: nat)
    requires s != ""
    ensures SymEnd(s, 1) == n <==> RunTo(s, n, SymbolAt)
  {
    forall i: nat ensures SymbolAt(s, i) <==> i < |s| && IsSymChar(s[i]) {}
    hide SymbolAt, IsSymChar;
    var k := SymEnd(s, 1);
    assert forall i: nat :: 1 <= i < k ==> SymbolAt(s, i);
    if RunTo(s, n, SymbolAt) && RunTo(s, k, SymbolAt) { OneRun(s, n, k, SymbolAt); }
  }

  lemma {:induction false} NameCutIs(s: string, n: nat)
    requires s != ""
    ensures NameEnd(s, 1) == n <==> RunTo(s, n, NameAt)
  {
    forall i: nat ensures NameAt(s, i) <==> NameGoesOn(s, i) {}
    hide NameAt, NameGoesOn;
    var k := NameEnd(s, 1);
    assert forall i: nat :: 1 <= i < k ==> NameAt(s, i);
    if RunTo(s, n, NameAt) && RunTo(s, k, NameAt) { OneRun(s, n, k, NameAt); }
  }

  lemma StartsAlike(s: string)
    requires s != ""
    ensures NumberStarts(s) <==> BeginsNum(s)
    ensures NameStarting(s) <==> BeginsName(s)
    ensures PairOp(s) <==> TwoCharOp(s)
    ensures BlankAt(s, 0) <==> IsBlank(s[0])
  {
  }

  lemma {:induction false} PlainIs(s: string, kind: Kind, n: nat)
    requires s != ""
    ensures PlainCut(s) == Cut(kind, n) <==> PlainToken(s, kind, n)
    ensures PlainCut(s).NoCut? <==> OpenString(s)
  {
    hide StrEnd, NumEnd, BlankEnd, SymEnd, NameEnd, RunTo, StringTo, NeverClosed, BeginsNum, BeginsName, TwoCharOp;
    hide NumberStarts, NameStarting, PairOp, IsBlank, BlankAt;
    StartsAlike(s);
    StringCut(s, n);
    StringCut(s, StrEnd(s, 1));
    NumberCut(s, n);
    BlankCut(s, n);
    SymbolCut(s, n);
    NameCutIs(s, n);
    QuoteStarts(s);
  }

  lemma QuoteStarts(s: string)
    requires s != ""
    ensures s[0] == '"' ==> s[0] != '\n' && s[0] != '\r' && !BlankAt(s, 0) && !IsBlank(s[0])
  {
  }

  // ---- lines

  lemma BareIs(line: string, c: char)
    requires !IsBlank(c) && c != '\r'
    ensures Bare(line) == [c] <==> Marks(line, c)
  {
    var body := RStrip(line, {'\r'});
    var bare := RStrip(body, {' ', '\t'});
    if bare == [c] {
      assert line[0] == body[0] == bare[0] == c;
      forall i | 1 <= i < |body| ensures IsBlank(line[i]) { assert body[i] in {' ', '\t'}; }
      assert BlanksThenReturns(line, |body|);
    }
    if Marks(line, c) {
      var k: nat :| BlanksThenReturns(line, k);
      RStripIs(line, {'\r'}, line[..k]);
      RStripIs(line[..k], {' ', '\t'}, [c]);
    }
  }

  lemma LineEndIs(s: string, a: nat, b: nat)
    requires a <= |s| && (a == 0 || s[a - 1] == '\n')
    ensures LineAt(s, a, b) <==> Eol(s, a) == b
  {
    if LineAt(s, a, b) { EolIs(s, a, b); }
  }

  /** A line ends before the newline at `j`, or is the one after it, or is further on. */
  lemma LineBeyond(s: string, j: nat, a: nat, b: nat)
    requires j < |s| && s[j] == '\n' && LineAt(s, a, b)
    ensures var k := Eol(s, j + 1); b <= j || (a == j + 1 && b == k) || k < b
  {
    if a == j + 1 {
      LineEndIs(s, a, b);
    } else if a > j {
      assert s[a - 1] == '\n';
    }
  }

  /** The first stop after the newline at `j` is the line after it, or later. */
  lemma StopBeyond(s: string, e: nat, j: nat, b: nat)
    requires e <= j < |s| && s[j] == '\n' && StopLine(s, e, b)
    ensures var k := Eol(s, j + 1); b <= j || (b == k && Bare(s[j + 1..k]) == "\\") || k < b <= |s|
  {
    var a: nat :| a > e && LineAt(s, a, b) && Marks(s[a..b], '\\');
    hide Bare, Marks, Eol;
    LineBeyond(s, j, a, b);
    BareIs(s[a..b], '\\');
  }

  lemma StopHere(s: string, e: nat, j: nat)
    requires e <= j < |s| && s[j] == '\n' && Bare(s[j + 1..Eol(s, j + 1)]) == "\\"
    ensures StopLine(s, e, Eol(s, j + 1))
  {
    hide Bare, Marks;
    var k := Eol(s, j + 1);
    LineEndIs(s, j + 1, k);
    BareIs(s[j + 1..k], '\\');
  }

  lemma {:induction false} BlockEndIs(s: string, e: nat, j: nat, n: nat)
    requires e <= j <= |s| && (j < |s| ==> s[j] == '\n')
    requires forall b: nat :: b <= j ==> !StopLine(s, e, b)
    ensures BlockEnd(s, j) == n <==> n <= |s| && BlockTo(s, e, n)
    decreases |s| - j
  {
    hide Bare, StopLine;
    if j < |s| {
      var k := Eol(s, j + 1);
      forall b: nat | b <= |s| && StopLine(s, e, b) ensures b >= k && (b == k ==> Bare(s[j + 1..k]) == "\\") {
        StopBeyond(s, e, j, b);
      }
      if Bare(s[j + 1..k]) == "\\" {
        StopHere(s, e, j);
      } else {
        BlockEndIs(s, e, k, n);
      }
    }
  }

  lemma StopIsLater(s: string, e: nat, b: nat)
    requires StopLine(s, e, b)
    ensures e < b <= |s|
  {
    var a: nat :| a > e && LineAt(s, a, b) && Marks(s[a..b], '\\');
  }

  lemma {:induction false} BlockCut(s: string, e: nat, n: nat)
    requires LineAt(s, 0, e)
    ensures BlockEnd(s, e) == n <==> n <= |s| && BlockTo(s, e, n)
  {
    hide StopLine, BlockEnd;
    forall b: nat | StopLine(s, e, b) ensures b > e { StopIsLater(s, e, b); }
    BlockEndIs(s, e, e, n);
  }

  lemma BodyIs(s: string, e: nat, n: nat)
    requires LineAt(s, 0, e) && e > 0 && s[0] != '\r'
    ensures |RStrip(s[..e], {'\r'})| == n <==> BodyTo(s, e, n)
  {
    var body := RStrip(s[..e], {'\r'});
    assert s[..e][0] != '\r';
    assert body != "" && body[|body| - 1] == s[|body| - 1];
    forall i | |body| <= i < e ensures s[i] == '\r' { assert s[..e][i] in {'\r'}; }
    if BodyTo(s, e, n) { RStripIs(s[..e], {'\r'}, s[..n]); }
  }

  lemma LineIs(s: string, kind: Kind, n: nat)
    requires s != "" && (s[0] == '/' || s[0] == '\\')
    ensures LineCut(s) == Cut(kind, n) <==> LineToken(s, kind, n)
  {
    hide Bare, Marks, BlockEnd, BlockTo, BodyTo, RStrip, LineAt;
    var e := Eol(s, 0);
    LineEndIs(s, 0, e);
    forall e': nat | LineAt(s, 0, e') ensures e' == e { LineEndIs(s, 0, e'); }
    BareIs(s[..e], '/');
    BareIs(s[..e], '\\');
    BlockCut(s, e, n);
    BlockInside(s, e);
    BodyIs(s, e, n);
  }

  lemma BlockInside(s: string, e: nat)
    requires LineAt(s, 0, e)
    ensures BlockEnd(s, e) <= |s|
    ensures forall n: nat :: BlockTo(s, e, n) ==> n <= |s|
  {
    forall n: nat | BlockTo(s, e, n) ensures n <= |s| {
      if StopLine(s, e, n) { StopIsLater(s, e, n); }
    }
  }

  // ---- every cut

  /** THE LEXER'S CUTS. A token is cut off the front exactly when it is one by the
      grammar above, and none is exactly when a string starts and never closes. */
  lemma {:induction false} CutIsToken(s: string, m: Mode, kind: Kind, n: nat)
    requires s != ""
    ensures Step(s, m) == Cut(kind, n) <==> Token(s, m, kind, n)
    ensures Step(s, m).NoCut? <==> OpenString(s)
  {
    hide PlainCut, LineCut, PlainToken, LineToken, NeverClosed, LineAt, Eol;
    PlainIs(s, kind, n);
    if s[0] == '/' || s[0] == '\\' { LineIs(s, kind, n); LineIs(s, LineCut(s).kind, LineCut(s).len); }
    LineEndIs(s, 0, n);
  }

  /** Where the text before it leaves a token standing: at a line's start, right after blanks, or neither. */
  ghost predicate StandsIn(ps: seq<Piece>, k: nat, m: Mode)
    requires k < |ps|
  {
    var before := Concat(ps[..k]);
    if before == "" || before[|before| - 1] == '\n' then m == LineStart
    else m == if ps[k - 1].kind == Ws then AfterBlank else Mid
  }

  /** Piece by piece, each is a token of the text from there on. */
  ghost predicate Tokens(ps: seq<Piece>) {
    forall k :: 0 <= k < |ps| ==> TokenOf(ps, k)
  }

  ghost predicate TokenOf(ps: seq<Piece>, k: nat)
    requires k < |ps|
  {
    ps[k].text != "" && Concat(ps[k..]) != "" &&
    exists m :: StandsIn(ps, k, m) && Token(Concat(ps[k..]), m, ps[k].kind, |ps[k].text|)
  }

  lemma {:induction false} ConcatTo(ps: seq<Piece>, k: nat)
    requires k < |ps| && ps[k].text != ""
    ensures Concat(ps[..k + 1]) == Concat(ps[..k]) + ps[k].text
    ensures Concat(ps[k..]) == ps[k].text + Concat(ps[k + 1..])
  {
    assert ps[..k + 1] == ps[..k] + [ps[k]] && ps[k..][1..] == ps[k + 1..];
    ConcatAppend(ps[..k], [ps[k]]);
    assert Concat([ps[k]]) == ps[k].text + Concat([ps[k]][1..]);
  }

  lemma ModeStands(ps: seq<Piece>, k: nat, m: Mode)
    requires k < |ps| && forall i :: 0 <= i < k ==> ps[i].text != ""
    ensures StandsIn(ps, k, m) <==> m == ModeAt(ps, LineStart, k)
  {
    if k > 0 {
      ConcatTo(ps, k - 1);
      var t := ps[k - 1].text;
      assert Concat(ps[..k])[|Concat(ps[..k])| - 1] == t[|t| - 1];
    }
  }

  lemma {:induction false} ValidFrom(ps: seq<Piece>, k: nat)
    requires k <= |ps| && forall i :: k <= i < |ps| ==> ps[i].text != ""
    requires forall i :: k <= i < |ps| ==>
               Step(Concat(ps[i..]), ModeAt(ps, LineStart, i)) == Cut(ps[i].kind, |ps[i].text|)
    ensures Valid(ps[k..], ModeAt(ps, LineStart, k))
    decreases |ps| - k
  {
    hide Step, Concat, ModeAt, NextMode;
    if k < |ps| {
      ValidFrom(ps, k + 1);
      NextModeAt(ps, k);
      assert ps[k..][0] == ps[k] && ps[k..][1..] == ps[k + 1..];
    }
  }

  lemma {:induction false} TokensAreValid(ps: seq<Piece>)
    ensures Valid(ps, LineStart) <==> Tokens(ps)
  {
    if Valid(ps, LineStart) {
      forall k | 0 <= k < |ps| ensures ps[k].text != "" { ValidAt(ps, LineStart, k); }
      forall k | 0 <= k < |ps| ensures TokenOf(ps, k) { ValidIsToken(ps, k); }
    }
    if Tokens(ps) {
      hide Token, Step, Valid, StandsIn, TokenOf;
      forall k | 0 <= k < |ps| ensures ps[k].text != "" { TextOfToken(ps, k); }
      forall k | 0 <= k < |ps|
        ensures Step(Concat(ps[k..]), ModeAt(ps, LineStart, k)) == Cut(ps[k].kind, |ps[k].text|)
      {
        TokenIsCut(ps, k);
      }
      ValidFrom(ps, 0);
      assert ps[0..] == ps;
    }
  }

  lemma ValidIsToken(ps: seq<Piece>, k: nat)
    requires Valid(ps, LineStart) && k < |ps| && forall i :: 0 <= i < |ps| ==> ps[i].text != ""
    ensures TokenOf(ps, k)
  {
    var m := ModeAt(ps, LineStart, k);
    ValidAt(ps, LineStart, k);
    ConcatTo(ps, k);
    assert ps[k..][0] == ps[k];
    assert Step(Concat(ps[k..]), m) == Cut(ps[k].kind, |ps[k].text|);
    hide Step, Token, ModeAt, StandsIn, Valid;
    ModeStands(ps, k, m);
    CutIsToken(Concat(ps[k..]), m, ps[k].kind, |ps[k].text|);
  }

  lemma TokenIsCut(ps: seq<Piece>, k: nat)
    requires k < |ps| && TokenOf(ps, k) && forall i :: 0 <= i < k ==> ps[i].text != ""
    ensures Step(Concat(ps[k..]), ModeAt(ps, LineStart, k)) == Cut(ps[k].kind, |ps[k].text|)
  {
    hide Step, Token, ModeAt, StandsIn;
    var m :| StandsIn(ps, k, m) && Token(Concat(ps[k..]), m, ps[k].kind, |ps[k].text|);
    ModeStands(ps, k, m);
    CutIsToken(Concat(ps[k..]), m, ps[k].kind, |ps[k].text|);
  }

  // ---- the whole text

  /** THE LEXER. A text lexes into these pieces if and only if they spell it and
      each is a token where it stands. */
  lemma {:induction false} LexedIff(text: string, ps: seq<Piece>)
    ensures LexOf(text).Lexed? && Unplaced(LexOf(text).toks) == ps <==> Concat(ps) == text && Tokens(ps)
  {
    hide Valid, Tokens, CutAll;
    CutIffValid(text, LineStart, ps);
    TokensAreValid(ps);
    if CutAll(text, LineStart).Cuts? { UnplacedPlace("", CutAll(text, LineStart).all); }
  }

  /** Every string token of a text starts with a quote and ends with the first
      later quote that no odd run of backslashes escapes. */
  lemma {:induction false} StringsAreWhole(text: string, k: nat)
    requires LexOf(text).Lexed? && k < |LexOf(text).toks| && LexOf(text).toks[k].kind == Str
    ensures var t := LexOf(text).toks[k].text;
            && 2 <= |t| && t[0] == '"' && t[|t| - 1] == '"' && Slashes(t, |t| - 1) % 2 == 0
            && forall i :: 1 <= i < |t| - 1 && t[i] == '"' ==> Slashes(t, i) % 2 == 1
  {
    var ps := Unplaced(LexOf(text).toks);
    LexedIff(text, ps);
    assert ps[k] == Piece(Str, LexOf(text).toks[k].text) && TokenOf(ps, k);
    ConcatTo(ps, k);
    var t, rest := ps[k].text, Concat(ps[k + 1..]);
    hide Tokens, LineToken;
    var m :| StandsIn(ps, k, m) && Token(t + rest, m, Str, |t|);
    StringToken(t, rest, m);
  }

  lemma StringToken(t: string, rest: string, m: Mode)
    requires t + rest != "" && Token(t + rest, m, Str, |t|)
    ensures 2 <= |t| && t[0] == '"' && t[|t| - 1] == '"' && Slashes(t, |t| - 1) % 2 == 0
    ensures forall i :: 1 <= i < |t| - 1 && t[i] == '"' ==> Slashes(t, i) % 2 == 1
  {
    hide Slashes, Token;
    var s := t + rest;
    TokenIsString(s, m, |t|);
    forall i | 0 <= i < |t| ensures s[i] == t[i] && Slashes(s, i) == Slashes(t, i) { SlashesFront(t, rest, i); }
    forall i | 1 <= i < |t| - 1 && t[i] == '"' ensures Slashes(t, i) % 2 == 1 { assert !Closing(s, i); }
  }

  lemma TokenIsString(s: string, m: Mode, n: nat)
    requires s != "" && Token(s, m, Str, n)
    ensures s[0] == '"' && StringTo(s, n)
  {
    hide RunTo, BodyTo, Marks, BlockTo, LineAt, StringTo;
  }

  lemma {:induction false} SlashesFront(t: string, rest: string, i: nat)
    requires i <= |t|
    ensures Slashes(t + rest, i) == Slashes(t, i)
  {
    if i > 1 { SlashesFront(t, rest, i - 1); }
  }

  // ---- and where it fails

  /** After tokens that spell the rest of the text, a string starts and never closes. */
  ghost predicate OpenAfter(text: string, ps: seq<Piece>, rest: string) {
    && text == Concat(ps) + rest && OpenString(rest)
    && forall k :: 0 <= k < |ps| ==> TokenOf(ps + [Piece(Str, rest)], k)
  }

  lemma CutAllStep(s: string, m: Mode, p: Piece)
    requires s != "" && Step(s, m) == Cut(p.kind, |p.text|) && p.text <= s
    ensures CutAll(s, m).Open? <==> CutAll(s[|p.text|..], NextMode(p)).Open?
    ensures CutAll(s, m).Open? ==> CutAll(s, m).before == [p] + CutAll(s[|p.text|..], NextMode(p)).before
  {
    hide Step, NextMode;
    assert s[..|p.text|] == p.text;
  }

  lemma {:induction false} OpensFrom(qs: seq<Piece>, k: nat)
    requires qs != [] && k < |qs| && OpenString(qs[|qs| - 1].text)
    requires forall i :: 0 <= i < |qs| - 1 ==> TokenOf(qs, i)
    ensures CutAll(Concat(qs[k..]), ModeAt(qs, LineStart, k)) == Open(qs[k..|qs| - 1])
    decreases |qs| - k
  {
    hide TokenOf, Step, NextMode, ModeAt, NeverClosed;
    var m := ModeAt(qs, LineStart, k);
    if k == |qs| - 1 {
      assert qs[k..] == [qs[k]] && Concat(qs[k..]) == qs[k].text + Concat([]);
      assert Concat(qs[k..]) == qs[k].text && qs[k..k] == [];
      CutIsToken(qs[k].text, m, Str, 0);
    } else {
      TextOfToken(qs, k);
      forall i | 0 <= i < k ensures qs[i].text != "" { TextOfToken(qs, i); }
      TokenIsCut(qs, k);
      ConcatTo(qs, k);
      OpensFrom(qs, k + 1);
      NextModeAt(qs, k);
      var s := Concat(qs[k..]);
      assert s[|qs[k].text|..] == Concat(qs[k + 1..]);
      CutAllStep(s, m, qs[k]);
      assert [qs[k]] + qs[k + 1..|qs| - 1] == qs[k..|qs| - 1];
    }
  }

  lemma NextModeAt(qs: seq<Piece>, k: nat)
    requires k < |qs|
    ensures ModeAt(qs, LineStart, k + 1) == NextMode(qs[k])
  {
    hide NextMode;
  }

  lemma TextOfToken(qs: seq<Piece>, k: nat)
    requires k < |qs| && TokenOf(qs, k)
    ensures qs[k].text != ""
  {
    hide Token, StandsIn;
  }

  /** Each piece is the next cut of what is left, and what is left at the end is no token. */
  ghost predicate CutsBefore(ps: seq<Piece>, rest: string, m: Mode)
    decreases |ps|
  {
    if ps == [] then rest != "" && Step(rest, m).NoCut?
    else
      && ps[0].text != "" && Step(Concat(ps) + rest, m) == Cut(ps[0].kind, |ps[0].text|)
      && CutsBefore(ps[1..], rest, NextMode(ps[0]))
  }

  lemma {:induction false} OpenCuts(s: string, m: Mode)
    requires CutAll(s, m).Open?
    ensures var ps := CutAll(s, m).before; Concat(ps) <= s && CutsBefore(ps, s[|Concat(ps)|..], m)
    decreases |s|
  {
    hide Step, NextMode;
    var c := Step(s, m);
    if c.NoCut? {
      assert s[0..] == s;
    } else {
      var p := Piece(c.kind, s[..c.len]);
      var after := s[c.len..];
      OpenCuts(after, NextMode(p));
      var ps := CutAll(after, NextMode(p)).before;
      OneMoreBefore(s, p, ps);
    }
  }

  lemma OneMoreBefore(s: string, p: Piece, ps: seq<Piece>)
    requires p.text <= s && Concat(ps) <= s[|p.text|..]
    ensures ([p] + ps)[1..] == ps && Concat([p] + ps) <= s
    ensures s[|Concat([p] + ps)|..] == s[|p.text|..][|Concat(ps)|..]
    ensures Concat([p] + ps) + s[|Concat([p] + ps)|..] == s
  {
    var b := Concat(ps);
    assert ([p] + ps)[1..] == ps;
    assert Concat([p] + ps) == p.text + b;
    hide Concat;
    assert s == p.text + s[|p.text|..] && s[|p.text|..] == b + s[|p.text|..][|b|..];
    assert s == p.text + b + s[|p.text|..][|b|..];
  }

  lemma {:induction false} CutsBeforeAt(ps: seq<Piece>, rest: string, m: Mode, k: nat)
    requires CutsBefore(ps, rest, m) && k <= |ps|
    ensures CutsBefore(ps[k..], rest, ModeAt(ps, m, k))
    decreases k
  {
    hide Step, NextMode;
    if k == 0 {
      assert ps[0..] == ps;
    } else {
      CutsBeforeAt(ps[1..], rest, NextMode(ps[0]), k - 1);
      assert ps[1..][k - 1..] == ps[k..];
      assert k - 1 > 0 ==> ps[1..][k - 2] == ps[k - 1];
    }
  }

  lemma FollowedByRest(ps: seq<Piece>, rest: string, k: nat)
    requires k <= |ps|
    ensures var qs := ps + [Piece(Str, rest)]; Concat(qs[k..]) == Concat(ps[k..]) + rest
  {
    var qs := ps + [Piece(Str, rest)];
    assert qs[k..] == ps[k..] + [Piece(Str, rest)];
    ConcatAppend(ps[k..], [Piece(Str, rest)]);
    assert [Piece(Str, rest)][1..] == [] && Concat([Piece(Str, rest)]) == rest + Concat([]);
  }

  lemma CutBeforeIsToken(ps: seq<Piece>, rest: string, k: nat)
    requires CutsBefore(ps, rest, LineStart) && k < |ps| && forall i :: 0 <= i < |ps| ==> ps[i].text != ""
    ensures TokenOf(ps + [Piece(Str, rest)], k)
  {
    var qs := ps + [Piece(Str, rest)];
    CutsBeforeAt(ps, rest, LineStart, k);
    FollowedByRest(ps, rest, k);
    assert ps[k..] != [] && ps[k..][0] == ps[k] == qs[k];
    var m := ModeAt(qs, LineStart, k);
    assert m == ModeAt(ps, LineStart, k) && Step(Concat(qs[k..]), m) == Cut(qs[k].kind, |qs[k].text|);
    hide Step, Token, ModeAt, StandsIn, CutsBefore;
    ConcatTo(qs, k);
    ModeStands(qs, k, m);
    CutIsToken(Concat(qs[k..]), m, qs[k].kind, |qs[k].text|);
  }

  lemma CutBeforeText(ps: seq<Piece>, rest: string, k: nat)
    requires CutsBefore(ps, rest, LineStart) && k < |ps|
    ensures ps[k].text != ""
  {
    CutsBeforeAt(ps, rest, LineStart, k);
    hide Step, NextMode;
  }

  lemma OpenRest(ps: seq<Piece>, rest: string)
    requires CutsBefore(ps, rest, LineStart)
    ensures OpenString(rest)
  {
    CutsBeforeAt(ps, rest, LineStart, |ps|);
    hide Step, ModeAt, NeverClosed;
    CutIsToken(rest, ModeAt(ps, LineStart, |ps|), Str, 0);
  }

  lemma UnclosedOpens(text: string)
    requires CutAll(text, LineStart).Open?
    ensures var ps := CutAll(text, LineStart).before;
            |Concat(ps)| <= |text| && OpenAfter(text, ps, text[|Concat(ps)|..])
  {
    hide CutAll, CutsBefore, TokenOf, OpenString;
    OpenCuts(text, LineStart);
    var ps := CutAll(text, LineStart).before;
    var rest := text[|Concat(ps)|..];
    assert text == Concat(ps) + rest;
    OpenRest(ps, rest);
    forall k | 0 <= k < |ps| ensures ps[k].text != "" { CutBeforeText(ps, rest, k); }
    forall k | 0 <= k < |ps| ensures TokenOf(ps + [Piece(Str, rest)], k) { CutBeforeIsToken(ps, rest, k); }
  }

  lemma OpensUnclosed(text: string, ps: seq<Piece>, rest: string)
    requires OpenAfter(text, ps, rest)
    ensures CutAll(text, LineStart) == Open(ps)
  {
    hide CutAll, TokenOf, OpenString;
    var qs := ps + [Piece(Str, rest)];
    OpensFrom(qs, 0);
    FollowedByRest(ps, rest, 0);
    assert ps[0..] == ps && qs[0..|qs| - 1] == ps && qs[0..] == qs;
  }

  /** Lexing fails if and only if, after tokens, a string starts and never closes;
      that string's place is what is reported. */
  lemma UnclosedIff(text: string)
    ensures LexOf(text).Unclosed? <==> exists ps, rest :: OpenAfter(text, ps, rest)
    ensures forall ps, rest :: OpenAfter(text, ps, rest) ==>
              LexOf(text) == Unclosed(LineAfter(Concat(ps)), ColAfter(Concat(ps)))
  {
    hide CutAll, OpenAfter, LineAfter, ColAfter;
    if CutAll(text, LineStart).Open? { UnclosedOpens(text); }
    forall ps, rest | OpenAfter(text, ps, rest) ensures CutAll(text, LineStart) == Open(ps) {
      OpensUnclosed(text, ps, rest);
    }
  }
}
