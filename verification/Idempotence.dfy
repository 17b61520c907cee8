/** Converting a 4.0 output to 4.0 again is accepted and changes nothing. */
module Idempotence {
  import opened Options
  import opened Chars
  import opened Lexer
  import opened LexerProofs
  import opened Scanner
  import opened Converter
  import opened Layout
  import opened Flatten
  import opened FlattenLexing
  import opened Meaning

  /** A `\d` line a 4.0 file may hold: a bare one, or one to an absolute context that is not nested. */
  predicate FlatLine(t: Tok) {
    t.kind == Sys && ContextOf(t.text).Some? ==>
      !Nested(ContextOf(t.text).value) && (ContextOf(t.text).value != "" ==> ContextOf(t.text).value[0] == '.')
  }

  /** The statement needs nothing of the 4.0 conversion, and gives it nothing to refuse. */
  predicate FlatStatement(toks: seq<Tok>, s: Stmt)
    requires s.lo < s.hi <= |toks|
  {
    && !Nested(s.ctx) && FlatLine(toks[s.lo])
    && (IsCodeStatement(toks, s) ==> !HidesSwitches(toks, s.lo, s.hi))
  }

  /** A file with no nested context and no switch hidden in a string. */
  predicate IsFlat(toks: seq<Tok>) {
    forall j :: 0 <= j < |StatementsOf(toks)| ==> FlatStatement(toks, StatementsOf(toks)[j])
  }

  lemma FlatStatementKept(known: Known, allowComputed: bool, toks: seq<Tok>, s: Stmt, cv: Conv)
    requires s.lo < s.hi <= |toks| && FlatStatement(toks, s)
    ensures ConvertStatement(known, allowComputed, Flat, toks, s, cv) == cv
  {
    hide ContextOf, CountOf, HidesSwitches;
  }

  lemma {:induction false} FlatFromKept(known: Known, allowComputed: bool, toks: seq<Tok>, ss: seq<Stmt>, i: nat,
                                        cv: Conv)
    requires i <= |ss| && forall j :: 0 <= j < |ss| ==> ss[j].lo < ss[j].hi <= |toks| && FlatStatement(toks, ss[j])
    ensures ConvertFrom(known, allowComputed, Flat, toks, ss, i, cv) == cv
    decreases |ss| - i
  {
    hide FlatStatement, ConvertStatement;
    if i < |ss| {
      FlatStatementKept(known, allowComputed, toks, ss[i], cv);
      FlatFromKept(known, allowComputed, toks, ss, i + 1, cv);
    }
  }

  /** A flat file converts to itself, whatever the other inputs define. */
  lemma {:induction false} FlatFileKept(known: Known, allowComputed: bool, text: string)
    requires LexOf(text).Lexed? && IsFlat(LexOf(text).toks)
    ensures Convert(known, allowComputed, Flat, text) == Written(text)
  {
    hide LexOf, Retexted, StatementsOf, FlatStatement, Valid;
    var toks := LexOf(text).toks;
    LexIsLossless(text);
    JoinIsConcat(toks, Texts(toks));
    assert Retexted(toks, Texts(toks)) == Unplaced(toks);
    FlatFromKept(known, allowComputed, toks, StatementsOf(toks), 0, Conv(Texts(toks), false));
  }

  // ---- and only a flat file does

  lemma {:induction false} JoinAppend(a: seq<string>, b: seq<string>)
    ensures Join(a + b) == Join(a) + Join(b)
  {
    if a == [] {
      assert a + b == b;
    } else {
      assert (a + b)[1..] == a[1..] + b;
      JoinAppend(a[1..], b);
    }
  }

  /** A switch to a nested context is longer than one to the root. */
  lemma SwitchIsLong(t: string)
    requires ContextOf(t).Some? && Nested(ContextOf(t).value)
    ensures |t| >= 5
  {
    var rest := t[WordEnd(t)..];
    var ctx := Strip(rest);
    assert t[..WordEnd(t)] == "\\d" && |t| == 2 + |rest|;
    DotsCounted(ctx);
    assert !IsSpace('.');
    assert |rest| > 0 ==> IsSpace(rest[0]);
    assert |rest| >= LeadingSpaces(rest) + |ctx|;
    assert LeadingSpaces(rest) >= 1;
  }

  lemma {:induction false} DotsCounted(s: string)
    ensures CountOf(s, '.') <= |s|
  {
    if s != "" { DotsCounted(s[1..]); }
  }

  /** Until a line switches to a nested context, none is in force. */
  lemma {:induction false} FlatUntil(toks: seq<Tok>, ss: seq<Stmt>, j: nat)
    requires ss == StatementsOf(toks) && Ordered(toks, ss) && j < |ss|
    requires forall i :: 0 <= i < j ==> !SwitchesNested(toks[ss[i].lo])
    ensures !Nested(ss[j].ctx)
    decreases j
  {
    RootLine();
    hide StatementsOf, ContextOf, CountOf;
    StatementContext(toks, j);
    if j > 0 { FlatUntil(toks, ss, j - 1); }
  }

  /** Until then every token is written as it was. */
  lemma KeptUntil(known: Known, toks: seq<Tok>, ss: seq<Stmt>, out: seq<string>, j: nat, k: nat)
    requires ss == StatementsOf(toks) && Ordered(toks, ss) && |out| == |toks| && k < |toks|
    requires FlatAt(known, toks, ss, out, k)
    requires j <= |ss| && (forall i :: 0 <= i < j ==> !SwitchesNested(toks[ss[i].lo])) && (j < |ss| ==> k < ss[j].lo)
    ensures out[k] == toks[k].text
  {
    if i: nat :| i < |ss| && ss[i].lo <= k < ss[i].hi {
      assert i < j;
      FlatUntil(toks, ss, i);
      hide StatementsOf, ContextOf, Nested, Parse, QualifiedFrom, ROOT_LINE;
      assert out[k] == FlatText(known, toks, ss[i], k);
    }
  }

  /** The line that switches, and the rest of its statement. */
  lemma SwitchWritten(known: Known, toks: seq<Tok>, ss: seq<Stmt>, out: seq<string>, j: nat, k: nat)
    requires Ordered(toks, ss) && |out| == |toks| && j < |ss| && SwitchesNested(toks[ss[j].lo])
    requires ss[j].lo <= k < ss[j].hi
    requires FlatAt(known, toks, ss, out, k)
    ensures out[k] == if k == ss[j].lo then ROOT_LINE else toks[k].text
  {
    hide ContextOf, Nested, Parse, QualifiedFrom, ROOT_LINE;
    assert out[k] == FlatText(known, toks, ss[j], k);
  }

  /** Texts whose first lines are of different length differ. */
  lemma FirstLinesDiffer(a: string, b: string, m: string, x: string, y: string)
    requires '\n' !in a && '\n' !in b && |a| < |b| && ('\n' in m || (x == "" && y == ""))
    ensures a + (m + x) != b + (m + y)
  {
    if '\n' in m {
      var n := Eol(m, 0);
      var s, t := a + (m + x), b + (m + y);
      NewlineAt(m);
      forall i | 0 <= i < |a| + n ensures s[i] != '\n' { assert s[i] == if i < |a| then a[i] else m[i - |a|]; }
      forall i | 0 <= i < |b| + n ensures t[i] != '\n' { assert t[i] == if i < |b| then b[i] else m[i - |b|]; }
      assert s[|a| + n] == m[n] == '\n';
      assert t[|a| + n] != '\n';
    } else {
      assert |a + (m + x)| < |b + (m + y)|;
    }
  }

  lemma NewlineAt(m: string)
    requires '\n' in m
    ensures Eol(m, 0) < |m|
  {
  }

  /** What stands at a line's start comes after a newline. */
  lemma EndsBefore(ps: seq<Piece>, h: nat)
    requires 0 < h <= |ps| && ps[h - 1].text != "" && ColAfter(Concat(ps[..h])) == 0
    ensures ps[h - 1].text[|ps[h - 1].text| - 1] == '\n'
  {
    hide ColAfter, Concat;
    AtStart(Concat(ps[..h]));
    ConcatLast(ps, h);
  }

  lemma NewlineBefore(text: string, h: nat)
    requires LexOf(text).Lexed? && 0 < h < |LexOf(text).toks| && LexOf(text).toks[h].col == 0
    ensures var t := LexOf(text).toks[h - 1].text; t != "" && t[|t| - 1] == '\n'
  {
    var ps := Unplaced(LexOf(text).toks);
    assert |ps| == |LexOf(text).toks| && ps[h - 1].text == LexOf(text).toks[h - 1].text;
    hide *;
    LexIsLossless(text);
    EndsBefore(ps, h);
  }

  lemma {:induction false} JoinHas(ts: seq<string>, k: nat, c: char)
    requires k < |ts| && c in ts[k]
    ensures c in Join(ts)
  {
    if k > 0 {
      assert ts[1..][k - 1] == ts[k];
      JoinHas(ts[1..], k - 1, c);
    }
  }

  /** A system line holds no newline, and the next statement starts after one. */
  lemma LineThenNewline(text: string, k: nat, h: nat)
    requires LexOf(text).Lexed? && k < h <= |LexOf(text).toks| && LexOf(text).toks[k].kind == Sys
    requires h < |LexOf(text).toks| ==> LexOf(text).toks[h].col == 0
    ensures '\n' !in LexOf(text).toks[k].text
    ensures h < |LexOf(text).toks| ==> k + 1 < h && '\n' in LexOf(text).toks[h - 1].text
  {
    var toks := LexOf(text).toks;
    LexIsLossless(text);
    assert Unplaced(toks)[k] == Piece(toks[k].kind, toks[k].text);
    SysPiece(Unplaced(toks), k);
    hide LexOf, Valid, Unplaced;
    if h < |toks| {
      NewlineBefore(text, h);
      var t := toks[h - 1].text;
      assert t[|t| - 1] in t;
    }
  }

  /** One text for another of another length, on a line of its own. */
  lemma LineChanged(front: seq<string>, a: string, b: string, mid: seq<string>, x: seq<string>, y: seq<string>)
    requires '\n' !in a && '\n' !in b && |a| < |b|
    requires (mid != [] && '\n' in mid[|mid| - 1]) || (x == [] && y == [])
    ensures Join(front + ([a] + (mid + x))) != Join(front + ([b] + (mid + y)))
  {
    Pieces(front, a, mid, x);
    Pieces(front, b, mid, y);
    NothingJoins();
    if mid != [] && '\n' in mid[|mid| - 1] { JoinHas(mid, |mid| - 1, '\n'); }
    hide Join;
    FirstLinesDiffer(a, b, Join(mid), Join(x), Join(y));
    SameFront1(Join(front), a + (Join(mid) + Join(x)), b + (Join(mid) + Join(y)));
  }

  /** The output and the tokens' own texts, around token `k`. */
  lemma Around(ts: seq<string>, out: seq<string>, k: nat, h: nat)
    requires |out| == |ts| && k < h <= |ts| && forall i :: 0 <= i < h && i != k ==> out[i] == ts[i]
    ensures out == ts[..k] + ([out[k]] + (ts[k + 1..h] + out[h..]))
    ensures ts == ts[..k] + ([ts[k]] + (ts[k + 1..h] + ts[h..]))
  {
    assert out[..k] == ts[..k] && out[k + 1..h] == ts[k + 1..h];
    assert out == out[..k] + ([out[k]] + (out[k + 1..h] + out[h..]));
  }

  lemma RootIsShort()
    ensures |ROOT_LINE| == 4 && '\n' !in ROOT_LINE
  {
  }

  /** Where the first nested switch is rewritten, the text changes. */
  lemma SwitchChanges(text: string, out: seq<string>, k: nat, h: nat)
    requires LexOf(text).Lexed? && |out| == |LexOf(text).toks| && k < h <= |out|
    requires var toks := LexOf(text).toks;
             && toks[k].kind == Sys && |toks[k].text| >= 5 && out[k] == ROOT_LINE
             && (forall i :: 0 <= i < h && i != k ==> out[i] == toks[i].text)
             && (h < |toks| ==> toks[h].col == 0)
    ensures Join(out) != Join(Texts(LexOf(text).toks))
  {
    hide *;
    var toks := LexOf(text).toks;
    var ts := Texts(toks);
    LineThenNewline(text, k, h);
    RootIsShort();
    Around(ts, out, k, h);
    var mid := ts[k + 1..h];
    assert h < |toks| ==> mid[|mid| - 1] == toks[h - 1].text;
    LineChanged(ts[..k], ROOT_LINE, toks[k].text, mid, out[h..], ts[h..]);
  }

  lemma NothingJoins()
    ensures Join([]) == ""
  {
  }

  lemma SameFront1(a: string, b: string, c: string)
    requires b != c
    ensures a + b != a + c
  {
    assert (a + b)[|a|..] == b;
    assert (a + c)[|a|..] == c;
  }

  lemma Pieces(front: seq<string>, t: string, mid: seq<string>, x: seq<string>)
    ensures Join(front + ([t] + (mid + x))) == Join(front) + (t + (Join(mid) + Join(x)))
  {
    JoinAppend(front, [t] + (mid + x));
    JoinAppend([t], mid + x);
    JoinAppend(mid, x);
    assert Join([t]) == t + Join([]);
    NothingJoins();
  }

  /** The first statement that switches to a nested context, if one does. */
  lemma {:induction false} FirstSwitch(toks: seq<Tok>, ss: seq<Stmt>, i: nat) returns (j: nat)
    requires Ordered(toks, ss) && i <= |ss| && forall a :: 0 <= a < i ==> !SwitchesNested(toks[ss[a].lo])
    ensures j <= |ss| && (forall a :: 0 <= a < j ==> !SwitchesNested(toks[ss[a].lo]))
    ensures (j < |ss| ==> SwitchesNested(toks[ss[j].lo]))
    decreases |ss| - i
  {
    hide SwitchesNested;
    if i < |ss| && !SwitchesNested(toks[ss[i].lo]) {
      j := FirstSwitch(toks, ss, i + 1);
    } else {
      j := i;
    }
  }

  /** What is refused nowhere, and switches nowhere, is flat. */
  lemma NoSwitchIsFlat(known: Known, allowComputed: bool, toks: seq<Tok>, ss: seq<Stmt>)
    requires ss == StatementsOf(toks) && Ordered(toks, ss)
    requires forall j :: 0 <= j < |ss| ==> !SwitchesNested(toks[ss[j].lo])
    requires forall j :: 0 <= j < |ss| ==> !FlatRefused(known, allowComputed, toks, ss[j])
    ensures IsFlat(toks)
  {
    hide StatementsOf, ContextOf, Nested, HidesSwitches, Parse, LoadTimeHazard, RefusedFrom;
    forall j | 0 <= j < |ss| ensures FlatStatement(toks, ss[j]) {
      FlatUntil(toks, ss, j);
      assert !FlatRefused(known, allowComputed, toks, ss[j]);
    }
  }

  lemma NextStarts(toks: seq<Tok>, ss: seq<Stmt>, j: nat)
    requires ss == StatementsOf(toks) && j < |ss|
    ensures ss[j].hi < |toks| ==> toks[ss[j].hi].col == 0
    ensures Ordered(toks, ss)
  {
    hide NextContext;
    var starts := StartsFrom(toks, 0);
    assert ss[j].hi == if j + 1 < |starts| then starts[j + 1] else |toks|;
  }

  lemma OwnText(text: string)
    requires LexOf(text).Lexed?
    ensures Join(Texts(LexOf(text).toks)) == text
  {
    hide LexOf, Valid;
    var toks := LexOf(text).toks;
    LexIsLossless(text);
    JoinIsConcat(toks, Texts(toks));
    assert Retexted(toks, Texts(toks)) == Unplaced(toks);
  }

  lemma {:induction false} SwitchNotKept(known: Known, allowComputed: bool, text: string, j: nat)
    requires LexOf(text).Lexed? && j < |StatementsOf(LexOf(text).toks)|
    requires var toks := LexOf(text).toks; var ss := StatementsOf(toks);
             SwitchesNested(toks[ss[j].lo]) && forall a :: 0 <= a < j ==> !SwitchesNested(toks[ss[a].lo])
    ensures Join(ConvertToks(known, allowComputed, Flat, LexOf(text).toks).out) != text
  {
    var toks := LexOf(text).toks;
    FlatOutput(known, allowComputed, toks);
    var ss, out := StatementsOf(toks), ConvertToks(known, allowComputed, Flat, toks).out;
    assert toks[ss[j].lo].kind == Sys && |toks[ss[j].lo].text| >= 5 by { SwitchIsLong(toks[ss[j].lo].text); }
    hide *;
    NextStarts(toks, ss, j);
    OwnText(text);
    var k, h := ss[j].lo, ss[j].hi;
    forall i | 0 <= i < h ensures out[i] == if i == k then ROOT_LINE else toks[i].text {
      if i < k {
        KeptUntil(known, toks, ss, out, j, i);
      } else {
        SwitchWritten(known, toks, ss, out, j, i);
      }
    }
    SwitchChanges(text, out, k, h);
  }

  /** The 4.0 conversion accepts a file and leaves it as it is if and only if it is flat. */
  lemma {:induction false} KeptIffFlat(known: Known, allowComputed: bool, text: string)
    requires LexOf(text).Lexed?
    ensures Convert(known, allowComputed, Flat, text) == Written(text) <==> IsFlat(LexOf(text).toks)
  {
    var toks := LexOf(text).toks;
    if IsFlat(toks) {
      FlatFileKept(known, allowComputed, text);
    } else {
      FlatOutput(known, allowComputed, toks);
      var ss := StatementsOf(toks);
      assert Ordered(toks, ss);
      hide LexOf, StatementsOf, ConvertToks, FlatAt, IsFlat, SwitchesNested, FlatRefused, Join;
      var j := FirstSwitch(toks, ss, 0);
      if j < |ss| {
        SwitchNotKept(known, allowComputed, text, j);
      } else if forall a :: 0 <= a < |ss| ==> !FlatRefused(known, allowComputed, toks, ss[a]) {
        NoSwitchIsFlat(known, allowComputed, toks, ss);
      }
    }
  }

  lemma FlattenedLine(known: Known, allowComputed: bool, toks: seq<Tok>, toks': seq<Tok>, j: nat)
    requires Flattened(known, toks, toks') && j < |StatementsOf(toks)|
    requires !FlatRefused(known, allowComputed, toks, StatementsOf(toks)[j])
    ensures FlatLine(toks'[StatementsOf(toks)[j].lo])
  {
    FlatSystemLine(known, toks, toks', j);
    RootLine();
    hide ContextOf, CountOf, ROOT_LINE, StatementsOf, HidesSwitches, Parse, Flattened;
  }

  lemma FlattenedStrings(known: Known, toks: seq<Tok>, toks': seq<Tok>, j: nat)
    requires Flattened(known, toks, toks') && j < |StatementsOf(toks)| && IsCodeStatement(toks, StatementsOf(toks)[j])
    requires var s := StatementsOf(toks)[j]; !HidesSwitches(toks, s.lo, s.hi)
    ensures var s := StatementsOf(toks)[j]; s.hi <= |toks'| && !HidesSwitches(toks', s.lo, s.hi)
  {
    var s := StatementsOf(toks)[j];
    assert |toks| == |toks'|;
    hide StatementsOf, HidesSwitch, QualifiedIn, FlatTokens;
    forall k | s.lo <= k < s.hi && toks'[k].kind == Str ensures toks[k].kind == Str && toks'[k].text == toks[k].text {
      FlatChangedToken(known, toks, toks', j, k);
      if QualifiedIn(known, toks, s, k) { QualifiedName(known, toks, s, k); }
    }
  }

  lemma FlattenedIsFlat(known: Known, allowComputed: bool, toks: seq<Tok>, toks': seq<Tok>)
    requires Flattened(known, toks, toks')
    requires forall j :: 0 <= j < |StatementsOf(toks)| ==>
               !FlatRefused(known, allowComputed, toks, StatementsOf(toks)[j])
    ensures IsFlat(toks')
  {
    LayoutKeepsStatements(toks, toks');
    RootLine();
    forall j | 0 <= j < |StatementsOf(toks')| ensures FlatStatement(toks', StatementsOf(toks')[j]) {
      var s := StatementsOf(toks)[j];
      FlatContexts(known, toks, toks', j);
      FlattenedLine(known, allowComputed, toks, toks', j);
      assert toks'[s.lo].kind == toks[s.lo].kind;
      assert IsCodeStatement(toks, s) ==> !HidesSwitches(toks, s.lo, s.hi);
      hide StatementsOf, Flattened, CountOf, ContextOf, HidesSwitches, FlatRefused;
      if IsCodeStatement(toks, s) { FlattenedStrings(known, toks, toks', j); }
    }
  }

  /** IDEMPOTENCE. Converting an accepted 4.0 output to 4.0 again - with whatever
      inputs and whatever is allowed - gives it back exactly when it lexes and is
      flat; and it does when every context a name was qualified with is one whole name. */
  lemma {:induction false} FlatteningAgainChangesNothing(known: Known, allowComputed: bool, text: string,
                                                         known': Known, allowComputed': bool)
    requires Convert(known, allowComputed, Flat, text).Written?
    ensures var out := Convert(known, allowComputed, Flat, text);
            Convert(known', allowComputed', Flat, out.text) == out <==>
              LexOf(out.text).Lexed? && IsFlat(LexOf(out.text).toks)
    ensures ContextsNamed(known, LexOf(text).toks, StatementsOf(LexOf(text).toks)) ==>
              Convert(known', allowComputed', Flat, Convert(known, allowComputed, Flat, text).text)
              == Convert(known, allowComputed, Flat, text)
  {
    hide *;
    KeptIsLexed(known', allowComputed', Convert(known, allowComputed, Flat, text).text);
    NamedOutput(known, allowComputed, text);
  }

  lemma NamedOutput(known: Known, allowComputed: bool, text: string)
    requires Convert(known, allowComputed, Flat, text).Written?
    ensures LexOf(text).Lexed?
    ensures ContextsNamed(known, LexOf(text).toks, StatementsOf(LexOf(text).toks)) ==>
              var out := Convert(known, allowComputed, Flat, text).text; LexOf(out).Lexed? && IsFlat(LexOf(out).toks)
  {
    assert LexOf(text).Lexed?;
    var toks := LexOf(text).toks;
    var ss := StatementsOf(toks);
    assert Ordered(toks, ss);
    hide *;
    if ContextsNamed(known, toks, ss) { NamedOutputIsFlat(known, allowComputed, text); }
  }

  lemma KeptIsLexed(known: Known, allowComputed: bool, text: string)
    ensures Convert(known, allowComputed, Flat, text) == Written(text) <==>
            LexOf(text).Lexed? && IsFlat(LexOf(text).toks)
  {
    if LexOf(text).Lexed? { KeptIffFlat(known, allowComputed, text); }
    hide LexOf, ConvertToks, IsFlat;
  }

  lemma NamedOutputIsFlat(known: Known, allowComputed: bool, text: string)
    requires Convert(known, allowComputed, Flat, text).Written?
    requires ContextsNamed(known, LexOf(text).toks, StatementsOf(LexOf(text).toks))
    ensures var out := Convert(known, allowComputed, Flat, text).text; LexOf(out).Lexed? && IsFlat(LexOf(out).toks)
  {
    hide LexOf, ConvertToks, StatementsOf, Flattened, Valid, FlatRefused, IsFlat, Join;
    var toks := LexOf(text).toks;
    FlatOutput(known, allowComputed, toks);
    FlattenedOf(known, allowComputed, text);
    var out := Join(ConvertToks(known, allowComputed, Flat, toks).out);
    FlattenedIsFlat(known, allowComputed, toks, LexOf(out).toks);
  }
}
