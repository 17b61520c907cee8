/** The 4.0 output lexes into the tokens it was joined from. */
module FlattenLexing {
  import opened Options
  import opened Chars
  import opened Lexer
  import opened LexerProofs
  import opened QWords
  import opened Scanner
  import opened Converter
  import opened Layout
  import opened Flatten

  predicate IsCodeStatement(toks: seq<Tok>, s: Stmt)
    requires s.lo < |toks|
  {
    toks[s.lo].kind != Sys && toks[s.lo].kind != Tail
  }

  /** Token `k` of the statement is a name the conversion qualifies. */
  ghost predicate QualifiedIn(known: Known, toks: seq<Tok>, s: Stmt, k: nat)
    requires s.lo < s.hi <= |toks|
  {
    && s.lo <= k < s.hi && IsCodeStatement(toks, s) && Nested(s.ctx) && Parse(toks, s.lo, s.hi).Parsed?
    && QualifiedFrom(toks, Parse(toks, s.lo, s.hi), 0, known.DefinedIn(s.ctx), k)
  }

  /** The line switches to a nested context. */
  predicate SwitchesNested(t: Tok) {
    t.kind == Sys && ContextOf(t.text).Some? && Nested(ContextOf(t.text).value)
  }

  lemma BuiltinIsBare(name: string)
    requires IsBuiltin(name)
    ensures name != "" && name[0] != '.' && '.' !in name
  {
    hide IsEarlyWord, IsMiddleWord, IsLateWord;
    if IsEarlyWord(name) { EarlyWordIsBare(name); }
    if IsMiddleWord(name) { MiddleWordIsBare(name); }
    if IsLateWord(name) { LateWordIsBare(name); }
  }

  lemma EarlyWordIsBare(name: string)
    requires IsEarlyWord(name)
    ensures name != "" && '.' !in name
  {
  }

  lemma MiddleWordIsBare(name: string)
    requires IsMiddleWord(name)
    ensures name != "" && '.' !in name
  {
  }

  lemma LateWordIsBare(name: string)
    requires IsLateWord(name)
    ensures name != "" && '.' !in name
  {
  }

  lemma {:induction false} NameStarts(t: string)
    requires NameShaped(t)
    ensures t != "" && (IsNameStart(t[0]) || (t[0] == '.' && 2 <= |t| && IsNameStart(t[1])))
    ensures forall i :: 1 <= i < |t| ==> NameGoesOn(t, i)
  {
  }

  /** Text that starts like a name and goes on like one is a name. */
  lemma {:induction false} NameShapedIs(t: string)
    requires BeginsName(t) && forall i :: 1 <= i < |t| ==> NameGoesOn(t, i)
    ensures NameShaped(t)
  {
    NameEndIs(t, 1, |t|);
  }

  /** Qualifying a name gives a name exactly when the context is one. */
  lemma {:induction false} QualifiedIsName(ctx: string, name: string)
    requires ctx != "" && ctx[0] == '.' && NameShaped(name) && IsRelative(name)
    ensures NameShaped(ctx + "." + name) <==> NameShaped(ctx)
  {
    var full := ctx + "." + name;
    var n := |ctx|;
    NameStarts(name);
    assert IsNameStart(name[0]);
    assert full[..n] == ctx && full[n] == '.' && full[n + 1..] == name;
    assert forall i :: 0 <= i < n ==> full[i] == ctx[i];
    assert forall i :: 0 <= i < |name| ==> full[n + 1 + i] == name[i];
    if NameShaped(ctx) {
      NameStarts(ctx);
      forall i | 1 <= i < |full| ensures NameGoesOn(full, i) {
        if i < n {
          assert NameGoesOn(ctx, i);
        } else if i > n + 1 {
          assert NameGoesOn(name, i - n - 1);
        }
      }
      NameShapedIs(full);
    }
    if NameShaped(full) {
      NameStarts(full);
      assert NameGoesOn(full, n);
      assert full[1] == '.' ==> n == 1;
      assert full[1] != '.' && n != 1;
      forall i | 1 <= i < n ensures NameGoesOn(ctx, i) { assert NameGoesOn(full, i); }
      NameShapedIs(ctx);
    }
  }

  lemma {:induction false} SysPiece(ps: seq<Piece>, k: nat)
    requires Valid(ps, LineStart) && k < |ps| && ps[k].kind == Sys
    ensures ps[k].text != "" && '\n' !in ps[k].text && ps[k].text[|ps[k].text| - 1] != '\r'
  {
    ValidAt(ps, LineStart, k);
    assert ps[k..][0] == ps[k];
    var t, r := ps[k].text, Concat(ps[k..][1..]);
    assert Concat(ps[k..]) == t + r;
    assert (t + r)[0] == t[0];
    SysLine(t, r, ModeAt(ps, LineStart, k));
  }

  lemma SysLine(t: string, r: string, m: Mode)
    requires t != "" && Step(t + r, m) == Cut(Sys, |t|)
    ensures '\n' !in t && t[|t| - 1] != '\r'
  {
    var s := t + r;
    var body := RStrip(s[..Eol(s, 0)], {'\r'});
    assert body == t;
    LineBodyOf(t, r);
  }

  lemma NamePiece(ps: seq<Piece>, k: nat)
    requires Valid(ps, LineStart) && k < |ps| && ps[k].kind == Name
    ensures NameShaped(ps[k].text)
  {
    ValidAt(ps, LineStart, k);
    assert ps[k..][0] == ps[k];
    PieceIsName(ps[k].text, Concat(ps[k..][1..]), ModeAt(ps, LineStart, k));
  }

  lemma SwitchIsShaped(t: string)
    requires t != "" && '\n' !in t && t[|t| - 1] != '\r'
    requires ContextOf(t).Some? && ContextOf(t).value != ""
    ensures SwitchShaped(t)
  {
    assert t[..WordEnd(t)] == "\\d";
  }

  lemma RootLine()
    ensures SwitchShaped(ROOT_LINE) && ContextOf(ROOT_LINE) == Some(".") && !Nested(".")
  {
    var t := ROOT_LINE;
    assert t == "\\d .";
    assert WordEnd(t[2..]) == 0 && WordEnd(t[1..]) == 1 && WordEnd(t) == 2;
    var rest := t[2..];
    assert rest == " .";
    assert LeadingSpaces(rest[1..]) == 0 && LeadingSpaces(rest) == 1;
    assert rest[1..] == "." && TrailingSpaces(".") == 0;
    assert Strip(rest) == ".";
  }

  /** What the conversion writes: a nested switch made root's, a name qualified, or the token's own text. */
  ghost predicate FlatToken(known: Known, toks: seq<Tok>, ss: seq<Stmt>, text: string, k: nat)
    requires Ordered(toks, ss) && k < |toks|
  {
    || text == toks[k].text
    || (SwitchesNested(toks[k]) && text == ROOT_LINE)
    || exists j :: 0 <= j < |ss| && QualifiedIn(known, toks, ss[j], k) && text == ss[j].ctx + "." + toks[k].text
  }

  ghost predicate FlatTokens(known: Known, toks: seq<Tok>, ss: seq<Stmt>, out: seq<string>)
    requires Ordered(toks, ss)
  {
    && |out| == |toks|
    && (forall k :: 0 <= k < |toks| ==> FlatToken(known, toks, ss, out[k], k))
    && (forall j, k: nat :: 0 <= j < |ss| && k < |toks| && QualifiedIn(known, toks, ss[j], k)
          ==> out[k] == ss[j].ctx + "." + toks[k].text)
    && (forall k :: 0 <= k < |toks| ==> FlatAt(known, toks, ss, out, k))
  }

  lemma FlatOutputTokens(known: Known, allowComputed: bool, toks: seq<Tok>)
    ensures FlatTokens(known, toks, StatementsOf(toks), ConvertToks(known, allowComputed, Flat, toks).out)
  {
    FlatOutput(known, allowComputed, toks);
    hide QualifiedFrom, Parse, ContextOf, CountOf, ConvertToks, ROOT_LINE, StatementsOf;
    var ss := StatementsOf(toks);
    var out := ConvertToks(known, allowComputed, Flat, toks).out;
    forall k | 0 <= k < |toks| ensures FlatToken(known, toks, ss, out[k], k) {
      assert FlatAt(known, toks, ss, out, k);
      if out[k] != toks[k].text {
        var j :| 0 <= j < |ss| && ss[j].lo <= k < ss[j].hi;
        assert out[k] == FlatText(known, toks, ss[j], k);
      }
    }
    forall j, k: nat | 0 <= j < |ss| && k < |toks| && QualifiedIn(known, toks, ss[j], k)
      ensures out[k] == ss[j].ctx + "." + toks[k].text
    {
      assert FlatAt(known, toks, ss, out, k);
    }
  }

  /** What a qualified name is: a relative name of the statement that no builtin owns. */
  lemma QualifiedName(known: Known, toks: seq<Tok>, s: Stmt, k: nat)
    requires s.lo < s.hi <= |toks| && QualifiedIn(known, toks, s, k)
    ensures toks[k].kind == Name && IsRelative(toks[k].text) && !IsBuiltin(toks[k].text)
    ensures !RelativeDotted(toks[k].text)
    ensures s.ctx != "" && s.ctx[0] == '.'
  {
    ParseUses(toks, s.lo, s.hi);
    hide IsBuiltin, RelativeDotted, Parse, CountOf;
  }

  /** Every context that qualifies a name is itself one whole name. */
  ghost predicate ContextsNamed(known: Known, toks: seq<Tok>, ss: seq<Stmt>)
    requires Ordered(toks, ss)
  {
    forall j, k: nat :: 0 <= j < |ss| && k < |toks| && QualifiedIn(known, toks, ss[j], k) ==> NameShaped(ss[j].ctx)
  }

  lemma {:induction false} FlatRewrites(known: Known, toks: seq<Tok>, ss: seq<Stmt>, out: seq<string>)
    requires Ordered(toks, ss) && FlatTokens(known, toks, ss, out) && Valid(Unplaced(toks), LineStart)
    ensures RewritesAll(Unplaced(toks), Retexted(toks, out))
  {
    RootLine();
    hide QualifiedIn, ContextOf, SwitchShaped, Valid, CountOf, ROOT_LINE;
    forall k | 0 <= k < |toks| && out[k] != toks[k].text
      ensures toks[k].kind == Name || (toks[k].kind == Sys && SwitchShaped(toks[k].text) && SwitchShaped(out[k]))
    {
      assert FlatToken(known, toks, ss, out[k], k);
      if SwitchesNested(toks[k]) && out[k] == ROOT_LINE {
        assert Unplaced(toks)[k] == Piece(toks[k].kind, toks[k].text);
        SysPiece(Unplaced(toks), k);
        SwitchIsShaped(toks[k].text);
      } else {
        var j :| 0 <= j < |ss| && QualifiedIn(known, toks, ss[j], k);
        QualifiedName(known, toks, ss[j], k);
      }
    }
  }

  lemma QualifiedShape(known: Known, toks: seq<Tok>, s: Stmt, k: nat)
    requires Valid(Unplaced(toks), LineStart) && s.lo < s.hi <= |toks| && QualifiedIn(known, toks, s, k)
    ensures toks[k].kind == Name && !StartsBare(s.ctx + "." + toks[k].text)
    ensures s.ctx + "." + toks[k].text != toks[k].text
    ensures NameShaped(s.ctx + "." + toks[k].text) <==> NameShaped(s.ctx)
  {
    QualifiedName(known, toks, s, k);
    hide QualifiedIn, Valid, NameShaped;
    assert Unplaced(toks)[k] == Piece(toks[k].kind, toks[k].text);
    NamePiece(Unplaced(toks), k);
    QualifiedIsName(s.ctx, toks[k].text);
    assert |s.ctx + "." + toks[k].text| > |toks[k].text|;
  }

  lemma FlatNameIsQualified(known: Known, toks: seq<Tok>, ss: seq<Stmt>, out: seq<string>, k: nat) returns (j: nat)
    requires Ordered(toks, ss) && FlatTokens(known, toks, ss, out) && Valid(Unplaced(toks), LineStart)
    requires k < |toks| && toks[k].kind == Name && out[k] != toks[k].text
    ensures j < |ss| && QualifiedIn(known, toks, ss[j], k) && !StartsBare(out[k])
    ensures NameShaped(out[k]) <==> NameShaped(ss[j].ctx)
  {
    hide QualifiedIn, ContextOf, Valid, NameShaped, StartsBare;
    assert FlatToken(known, toks, ss, out[k], k);
    j :| 0 <= j < |ss| && QualifiedIn(known, toks, ss[j], k) && out[k] == ss[j].ctx + "." + toks[k].text;
    QualifiedShape(known, toks, ss[j], k);
  }

  /** No boundary merges or splits if and only if every context that qualifies a name is one whole name. */
  lemma {:induction false} FlatBoundaries(known: Known, toks: seq<Tok>, ss: seq<Stmt>, out: seq<string>)
    requires Ordered(toks, ss) && FlatTokens(known, toks, ss, out) && Valid(Unplaced(toks), LineStart)
    ensures KeepsBoundaries(Unplaced(toks), Retexted(toks, out)) <==> ContextsNamed(known, toks, ss)
  {
    var ps, qs := Unplaced(toks), Retexted(toks, out);
    assert forall k :: 0 <= k < |toks| ==> ps[k] == Piece(toks[k].kind, toks[k].text);
    if ContextsNamed(known, toks, ss) {
      hide QualifiedIn, Valid, NameShaped, StartsBare, FlatTokens;
      forall k | 0 <= k < |ps| && ps[k] != qs[k] && ps[k].kind == Name
        ensures NameShaped(qs[k].text) && !StartsBare(qs[k].text)
      {
        var j := FlatNameIsQualified(known, toks, ss, out, k);
      }
    }
    if KeepsBoundaries(ps, qs) {
      hide QualifiedIn, Valid, NameShaped, StartsBare;
      forall j, k: nat | 0 <= j < |ss| && k < |toks| && QualifiedIn(known, toks, ss[j], k)
        ensures NameShaped(ss[j].ctx)
      {
        QualifiedShape(known, toks, ss[j], k);
        assert ps[k] != qs[k];
      }
    }
  }

  /** The 4.0 output lexes back into the tokens it was joined from if and only
      if every context that qualifies a name is one whole name. */
  lemma {:induction false} FlatRelexIff(known: Known, allowComputed: bool, text: string)
    requires LexOf(text).Lexed?
    ensures var toks := LexOf(text).toks; var out := ConvertToks(known, allowComputed, Flat, toks).out;
            && |out| == |toks|
            && (CutAll(Join(out), LineStart) == Cuts(Retexted(toks, out)) <==>
                ContextsNamed(known, toks, StatementsOf(toks)))
  {
    hide Valid, LexOf, CutAll, ConvertToks, StatementsOf, Concat, FlatToken, QualifiedIn, FlatAt;
    var toks := LexOf(text).toks;
    LexIsLossless(text);
    var out := ConvertToks(known, allowComputed, Flat, toks).out;
    var ss := StatementsOf(toks);
    FlatOutputTokens(known, allowComputed, toks);
    FlatRewrites(known, toks, ss, out);
    FlatBoundaries(known, toks, ss, out);
    JoinIsConcat(toks, out);
    RelexIff(Unplaced(toks), Retexted(toks, out));
  }
}
