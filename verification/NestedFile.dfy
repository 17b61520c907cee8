/** A whole file converted for 5.0: when it is refused, and what is written. */
module NestedFile {
  import opened Options
  import opened Chars
  import opened Lexer
  import opened LexerProofs
  import opened Scanner
  import opened Converter
  import opened Layout
  import opened Idempotence
  import opened NestLexing

  /** The text the 5.0 conversion writes. */
  ghost function NestedText(known: Known, toks: seq<Tok>): string {
    Join(NestFrom(known, toks, StatementsOf(toks), 0, Texts(toks)))
  }

  /** The line switches to a context that is not absolute. */
  predicate SwitchesRelative(t: Tok) {
    t.kind == Sys && ContextOf(t.text).Some? && ContextOf(t.text).value != "" && ContextOf(t.text).value[0] != '.'
  }

  lemma NestStatement(known: Known, allowComputed: bool, toks: seq<Tok>, s: Stmt, cv: Conv)
    requires s.lo < s.hi <= |toks|
    ensures ConvertStatement(known, allowComputed, Target.Nest, toks, s, cv)
            == cv.(refused := cv.refused || SwitchesRelative(toks[s.lo]))
  {
    hide ContextOf, CountOf, HidesSwitches;
  }

  lemma {:induction false} NestStatements(known: Known, allowComputed: bool, toks: seq<Tok>, ss: seq<Stmt>, i: nat,
                                          cv: Conv)
    requires i <= |ss| && forall j :: 0 <= j < |ss| ==> ss[j].lo < ss[j].hi <= |toks|
    ensures var r := ConvertFrom(known, allowComputed, Target.Nest, toks, ss, i, cv);
            && r.out == cv.out
            && (r.refused <==> cv.refused || exists j :: i <= j < |ss| && SwitchesRelative(toks[ss[j].lo]))
    decreases |ss| - i
  {
    hide ConvertStatement, SwitchesRelative;
    if i < |ss| {
      NestStatement(known, allowComputed, toks, ss[i], cv);
      NestStatements(known, allowComputed, toks, ss, i + 1,
                     cv.(refused := cv.refused || SwitchesRelative(toks[ss[i].lo])));
    }
  }

  /** The 5.0 conversion refuses exactly the files with a switch to a context
      that is not absolute; for any other it writes the nested text. */
  lemma {:induction false} NestConverts(known: Known, allowComputed: bool, text: string)
    requires LexOf(text).Lexed?
    ensures var toks := LexOf(text).toks;
            Convert(known, allowComputed, Target.Nest, text)
            == if exists j :: 0 <= j < |StatementsOf(toks)| && SwitchesRelative(toks[StatementsOf(toks)[j].lo])
               then Rejected
               else Written(NestedText(known, toks))
  {
    hide LexOf, StatementsOf, NestFrom, Join, SwitchesRelative;
    var toks := LexOf(text).toks;
    NestStatements(known, allowComputed, toks, StatementsOf(toks), 0, Conv(Texts(toks), false));
  }

  lemma AcceptedNests(known: Known, allowComputed: bool, text: string)
    requires Convert(known, allowComputed, Target.Nest, text).Written?
    ensures LexOf(text).Lexed?
    ensures Convert(known, allowComputed, Target.Nest, text).text == NestedText(known, LexOf(text).toks)
  {
    assert LexOf(text).Lexed? by { hide LexOf, ConvertToks; }
    hide LexOf, StatementsOf, SwitchesRelative, NestedText, Convert;
    NestConverts(known, allowComputed, text);
  }

  lemma FlatFileNests(known: Known, allowComputed: bool, text: string)
    requires LexOf(text).Lexed? && IsFlat(LexOf(text).toks)
    ensures Convert(known, allowComputed, Target.Nest, text) == Written(NestedText(known, LexOf(text).toks))
  {
    var toks := LexOf(text).toks;
    forall j | 0 <= j < |StatementsOf(toks)| ensures !SwitchesRelative(toks[StatementsOf(toks)[j].lo]) {
      assert FlatStatement(toks, StatementsOf(toks)[j]);
      hide StatementsOf, LexOf, ContextOf, HidesSwitches, CountOf;
    }
    hide LexOf, StatementsOf, SwitchesRelative, NestedText, Convert;
    NestConverts(known, allowComputed, text);
  }

  lemma NestledFile(known: Known, text: string)
    requires LexOf(text).Lexed? && LeavesNamed(known, LexOf(text).toks, StatementsOf(LexOf(text).toks))
    ensures var toks := LexOf(text).toks; var lexed := LexOf(NestedText(known, toks));
            && lexed.Lexed? && Nestled(known, toks, lexed.toks) && |toks| == |lexed.toks|
            && Valid(Unplaced(toks), LineStart)
            && SameStatements(StatementsOf(toks), StatementsOf(lexed.toks))
  {
    hide Valid, LexOf, NestFrom, StatementsOf, NestTokens, LeavesNamed, KeepsBoundaries, RewritesAll, Join;
    var toks := LexOf(text).toks;
    LexIsLossless(text);
    var ss := StatementsOf(toks);
    var out := NestFrom(known, toks, ss, 0, Texts(toks));
    NestOutputTokens(known, toks);
    assert |out| == |toks|;
    NestRewrites(known, toks, ss, out);
    NestBoundaries(known, toks, ss, out);
    RelexKeepsLayout(text, out);
    LayoutKeepsStatements(toks, LexOf(Join(out)).toks);
  }
}
