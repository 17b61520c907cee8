/** A whole project converted, file by file: what is refused and what is written. */
module ProjectSays {
  import opened Options
  import opened Lexer
  import opened Scanner
  import opened Converter
  import opened StatementStarts
  import opened Levels
  import opened Flatten
  import opened NestedFile
  import opened FlattenSays
  import opened NestingSays
  import opened Projects
  import opened CollectSays

  // ---- a project's files

  /** The text is the tokens as their statements say, one after another. */
  ghost predicate WrittenAs(known: Known, toks: seq<Tok>, text: string, out: seq<string>) {
    var ss := StatementsOf(toks);
    && |out| == |toks| && text == Join(out)
    && (forall j, k :: 0 <= j < |ss| && ss[j].lo <= k < ss[j].hi ==> WritesAt(known, toks, ss[j], k, out[k]))
    && (forall k :: 0 <= k < |toks| && (forall j :: 0 <= j < |ss| ==> !(ss[j].lo <= k < ss[j].hi)) ==>
          out[k] == toks[k].text)
  }

  /** A PROJECT FOR 4.0. With what all the inputs hold, a file is refused exactly when a string
      in it is never closed or one of its statements is refused; otherwise it is written token
      by token as its statements say. */
  lemma ProjectFlattens(texts: seq<string>, i: nat, allowComputed: bool)
    requires i < |texts|
    ensures var known, fs := KnownOf(texts), CollectAll(texts, NOTHING).functions;
            var r := Convert(known, allowComputed, Flat, texts[i]);
            match LexOf(texts[i])
            case Unclosed(_, _) => r.Rejected?
            case Lexed(toks) =>
              var ss := StatementsOf(toks);
              && (r.Rejected? <==> exists j :: 0 <= j < |ss| && RefusedAt(known, fs, allowComputed, toks, ss[j]))
              && (r.Written? ==> exists out :: WrittenAs(known, toks, r.text, out))
  {
    hide LexOf, StatementsOf, CollectAll, Settled, RefusedAt, WritesAt, ConvertToks, LevelsKnown;
    var known, fs := KnownOf(texts), CollectAll(texts, NOTHING).functions;
    CollectedLevels(texts);
    match LexOf(texts[i]) {
      case Unclosed(_, _) =>
      case Lexed(toks) =>
        FlattenIff(known, fs, allowComputed, toks);
        var cv := ConvertToks(known, allowComputed, Flat, toks);
        if !cv.refused { assert WrittenAs(known, toks, Join(cv.out), cv.out); }
    }
  }

  /** The text is the tokens as their blocks say, one after another. */
  ghost predicate NestedWritten(known: Known, fs: Functions, toks: seq<Tok>, text: string, out: seq<string>) {
    var ss := StatementsOf(toks);
    && |out| == |toks| && text == Join(out) && Ordered(toks, ss)
    && (forall j, k ::
          0 <= j < |ss| && ss[j].lo <= k < ss[j].hi ==> NestedAs(known, fs, toks, ss, j, k, out[k]))
    && (forall k :: 0 <= k < |toks| && (forall j :: 0 <= j < |ss| ==> !(ss[j].lo <= k < ss[j].hi)) ==>
          out[k] == toks[k].text)
  }

  ghost predicate NamesRelative(t: Tok) { exists ctx :: Switches(t, ctx) && IsRelative(ctx) }

  lemma RelativeSwitch(t: Tok)
    ensures SwitchesRelative(t) <==> NamesRelative(t)
  {
    hide ContextOf, Switches;
    if SwitchesRelative(t) { SwitchesIff(t, ContextOf(t.text).value); }
    if ctx :| Switches(t, ctx) && IsRelative(ctx) {
      SwitchNamed(t, ctx);
      SwitchesIff(t, ctx);
    }
  }

  /** A PROJECT FOR 5.0. With what all the inputs hold, a file is refused exactly when a string
      in it is never closed or it switches to a context that is not absolute; otherwise it is
      written token by token as its blocks say. */
  lemma ProjectNests(texts: seq<string>, i: nat, allowComputed: bool)
    requires i < |texts|
    ensures var known, fs := KnownOf(texts), CollectAll(texts, NOTHING).functions;
            var r := Convert(known, allowComputed, Target.Nest, texts[i]);
            match LexOf(texts[i])
            case Unclosed(_, _) => r.Rejected?
            case Lexed(toks) =>
              var ss := StatementsOf(toks);
              && (r.Rejected? <==> exists j :: 0 <= j < |ss| && NamesRelative(toks[ss[j].lo]))
              && (r.Written? ==> exists out :: NestedWritten(known, fs, toks, r.text, out))
  {
    hide *;
    KnownSettled(texts);
    match LexOf(texts[i]) {
      case Unclosed(_, _) => UnlexedRejected(KnownOf(texts), allowComputed, texts[i]);
      case Lexed(toks) =>
        NestConverts(KnownOf(texts), allowComputed, texts[i]);
        forall t ensures SwitchesRelative(t) <==> NamesRelative(t) { RelativeSwitch(t); }
        TextNested(KnownOf(texts), CollectAll(texts, NOTHING).functions, toks);
    }
  }

  lemma KnownSettled(texts: seq<string>)
    ensures KnownOf(texts).functions == Settled(CollectAll(texts, NOTHING).functions)
  {
    hide CollectAll, Settled;
  }

  lemma TextNested(known: Known, fs: Functions, toks: seq<Tok>)
    requires known.functions == Settled(fs)
    ensures exists out :: NestedWritten(known, fs, toks, NestedText(known, toks), out)
  {
    hide StatementsOf, NestedAs, NestFrom, Settled;
    var out := NestFrom(known, toks, StatementsOf(toks), 0, Texts(toks));
    NestingIff(known, fs, toks, out);
    assert NestedWritten(known, fs, toks, NestedText(known, toks), out);
  }

  lemma UnlexedRejected(known: Known, allowComputed: bool, text: string)
    requires LexOf(text).Unclosed?
    ensures Convert(known, allowComputed, Target.Nest, text).Rejected?
  {
    hide LexOf, ConvertToks;
  }
}
