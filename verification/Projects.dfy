/** Whole projects: every file collected, settled and converted. */
module Projects {
  import opened Lexer
  import opened Scanner
  import opened Converter
  import opened Flatten
  import opened Idempotence
  import opened Levels
  import opened Nesting
  import opened NestLexing
  import opened RunContexts
  import opened NestedFile
  import opened RoundTrip
  import opened Returning

  /** What a run knows before it converts: every input collected, and call levels settled. */
  ghost function KnownOf(texts: seq<string>): Known {
    var k := CollectAll(texts, NOTHING);
    Known(k.defined, Settled(k.functions))
  }

  /** The 5.0 conversion of every file. */
  ghost function NestedAll(known: Known, texts: seq<string>): (r: seq<string>)
    requires forall i :: 0 <= i < |texts| ==> LexOf(texts[i]).Lexed?
    ensures |r| == |texts|
  {
    seq(|texts|, i requires 0 <= i < |texts| => NestedText(known, LexOf(texts[i]).toks))
  }

  lemma {:induction false} SameCollection(a: seq<string>, b: seq<string>, known: Known)
    requires |a| == |b| && forall i :: 0 <= i < |a| ==> forall all :: Collect(a[i], all) == Collect(b[i], all)
    ensures CollectAll(a, known) == CollectAll(b, known)
    decreases |a|
  {
    hide Collect;
    if a != [] { SameCollection(a[1..], b[1..], Collect(a[0], known)); }
  }

  /** A flat file whose nested form can be collected as the file is: nothing is
      left inside a block that it did not move with, and the blocks define only
      words that q allows. */
  ghost predicate Portable(known: Known, toks: seq<Tok>) {
    var ss := StatementsOf(toks);
    && Nestable(known, toks) && NoneStranded(known, toks, ss)
    && forall j: nat :: j < |ss| && MovesTo(known, toks, ss, j).Some? ==> DefinesIn(toks, ss[j])
  }

  lemma PortableFile(known: Known, toks: seq<Tok>)
    requires Portable(known, toks)
    ensures IsFlat(toks) && Nestable(known, toks) && NoneStranded(known, toks, StatementsOf(toks))
    ensures Returnable(known, toks) ==> Ready(known, toks, StatementsOf(toks))
  {
    hide StatementsOf, IsFlat, LeavesNamed, NoneStranded, MovesTo, HomeIn, ParamsIn, AmendsIn, DefinesIn;
    if Returnable(known, toks) {
      forall j: nat | j < |StatementsOf(toks)| && MovesTo(known, toks, StatementsOf(toks), j).Some?
        ensures ReadyIn(toks, StatementsOf(toks)[j])
      {
        assert BlockReturnable(known, toks, StatementsOf(toks), j);
      }
    }
  }

  /** Nesting and collecting a returnable file, and flattening it back. */
  lemma FileAround(known: Known, text: string, allowComputed: bool)
    requires LexOf(text).Lexed? && Portable(known, LexOf(text).toks)
    ensures var toks := LexOf(text).toks;
            && Convert(known, allowComputed, Target.Nest, text) == Written(NestedText(known, toks))
            && (Returnable(known, toks) ==>
                  && Convert(known, allowComputed, Flat, NestedText(known, toks)) == Written(text)
                  && forall all :: Collect(NestedText(known, toks), all) == Collect(text, all))
  {
    hide LexOf, Collect, NestedText, Convert, Portable, Returnable, Ready, Nestable, NoneStranded, IsFlat, StatementsOf;
    var toks := LexOf(text).toks;
    PortableFile(known, toks);
    FlatFileNests(known, allowComputed, text);
    if Returnable(known, toks) {
      ClosedFileReturns(known, allowComputed, text);
      forall all ensures Collect(NestedText(known, toks), all) == Collect(text, all) {
        FileCollectsSame(known, text, all);
      }
    }
  }

  ghost predicate AllReturnable(known: Known, texts: seq<string>)
    requires forall i :: 0 <= i < |texts| ==> LexOf(texts[i]).Lexed?
  {
    forall i :: 0 <= i < |texts| ==> Returnable(known, LexOf(texts[i]).toks)
  }

  /** The project nested, collected again and flattened is the project. */
  ghost predicate ComesRound(texts: seq<string>, nested: seq<string>, allowComputed: bool) {
    |nested| == |texts| && forall i :: 0 <= i < |texts| ==>
        Convert(KnownOf(nested), allowComputed, Flat, nested[i]) == Written(texts[i])
  }

  lemma {:induction false} AllCollectSame(texts: seq<string>, nested: seq<string>)
    requires forall i :: 0 <= i < |texts| ==> LexOf(texts[i]).Lexed? && Portable(KnownOf(texts), LexOf(texts[i]).toks)
    requires nested == NestedAll(KnownOf(texts), texts) && AllReturnable(KnownOf(texts), texts)
    ensures KnownOf(nested) == KnownOf(texts)
  {
    hide LexOf, Collect, NestedText, Convert, KnownOf, Portable, Returnable;
    var known := KnownOf(texts);
    forall i | 0 <= i < |texts| ensures forall all :: Collect(nested[i], all) == Collect(texts[i], all) {
      FileAround(known, texts[i], true);
    }
    SameCollection(nested, texts, NOTHING);
    KnownIsCollected(nested, texts);
  }

  ghost predicate AllPortable(known: Known, texts: seq<string>)
    requires forall i :: 0 <= i < |texts| ==> LexOf(texts[i]).Lexed?
  {
    forall i :: 0 <= i < |texts| ==> Portable(known, LexOf(texts[i]).toks)
  }

  /** Only a returnable project comes round. */
  lemma {:induction false} OnlyReturnableComesRound(texts: seq<string>, nested: seq<string>, allowComputed: bool)
    requires forall i :: 0 <= i < |texts| ==> LexOf(texts[i]).Lexed? && Nestable(KnownOf(texts), LexOf(texts[i]).toks)
    requires nested == NestedAll(KnownOf(texts), texts) && ComesRound(texts, nested, allowComputed)
    ensures AllReturnable(KnownOf(texts), texts)
  {
    hide LexOf, NestedText, Convert, KnownOf, Returnable, Nestable;
    forall i | 0 <= i < |texts| ensures Returnable(KnownOf(texts), LexOf(texts[i]).toks) {
      OnlyReturnableReturns(KnownOf(texts), KnownOf(nested), allowComputed, texts[i]);
    }
  }

  /** A returnable project comes round, when its files are portable. */
  lemma {:induction false} ReturnableComesRound(texts: seq<string>, nested: seq<string>, allowComputed: bool)
    requires forall i :: 0 <= i < |texts| ==> LexOf(texts[i]).Lexed?
    requires nested == NestedAll(KnownOf(texts), texts)
    requires AllPortable(KnownOf(texts), texts) && AllReturnable(KnownOf(texts), texts)
    ensures ComesRound(texts, nested, allowComputed) && KnownOf(nested) == KnownOf(texts)
  {
    hide LexOf, NestedText, Convert, KnownOf, Portable, Returnable;
    AllCollectSame(texts, nested);
    forall i | 0 <= i < |texts|
      ensures Convert(KnownOf(nested), allowComputed, Flat, nested[i]) == Written(texts[i])
    {
      FileAround(KnownOf(texts), texts[i], allowComputed);
    }
  }

  /** ROUND TRIP. A project of flat files nests for 5.0 file by file. Flattening
      the result with what IT defines gives every file back only if every block
      that moved opens with just `\d .` and amends no relative name but plain
      locals; and if so, in a portable project, it does, and the nested project
      defines what the project does. */
  lemma {:induction false} NestingThenFlatteningIsIdentity(texts: seq<string>, allowComputed: bool,
                                                           allowComputed': bool)
    requires forall i :: 0 <= i < |texts| ==> LexOf(texts[i]).Lexed? && Nestable(KnownOf(texts), LexOf(texts[i]).toks)
    ensures var nested := NestedAll(KnownOf(texts), texts);
            && (forall i :: 0 <= i < |texts| ==>
                Convert(KnownOf(texts), allowComputed, Target.Nest, texts[i]) == Written(nested[i]))
            && (ComesRound(texts, nested, allowComputed') ==> AllReturnable(KnownOf(texts), texts))
            && (AllPortable(KnownOf(texts), texts) && AllReturnable(KnownOf(texts), texts) ==>
                  ComesRound(texts, nested, allowComputed') && KnownOf(nested) == KnownOf(texts))
  {
    hide LexOf, NestedText, Convert, KnownOf, Portable, Returnable, StatementsOf, FlatStatement, LeavesNamed, MovesTo;
    var known := KnownOf(texts);
    var nested := NestedAll(known, texts);
    forall i | 0 <= i < |texts| ensures Convert(known, allowComputed, Target.Nest, texts[i]) == Written(nested[i]) {
      FlatFileNests(known, allowComputed, texts[i]);
    }
    hide Nestable, IsFlat, AllReturnable, AllPortable, ComesRound;
    if ComesRound(texts, nested, allowComputed') { OnlyReturnableComesRound(texts, nested, allowComputed'); }
    if AllPortable(known, texts) && AllReturnable(known, texts) { ReturnableComesRound(texts, nested, allowComputed'); }
  }

  lemma KnownIsCollected(a: seq<string>, b: seq<string>)
    requires CollectAll(a, NOTHING) == CollectAll(b, NOTHING)
    ensures KnownOf(a) == KnownOf(b)
  {
    hide CollectAll, Settled;
  }

  /** What a statement that runs while its file loads looks up: nothing, itself or
      through any chain of calls the inputs record. */
  ghost predicate LoadsSafely(fs: Functions, toks: seq<Tok>, s: Stmt)
    requires s.hi <= |toks|
  {
    var st := Parse(toks, s.lo, s.hi);
    st.Parsed? &&
    (RunsNow(st) ==>
      && (forall i :: 0 <= i < |st.lookups| ==> !InlineIn(st.lams, st.lookups[i].lam))
      && (forall f, g :: f in Calls(toks, st, s.ctx, true) && f in fs && g in fs && Reaches(fs, f, g) ==>
          fs[g].level == 0))
  }

  /** A project accepted for 4.0 without `--allow-computed-names` loads without one
      lookup at run time in a nested context. */
  lemma AcceptedProjectLoadsSafely(texts: seq<string>, i: nat, j: nat)
    requires i < |texts| && Convert(KnownOf(texts), false, Flat, texts[i]).Written?
    requires var toks := LexOf(texts[i]).toks; j < |StatementsOf(toks)|
    requires var toks := LexOf(texts[i]).toks; var s := StatementsOf(toks)[j];
             Nested(s.ctx) && toks[s.lo].kind != Sys && toks[s.lo].kind != Tail
    ensures LoadsSafely(CollectAll(texts, NOTHING).functions, LexOf(texts[i]).toks,
                        StatementsOf(LexOf(texts[i]).toks)[j])
  {
    hide LexOf, StatementsOf, CollectAll, Parse, LoadTimeHazard, Calls, InlineIn, Reaches, Settled, HidesSwitches;
    hide RefusedFrom;
    var toks := LexOf(texts[i]).toks;
    var known := KnownOf(texts);
    var s := StatementsOf(toks)[j];
    FlatOutput(known, false, toks);
    assert !FlatRefused(known, false, toks, s);
    if RunsNow(Parse(toks, s.lo, s.hi)) {
      LoadTimeSafety(CollectAll(texts, NOTHING).functions, known.defined, toks, s.lo, s.hi, s.ctx);
    }
  }
}
