/** What the 5.0 conversion writes and when it refuses a file, said by its blocks and by what its names denote. */
module NestingSays {
  import opened Options
  import opened Lexer
  import opened Scanner
  import opened Converter
  import opened StatementStarts
  import opened Levels
  import opened Flatten
  import opened FlattenLexing
  import opened Meaning
  import opened Nesting
  import opened NestableBlocks

  /** Bare, the name under `ctx` that the use has denotes the same there. */
  predicate BareIn(lams: seq<Lambda>, use: Use, name: string, ctx: string, leaf: string) {
    && name == ctx + "." + leaf && '.' !in leaf && !use.columnCtx && use.role != Column
    && !(use.role == Assign && use.lam.Some?)
    && Denotes(lams, use, leaf, ctx, false) == GlobalName(name)
  }

  ghost predicate BaredAt(toks: seq<Tok>, s: Stmt, ctx: string, k: nat, leaf: string)
    requires s.lo <= k < s.hi <= |toks|
  {
    var st := Parse(toks, s.lo, s.hi);
    st.Parsed? &&
    exists i :: 0 <= i < |st.uses| && st.uses[i].idx == k && BareIn(st.lams, st.uses[i], TextOf(toks, k), ctx, leaf)
  }

  lemma BaredIff(toks: seq<Tok>, s: Stmt, ctx: string, k: nat, leaf: string)
    requires s.lo <= k < s.hi <= |toks| && Nested(ctx)
    ensures BaredAt(toks, s, ctx, k, leaf) <==>
              Shortened(toks, s, ctx, k) && |ctx| < |toks[k].text| && leaf == toks[k].text[|ctx| + 1..]
  {
    hide Parse, ShortOf, BareIn, Nested;
    var st := Parse(toks, s.lo, s.hi);
    if st.Parsed? {
      forall i | 0 <= i < |st.uses|
        ensures BareIn(st.lams, st.uses[i], toks[k].text, ctx, leaf)
                <==> ShortOf(st.lams, st.uses[i], toks[k].text, ctx) == Some(leaf) {
        ShortIff(st.lams, st.uses[i], toks[k].text, ctx, leaf);
      }
      forall i | 0 <= i < |st.uses| && ShortOf(st.lams, st.uses[i], toks[k].text, ctx).Some?
        ensures |ctx| < |toks[k].text|
        ensures ShortOf(st.lams, st.uses[i], toks[k].text, ctx) == Some(toks[k].text[|ctx| + 1..]) {
        ShortIsLeaf(st.lams, st.uses[i], toks[k].text, ctx);
      }
    }
  }

  lemma ShortIff(lams: seq<Lambda>, use: Use, name: string, ctx: string, leaf: string)
    requires Nested(ctx)
    ensures BareIn(lams, use, name, ctx, leaf) <==> ShortOf(lams, use, name, ctx) == Some(leaf)
  {
    ShortExactly(lams, use, name, ctx, leaf);
    hide ShortOf, Denotes, Nested;
  }

  /** Statement `j` is the `\\d .` line of a block that can run in `ctx`. */
  ghost predicate Heads(known: Known, fs: Functions, toks: seq<Tok>, ss: seq<Stmt>, j: nat, ctx: string)
    requires Ordered(toks, ss)
  {
    exists e: nat :: MovingBlock(known, fs, toks, ss, j, e, ctx)
  }

  /** Statement `j` stands in such a block. */
  ghost predicate StandsIn(known: Known, fs: Functions, toks: seq<Tok>, ss: seq<Stmt>, j: nat, ctx: string)
    requires Ordered(toks, ss)
  {
    exists i: nat, e: nat :: i < j < e && MovingBlock(known, fs, toks, ss, i, e, ctx)
  }

  /** Token `k` of statement `j` as the conversion leaves it: the `\\d .` line of a block that
      moves names the block's context, names in the block are bare where that denotes the same. */
  ghost predicate NestedAs(known: Known, fs: Functions, toks: seq<Tok>, ss: seq<Stmt>, j: nat, k: nat, text: string)
    requires Ordered(toks, ss) && j < |ss| && ss[j].lo <= k < ss[j].hi
  {
    && (k == ss[j].lo ==> forall ctx :: Heads(known, fs, toks, ss, j, ctx) ==> text == "\\d " + ctx)
    && (forall ctx, leaf ::
          StandsIn(known, fs, toks, ss, j, ctx) && BaredAt(toks, ss[j], ctx, k, leaf) ==> text == leaf)
    && (text != toks[k].text ==>
          || (k == ss[j].lo && exists ctx :: Heads(known, fs, toks, ss, j, ctx))
          || (exists ctx :: StandsIn(known, fs, toks, ss, j, ctx) && BaredAt(toks, ss[j], ctx, k, text)))
  }

  lemma BlockSays(known: Known, fs: Functions, toks: seq<Tok>, ss: seq<Stmt>, j: nat, ctx: string)
    requires Ordered(toks, ss) && j < |ss| && known.functions == Settled(fs)
    ensures HomeIn(known, toks, ss, j) == Some(ctx) <==> Heads(known, fs, toks, ss, j, ctx)
    ensures MovesTo(known, toks, ss, j) == Some(ctx) <==> StandsIn(known, fs, toks, ss, j, ctx)
  {
    hide MovingBlock, HomeIn, MovesTo;
    BlocksMove(known, fs, toks, ss, j, ctx);
  }

  lemma HeadNested(known: Known, fs: Functions, toks: seq<Tok>, ss: seq<Stmt>, j: nat, k: nat)
    requires Ordered(toks, ss) && j < |ss| && ss[j].lo <= k < ss[j].hi && known.functions == Settled(fs)
    requires !IsCodeStatement(toks, ss[j])
    ensures NestedAs(known, fs, toks, ss, j, k, NestText(known, toks, ss, j, k))
  {
    hide Heads, StandsIn, HomeIn, BaredAt;
    forall ctx ensures HomeIn(known, toks, ss, j) == Some(ctx) <==> Heads(known, fs, toks, ss, j, ctx)
               ensures !StandsIn(known, fs, toks, ss, j, ctx) {
      BlockSays(known, fs, toks, ss, j, ctx);
    }
    hide IsCodeStatement, MovesTo;
  }

  lemma CodeHeadsNone(known: Known, fs: Functions, toks: seq<Tok>, ss: seq<Stmt>, j: nat, ctx: string)
    requires Ordered(toks, ss) && j < |ss| && IsCodeStatement(toks, ss[j])
    ensures !Heads(known, fs, toks, ss, j, ctx)
  {
    hide MovingBlock, IsCodeStatement;
    if e: nat :| MovingBlock(known, fs, toks, ss, j, e, ctx) { MovingIsNested(known, fs, toks, ss, j, e, ctx); }
  }

  lemma StandsIsNested(known: Known, fs: Functions, toks: seq<Tok>, ss: seq<Stmt>, j: nat, ctx: string)
    requires Ordered(toks, ss) && StandsIn(known, fs, toks, ss, j, ctx)
    ensures Nested(ctx)
  {
    hide MovingBlock, IsCodeStatement, Nested;
    var i: nat, e: nat :| i < j < e && MovingBlock(known, fs, toks, ss, i, e, ctx);
    MovingIsNested(known, fs, toks, ss, i, e, ctx);
  }

  lemma MovingIsNested(known: Known, fs: Functions, toks: seq<Tok>, ss: seq<Stmt>, i: nat, e: nat, ctx: string)
    requires Ordered(toks, ss) && MovingBlock(known, fs, toks, ss, i, e, ctx)
    ensures Nested(ctx) && i + 1 < e < |ss| && !IsCodeStatement(toks, ss[i])
  {
    DeepIsNested(ctx);
    MovingIsBlock(known, fs, toks, ss, i, e, ctx);
    hide StatementLives, GivesIn, Switches, ContextLine;
    SwitchIsLine(toks[ss[i].lo]);
  }

  lemma CodeNested(known: Known, fs: Functions, toks: seq<Tok>, ss: seq<Stmt>, j: nat, k: nat)
    requires Ordered(toks, ss) && j < |ss| && ss[j].lo <= k < ss[j].hi && known.functions == Settled(fs)
    requires IsCodeStatement(toks, ss[j])
    ensures NestedAs(known, fs, toks, ss, j, k, NestText(known, toks, ss, j, k))
  {
    hide Heads, StandsIn, HomeIn, BaredAt, IsCodeStatement, MovesTo, Shortened, Nested;
    var to := MovesTo(known, toks, ss, j);
    forall ctx ensures to == Some(ctx) <==> StandsIn(known, fs, toks, ss, j, ctx)
               ensures !Heads(known, fs, toks, ss, j, ctx) {
      BlockSays(known, fs, toks, ss, j, ctx);
      CodeHeadsNone(known, fs, toks, ss, j, ctx);
    }
    if to.Some? {
      StandsIsNested(known, fs, toks, ss, j, to.value);
      forall leaf ensures BaredAt(toks, ss[j], to.value, k, leaf) <==>
                            Shortened(toks, ss[j], to.value, k) && |to.value| < |toks[k].text| &&
                            leaf == toks[k].text[|to.value| + 1..] {
        BaredIff(toks, ss[j], to.value, k, leaf);
      }
    }
  }

  lemma TokenNested(known: Known, toks: seq<Tok>, ss: seq<Stmt>, out: seq<string>, j: nat, k: nat)
    requires Ordered(toks, ss) && j < |ss| && ss[j].lo <= k < ss[j].hi && |out| == |toks|
    requires WrittenAt(known, toks, ss, 0, |ss|, Texts(toks), out, k)
    ensures out[k] == NestText(known, toks, ss, j, k)
  {
    hide NestText;
  }

  /** NESTING. Each token of a statement is written as its block says, every other as it was. */
  lemma NestingIff(known: Known, fs: Functions, toks: seq<Tok>, out: seq<string>)
    requires known.functions == Settled(fs) && out == NestFrom(known, toks, StatementsOf(toks), 0, Texts(toks))
    ensures var ss := StatementsOf(toks);
            && |out| == |toks| && Ordered(toks, ss)
            && (forall j, k ::
                  0 <= j < |ss| && ss[j].lo <= k < ss[j].hi ==> NestedAs(known, fs, toks, ss, j, k, out[k]))
            && (forall k :: 0 <= k < |toks| && (forall j :: 0 <= j < |ss| ==> !(ss[j].lo <= k < ss[j].hi)) ==>
                  out[k] == toks[k].text)
  {
    hide NestText, NestedAs, NestFrom, StatementsOf, IsCodeStatement;
    NestOutput(known, toks, out);
    var ss := StatementsOf(toks);
    assert Ordered(toks, ss);
    forall j, k | 0 <= j < |ss| && ss[j].lo <= k < ss[j].hi ensures NestedAs(known, fs, toks, ss, j, k, out[k]) {
      TokenNested(known, toks, ss, out, j, k);
      if IsCodeStatement(toks, ss[j]) {
        CodeNested(known, fs, toks, ss, j, k);
      } else {
        HeadNested(known, fs, toks, ss, j, k);
      }
    }
    forall k | 0 <= k < |toks| && (forall j :: 0 <= j < |ss| ==> !(ss[j].lo <= k < ss[j].hi))
      ensures out[k] == toks[k].text {
      assert WrittenAt(known, toks, ss, 0, |ss|, Texts(toks), out, k);
    }
  }
}
