/** What the 5.0 conversion writes, token by token. */
module Nesting {
  import opened Options
  import opened Lexer
  import opened QWords
  import opened Scanner
  import opened Converter
  import opened Flatten
  import opened FlattenLexing

  /** The context statement `i` opens once nested, if it heads a block that moves. */
  ghost function HomeIn(known: Known, toks: seq<Tok>, ss: seq<Stmt>, i: nat): Option<string>
    requires Ordered(toks, ss) && i < |ss|
  {
    var j := BlockStop(toks, ss, i + 1);
    if IsCandidate(toks, ss, i, j) then HomeOf(known, toks, ss[i + 1..j]) else None
  }

  /** The system line whose block statement `j` is in. */
  function HeadBefore(toks: seq<Tok>, ss: seq<Stmt>, j: nat): (h: Option<nat>)
    requires Ordered(toks, ss) && j <= |ss|
    ensures h.Some? ==> h.value < j && toks[ss[h.value].lo].kind == Sys
    ensures h.Some? ==> forall i :: h.value < i < j ==> IsCodeStatement(toks, ss[i])
  {
    if j == 0 then None
    else if toks[ss[j - 1].lo].kind == Sys then Some(j - 1)
    else if toks[ss[j - 1].lo].kind == Tail then None
    else HeadBefore(toks, ss, j - 1)
  }

  /** The context code statement `j` moves into, if its block moves. */
  ghost function MovesTo(known: Known, toks: seq<Tok>, ss: seq<Stmt>, j: nat): Option<string>
    requires Ordered(toks, ss) && j < |ss|
  {
    if IsCodeStatement(toks, ss[j]) && HeadBefore(toks, ss, j).Some? then
      HomeIn(known, toks, ss, HeadBefore(toks, ss, j).value)
    else None
  }

  /** Some use at token `k` is shortened. */
  ghost predicate ShortenedFrom(toks: seq<Tok>, st: Statement, i: nat, ctx: string, k: nat)
    requires st.Parsed?
  {
    exists j :: i <= j < |st.uses| && st.uses[j].idx == k && ShortOf(st.lams, st.uses[j], TextOf(toks, k), ctx).Some?
  }

  /** A shortened name is the context, a dot and the leaf. */
  lemma ShortIsLeaf(lams: seq<Lambda>, use: Use, name: string, ctx: string)
    requires ShortOf(lams, use, name, ctx).Some?
    ensures |ctx| < |name| && ShortOf(lams, use, name, ctx).value == name[|ctx| + 1..]
    ensures name == ctx + "." + name[|ctx| + 1..]
  {
    hide IsBuiltin, IsLocalIn;
    assert ctx + "." <= name;
    assert name == name[..|ctx| + 1] + name[|ctx| + 1..];
  }

  lemma {:induction false} ShortenUsesAt(toks: seq<Tok>, st: Statement, i: nat, ctx: string, out: seq<string>, k: nat)
    requires st.Parsed? && i <= |st.uses| && k < |out|
    ensures var r := ShortenUses(toks, st, i, ctx, out);
            if ShortenedFrom(toks, st, i, ctx, k) then
              |ctx| < |TextOf(toks, k)| && r[k] == TextOf(toks, k)[|ctx| + 1..]
            else r[k] == out[k]
    decreases |st.uses| - i
  {
    hide ShortOf, TextOf;
    if i < |st.uses| {
      var use := st.uses[i];
      var short := ShortOf(st.lams, use, TextOf(toks, use.idx), ctx);
      if short.Some? { ShortIsLeaf(st.lams, use, TextOf(toks, use.idx), ctx); }
      var out' := if short.Some? && use.idx < |out| then out[use.idx := short.value] else out;
      ShortenUsesAt(toks, st, i + 1, ctx, out', k);
      assert ShortenedFrom(toks, st, i, ctx, k) <==>
             (use.idx == k && short.Some?) || ShortenedFrom(toks, st, i + 1, ctx, k);
    }
  }

  ghost predicate Shortened(toks: seq<Tok>, s: Stmt, ctx: string, k: nat)
    requires s.lo < s.hi <= |toks|
  {
    s.lo <= k < s.hi && Parse(toks, s.lo, s.hi).Parsed? && ShortenedFrom(toks, Parse(toks, s.lo, s.hi), 0, ctx, k)
  }

  /** Token `k` of a statement that moves into `ctx`. */
  ghost function MovedText(toks: seq<Tok>, s: Stmt, ctx: string, k: nat): string
    requires s.lo <= k < s.hi <= |toks|
  {
    if Shortened(toks, s, ctx, k) && |ctx| < |toks[k].text| then toks[k].text[|ctx| + 1..] else toks[k].text
  }

  lemma ShortenStatementAt(toks: seq<Tok>, s: Stmt, ctx: string, out: seq<string>, k: nat)
    requires s.lo < s.hi <= |toks| == |out| && k < |toks| && Parse(toks, s.lo, s.hi).Parsed?
    requires s.lo <= k < s.hi ==> out[k] == toks[k].text
    ensures ShortenUses(toks, Parse(toks, s.lo, s.hi), 0, ctx, out)[k]
            == if s.lo <= k < s.hi then MovedText(toks, s, ctx, k) else out[k]
  {
    hide ShortOf, Parse;
    var st := Parse(toks, s.lo, s.hi);
    ShortenUsesAt(toks, st, 0, ctx, out, k);
    ParseUses(toks, s.lo, s.hi);
    if ShortenedFrom(toks, st, 0, ctx, k) {
      assert s.lo <= k < s.hi;
    }
  }

  lemma {:induction false} ShortenFromAt(toks: seq<Tok>, block: seq<Stmt>, i: nat, ctx: string, out: seq<string>,
                                         k: nat)
    requires Ordered(toks, block) && AllParse(toks, block) && i <= |block| && |out| == |toks| && k < |toks|
    requires forall j :: i <= j < |block| && block[j].lo <= k < block[j].hi ==> out[k] == toks[k].text
    ensures var r := ShortenFrom(toks, block, i, ctx, out);
            && (forall j :: i <= j < |block| && block[j].lo <= k < block[j].hi ==>
                r[k] == MovedText(toks, block[j], ctx, k))
            && ((forall j :: i <= j < |block| ==> !(block[j].lo <= k < block[j].hi)) ==> r[k] == out[k])
    decreases |block| - i
  {
    hide MovedText, ShortenUses, Parse;
    if i < |block| {
      ShortenStatementAt(toks, block[i], ctx, out, k);
      ShortenFromAt(toks, block, i + 1, ctx, ShortenUses(toks, Parse(toks, block[i].lo, block[i].hi), 0, ctx, out), k);
    }
  }

  /** What the 5.0 conversion writes for token `k` of statement `j`. */
  ghost function NestText(known: Known, toks: seq<Tok>, ss: seq<Stmt>, j: nat, k: nat): string
    requires Ordered(toks, ss) && j < |ss| && ss[j].lo <= k < ss[j].hi
  {
    if !IsCodeStatement(toks, ss[j]) then
      (if k == ss[j].lo && HomeIn(known, toks, ss, j).Some? then "\\d " + HomeIn(known, toks, ss, j).value
       else toks[k].text)
    else if MovesTo(known, toks, ss, j).Some? then MovedText(toks, ss[j], MovesTo(known, toks, ss, j).value, k)
    else toks[k].text
  }

  lemma {:induction false} HeadOfBlock(toks: seq<Tok>, ss: seq<Stmt>, i: nat, j: nat)
    requires Ordered(toks, ss) && i < |ss| && i < j <= BlockStop(toks, ss, i + 1) && toks[ss[i].lo].kind == Sys
    ensures HeadBefore(toks, ss, j) == Some(i)
    decreases j
  {
    if i + 1 < j { HeadOfBlock(toks, ss, i, j - 1); }
  }

  /** The loop over statements has come to `i` outside any block that moves. */
  ghost predicate Outside(known: Known, toks: seq<Tok>, ss: seq<Stmt>, i: nat)
    requires Ordered(toks, ss)
  {
    i < |ss| ==> MovesTo(known, toks, ss, i).None?
  }

  lemma NotOpening(known: Known, toks: seq<Tok>, ss: seq<Stmt>, i: nat)
    requires Ordered(toks, ss) && i < |ss| && Outside(known, toks, ss, i) && !OpensRoot(toks[ss[i].lo])
    ensures Outside(known, toks, ss, i + 1)
    ensures forall k :: ss[i].lo <= k < ss[i].hi ==> NestText(known, toks, ss, i, k) == toks[k].text
  {
    hide HomeOf, OpensRoot;
  }

  lemma BlockMoves(known: Known, toks: seq<Tok>, ss: seq<Stmt>, i: nat, a: nat)
    requires Ordered(toks, ss) && i < |ss| && OpensRoot(toks[ss[i].lo]) && i < a < BlockStop(toks, ss, i + 1)
    ensures IsCodeStatement(toks, ss[a]) && MovesTo(known, toks, ss, a) == HomeIn(known, toks, ss, i)
  {
    HeadOfBlock(toks, ss, i, a);
    hide HomeIn;
  }

  /** A block's tokens once its statements are shortened. */
  lemma BlockShortened(toks: seq<Tok>, ss: seq<Stmt>, i: nat, j: nat, ctx: string, out: seq<string>, k: nat)
    requires Ordered(toks, ss) && i < j <= |ss| && |out| == |toks| && k < |toks|
    requires Ordered(toks, ss[i + 1..j]) && AllParse(toks, ss[i + 1..j])
    requires forall a :: i <= a < |ss| && ss[a].lo <= k < ss[a].hi ==> out[k] == toks[k].text
    ensures var r := ShortenFrom(toks, ss[i + 1..j], 0, ctx, out);
            && (forall a :: i < a < j && ss[a].lo <= k < ss[a].hi ==> r[k] == MovedText(toks, ss[a], ctx, k))
            && ((forall a :: i < a < j ==> !(ss[a].lo <= k < ss[a].hi)) ==> r[k] == out[k])
  {
    hide MovedText, ShortenFrom, AllParse;
    var block := ss[i + 1..j];
    assert forall b :: 0 <= b < |block| ==> block[b] == ss[b + i + 1];
    ShortenFromAt(toks, block, 0, ctx, out, k);
    forall a | i < a < j && ss[a].lo <= k < ss[a].hi
      ensures ShortenFrom(toks, block, 0, ctx, out)[k] == MovedText(toks, ss[a], ctx, k)
    {
      assert block[a - i - 1] == ss[a];
    }
  }

  lemma HomeParses(known: Known, toks: seq<Tok>, block: seq<Stmt>)
    requires Ordered(toks, block) && HomeOf(known, toks, block).Some?
    ensures AllParse(toks, block) && Movable(known, toks, block, HomeOf(known, toks, block).value)
    ensures |HomesFrom(toks, block, 0)| == 1 && HomeOf(known, toks, block).value in HomesFrom(toks, block, 0)
    ensures forall j :: 0 <= j < |block| ==> !AmendsRoot(toks, Parse(toks, block[j].lo, block[j].hi))
  {
    hide Movable, HomesFrom, AmendsRoot, Parse;
  }

  /** Token `k` of statements `i` to `j` is as the 5.0 conversion writes it, and as it was elsewhere. */
  ghost predicate WrittenAt(known: Known, toks: seq<Tok>, ss: seq<Stmt>, i: nat, j: nat, out: seq<string>,
                            r: seq<string>, k: nat)
    requires Ordered(toks, ss) && j <= |ss| && k < |out| && k < |r|
  {
    && (forall a :: i <= a < j && ss[a].lo <= k < ss[a].hi ==> r[k] == NestText(known, toks, ss, a, k))
    && ((forall a :: i <= a < j ==> !(ss[a].lo <= k < ss[a].hi)) ==> r[k] == out[k])
  }

  /** Token `k` of statement `a` in the block that statement `i` opens, `home` being where the block moves. */
  ghost function BlockText(toks: seq<Tok>, ss: seq<Stmt>, i: nat, home: Option<string>, a: nat, k: nat): string
    requires Ordered(toks, ss) && i <= a < |ss| && ss[a].lo <= k < ss[a].hi
  {
    if home.None? then toks[k].text
    else if a == i then (if k == ss[i].lo then "\\d " + home.value else toks[k].text)
    else MovedText(toks, ss[a], home.value, k)
  }

  ghost predicate BlockAt(toks: seq<Tok>, ss: seq<Stmt>, i: nat, j: nat, home: Option<string>, out: seq<string>,
                          r: seq<string>, k: nat)
    requires Ordered(toks, ss) && j <= |ss| && k < |out| && k < |r|
  {
    && (forall a :: i <= a < j && ss[a].lo <= k < ss[a].hi ==> r[k] == BlockText(toks, ss, i, home, a, k))
    && ((forall a :: i <= a < j ==> !(ss[a].lo <= k < ss[a].hi)) ==> r[k] == out[k])
  }

  lemma MovedBlockAt(toks: seq<Tok>, ss: seq<Stmt>, i: nat, j: nat, ctx: string, out: seq<string>, r: seq<string>,
                     k: nat)
    requires Ordered(toks, ss) && i < j <= |ss| && |out| == |toks| == |r| && k < |toks|
    requires forall a :: i < a < j && ss[a].lo <= k < ss[a].hi ==> r[k] == MovedText(toks, ss[a], ctx, k)
    requires (forall a :: i < a < j ==> !(ss[a].lo <= k < ss[a].hi)) ==> r[k] == out[k]
    requires ss[i].lo <= k < ss[i].hi ==> out[k] == toks[k].text
    ensures BlockAt(toks, ss, i, j, Some(ctx), out, r[ss[i].lo := "\\d " + ctx], k)
  {
    hide MovedText;
    if ss[i].lo <= k < ss[i].hi {
      assert forall a :: i < a < j ==> ss[i].hi <= ss[a].lo;
    }
  }

  lemma LeftBlockAt(toks: seq<Tok>, ss: seq<Stmt>, i: nat, j: nat, out: seq<string>, k: nat)
    requires Ordered(toks, ss) && i < j <= |ss| && |out| == |toks| && k < |toks|
    requires forall a :: i <= a < |ss| && ss[a].lo <= k < ss[a].hi ==> out[k] == toks[k].text
    ensures BlockAt(toks, ss, i, j, None, out, out, k)
  {
  }

  lemma BlockNestText(known: Known, toks: seq<Tok>, ss: seq<Stmt>, i: nat, a: nat, k: nat)
    requires Ordered(toks, ss) && i < |ss| && OpensRoot(toks[ss[i].lo]) && i <= a < BlockStop(toks, ss, i + 1)
    requires ss[a].lo <= k < ss[a].hi
    ensures NestText(known, toks, ss, a, k) == BlockText(toks, ss, i, HomeIn(known, toks, ss, i), a, k)
  {
    if i < a {
      BlockMoves(known, toks, ss, i, a);
    } else {
      assert !IsCodeStatement(toks, ss[i]);
    }
    hide MovedText, MovesTo, IsCodeStatement, HomeIn, OpensRoot, BlockStop;
  }

  lemma BlockAtIsWritten(known: Known, toks: seq<Tok>, ss: seq<Stmt>, i: nat, out: seq<string>, r: seq<string>, k: nat)
    requires Ordered(toks, ss) && i < |ss| && OpensRoot(toks[ss[i].lo]) && k < |out| && k < |r|
    requires BlockAt(toks, ss, i, BlockStop(toks, ss, i + 1), HomeIn(known, toks, ss, i), out, r, k)
    ensures WrittenAt(known, toks, ss, i, BlockStop(toks, ss, i + 1), out, r, k)
  {
    hide NestText, BlockText, HomeIn, OpensRoot;
    var j := BlockStop(toks, ss, i + 1);
    forall a | i <= a < j && ss[a].lo <= k < ss[a].hi
      ensures NestText(known, toks, ss, a, k) == BlockText(toks, ss, i, HomeIn(known, toks, ss, i), a, k)
    {
      BlockNestText(known, toks, ss, i, a, k);
    }
  }

  /** What the conversion makes of the block that statement `i` opens. */
  ghost function BlockOut(known: Known, toks: seq<Tok>, ss: seq<Stmt>, i: nat, out: seq<string>): (r: seq<string>)
    requires Ordered(toks, ss) && i < |ss|
    ensures |r| == |out|
  {
    var j := BlockStop(toks, ss, i + 1);
    if IsCandidate(toks, ss, i, j) then NestBlock(known, toks, ss[i].lo, ss[i + 1..j], out) else out
  }

  lemma HomeOut(known: Known, toks: seq<Tok>, ss: seq<Stmt>, i: nat, out: seq<string>)
    requires Ordered(toks, ss) && i < |ss| && |out| == |toks|
    ensures var h := HomeIn(known, toks, ss, i);
            var block := ss[i + 1..BlockStop(toks, ss, i + 1)];
            && (h.None? ==> BlockOut(known, toks, ss, i, out) == out)
            && (h.Some? ==> Ordered(toks, block) && AllParse(toks, block) &&
                            BlockOut(known, toks, ss, i, out)
                            == ShortenFrom(toks, block, 0, h.value, out)[ss[i].lo := "\\d " + h.value])
  {
    var j := BlockStop(toks, ss, i + 1);
    var block := ss[i + 1..j];
    assert Ordered(toks, block);
    if HomeIn(known, toks, ss, i).Some? { HomeParses(known, toks, block); }
    hide HomeOf, ShortenFrom, AllParse, IsCandidate;
  }

  lemma BlockWritten(known: Known, toks: seq<Tok>, ss: seq<Stmt>, i: nat, out: seq<string>, k: nat)
    requires Ordered(toks, ss) && i < |ss| && OpensRoot(toks[ss[i].lo]) && |out| == |toks| && k < |toks|
    requires forall j :: i <= j < |ss| && ss[j].lo <= k < ss[j].hi ==> out[k] == toks[k].text
    ensures WrittenAt(known, toks, ss, i, BlockStop(toks, ss, i + 1), out, BlockOut(known, toks, ss, i, out), k)
  {
    HomeOut(known, toks, ss, i, out);
    hide HomeIn, OpensRoot, BlockOut, WrittenAt, BlockAt, ShortenFrom, AllParse, MovedText;
    var j := BlockStop(toks, ss, i + 1);
    if HomeIn(known, toks, ss, i).Some? {
      var ctx := HomeIn(known, toks, ss, i).value;
      BlockShortened(toks, ss, i, j, ctx, out, k);
      MovedBlockAt(toks, ss, i, j, ctx, out, ShortenFrom(toks, ss[i + 1..j], 0, ctx, out), k);
    } else {
      LeftBlockAt(toks, ss, i, j, out, k);
    }
    BlockAtIsWritten(known, toks, ss, i, out, BlockOut(known, toks, ss, i, out), k);
  }

  lemma {:induction false} NestFromAt(known: Known, toks: seq<Tok>, ss: seq<Stmt>, i: nat, out: seq<string>, k: nat)
    requires Ordered(toks, ss) && i <= |ss| && |out| == |toks| && k < |toks| && Outside(known, toks, ss, i)
    requires forall j :: i <= j < |ss| && ss[j].lo <= k < ss[j].hi ==> out[k] == toks[k].text
    ensures WrittenAt(known, toks, ss, i, |ss|, out, NestFrom(known, toks, ss, i, out), k)
    decreases |ss| - i
  {
    hide NestText, BlockOut, OpensRoot, HomeIn, MovesTo;
    if i < |ss| {
      if !OpensRoot(toks[ss[i].lo]) {
        NotOpening(known, toks, ss, i);
        NestFromAt(known, toks, ss, i + 1, out, k);
      } else {
        var j := BlockStop(toks, ss, i + 1);
        BlockWritten(known, toks, ss, i, out, k);
        OutsideAfter(known, toks, ss, j);
        NestFromAt(known, toks, ss, j, BlockOut(known, toks, ss, i, out), k);
        NestFromBlock(known, toks, ss, i, out);
      }
    }
  }

  lemma NestFromBlock(known: Known, toks: seq<Tok>, ss: seq<Stmt>, i: nat, out: seq<string>)
    requires Ordered(toks, ss) && i < |ss| && OpensRoot(toks[ss[i].lo]) && |out| == |toks|
    ensures NestFrom(known, toks, ss, i, out)
            == NestFrom(known, toks, ss, BlockStop(toks, ss, i + 1), BlockOut(known, toks, ss, i, out))
  {
    hide OpensRoot, IsCandidate, NestBlock;
  }

  lemma OutsideAfter(known: Known, toks: seq<Tok>, ss: seq<Stmt>, j: nat)
    requires Ordered(toks, ss) && (j < |ss| ==> toks[ss[j].lo].kind == Sys || toks[ss[j].lo].kind == Tail)
    ensures Outside(known, toks, ss, j)
  {
    hide HomeIn;
  }

  /** The 5.0 conversion, token by token. */
  lemma {:induction false} NestOutput(known: Known, toks: seq<Tok>, out: seq<string>)
    requires out == NestFrom(known, toks, StatementsOf(toks), 0, Texts(toks))
    ensures |out| == |toks|
    ensures forall k :: 0 <= k < |toks| ==>
              WrittenAt(known, toks, StatementsOf(toks), 0, |StatementsOf(toks)|, Texts(toks), out, k)
  {
    hide WrittenAt, StatementsOf, NestFrom, MovesTo;
    var ss := StatementsOf(toks);
    assert Ordered(toks, ss);
    forall k | 0 <= k < |toks| ensures WrittenAt(known, toks, ss, 0, |ss|, Texts(toks), out, k) {
      FirstOutside(known, toks, ss);
      NestFromAt(known, toks, ss, 0, Texts(toks), k);
    }
  }

  lemma FirstOutside(known: Known, toks: seq<Tok>, ss: seq<Stmt>)
    requires Ordered(toks, ss)
    ensures Outside(known, toks, ss, 0)
  {
    hide HomeIn;
  }
}
