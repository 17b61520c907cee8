/** The converter as the source runs it: an object that collects what the inputs
    define, settles it, and converts files by overwriting their tokens' texts. */
module ConverterClass {
  import opened Options
  import opened Chars
  import opened Lexer
  import opened LexLoop
  import opened Scanner
  import opened StatementClass
  import opened Converter
  import opened Levels

  class Run {
    const target: Target
    const allowComputed: bool
    var defined: map<string, set<string>>
    var functions: map<string, Fn>

    function Knows(): Known
      reads this
    {
      Known(defined, functions)
    }

    constructor (target: Target, allowComputed: bool)
      ensures this.target == target && this.allowComputed == allowComputed && Knows() == NOTHING
    {
      this.target, this.allowComputed := target, allowComputed;
      defined, functions := map[], map[];
    }

    // ---- the first pass

    method CollectStatementInto(toks: seq<Tok>, s: Stmt)
      requires s.lo < s.hi <= |toks|
      modifies this
      ensures Knows() == CollectStatement(toks, s, old(Knows()))
    {
      hide Parse, Defines, AddName, Qualified, Calls, OwnLevel;
      if toks[s.lo].kind == Sys || toks[s.lo].kind == Tail {
        return;
      }
      var st := Analyse(toks, s.lo, s.hi);
      if st.Refused? {
        return;
      }
      ghost var before := defined;
      var i := 0;
      while i < |st.uses|
        invariant i <= |st.uses| && functions == old(functions)
        invariant CollectUses(toks, st, s.ctx, i, defined) == CollectUses(toks, st, s.ctx, 0, before)
      {
        if Defines(toks, st, st.uses[i]) {
          defined := AddName(defined, Qualified(s.ctx, TextOf(toks, st.uses[i].idx)));
        }
        i := i + 1;
      }
      assert defined == CollectUses(toks, st, s.ctx, 0, before);
      if st.definition.Some? {
        var level, k := 0, 0;
        assert level == OwnLevel(st.lookups[..0]) by {
          NoLookups(st.lookups);
        }
        while k < |st.lookups|
          invariant k <= |st.lookups| && level == OwnLevel(st.lookups[..k])
          invariant functions == old(functions) && defined == CollectUses(toks, st, s.ctx, 0, before)
        {
          OwnLevelSnoc(st.lookups, k);
          if st.lookups[k].level > level {
            level := st.lookups[k].level;
          }
          k := k + 1;
        }
        assert st.lookups[..k] == st.lookups;
        functions := functions[Qualified(s.ctx, st.definition.value) := Fn(level, Calls(toks, st, s.ctx, false))];
      }
    }

    method CollectFile(text: string)
      modifies this
      ensures Knows() == Collect(text, old(Knows()))
    {
      hide CollectStatement, StatementsOf, LexOf;
      var lexed := Lex(text);
      if lexed.Unclosed? {
        return;
      }
      var toks := lexed.toks;
      var ss := StatementsOf(toks);
      var i := 0;
      while i < |ss|
        invariant i <= |ss|
        invariant CollectFrom(toks, ss, i, Knows()) == CollectFrom(toks, ss, 0, old(Knows()))
      {
        CollectStatementInto(toks, ss[i]);
        i := i + 1;
      }
    }

    /** Settles every function's level, once every input is collected. */
    method Settle()
      modifies this`functions
      ensures functions == Settled(old(functions))
    {
      hide Settled;
      functions := Propagate(functions);
    }

    // ---- the second pass: 4.0

    method BindAll(out: array<string>, refused: bool, toks: seq<Tok>, st: Statement, ctx: string,
                   mine: set<string>) returns (refused': bool)
      requires st.Parsed? && out.Length == |toks|
      modifies out
      ensures Conv(out[..], refused') == BindUses(toks, st, 0, ctx, mine, Conv(old(out[..]), refused))
    {
      hide BindingOf;
      refused' := refused;
      var i := 0;
      while i < |st.uses|
        invariant i <= |st.uses|
        invariant BindUses(toks, st, i, ctx, mine, Conv(out[..], refused'))
                  == BindUses(toks, st, 0, ctx, mine, Conv(old(out[..]), refused))
      {
        var use := st.uses[i];
        ghost var before := Conv(out[..], refused');
        var b := BindingOf(st.lams, use, TextOf(toks, use.idx), mine);
        if b == Refuse {
          refused' := true;
        } else if b == Qualify && use.idx < out.Length {
          out[use.idx] := ctx + "." + TextOf(toks, use.idx);
        }
        assert Conv(out[..], refused') == BindUse(toks, st.lams, use, ctx, mine, before);
        i := i + 1;
      }
    }

    method RewriteInto(out: array<string>, refused: bool, toks: seq<Tok>, s: Stmt) returns (refused': bool)
      requires s.lo < s.hi <= |toks| == out.Length
      modifies out
      ensures Conv(out[..], refused') == RewriteStatement(Knows(), allowComputed, toks, s, Conv(old(out[..]), refused))
    {
      hide Parse, LoadTimeHazard, BindUses;
      var st := Analyse(toks, s.lo, s.hi);
      if st.Refused? {
        return true;
      }
      var hazard := LoadTimeHazard(Knows(), allowComputed, toks, st, s.ctx);
      refused' := BindAll(out, refused || hazard, toks, st, s.ctx, Knows().DefinedIn(s.ctx));
    }

    method ConvertInto(out: array<string>, refused: bool, toks: seq<Tok>, s: Stmt) returns (refused': bool)
      requires s.lo < s.hi <= |toks| == out.Length
      modifies out
      ensures Conv(out[..], refused')
              == ConvertStatement(Knows(), allowComputed, target, toks, s, Conv(old(out[..]), refused))
    {
      hide RewriteStatement, HidesSwitches, ContextOf, CountOf;
      refused' := refused;
      var head := toks[s.lo];
      if head.kind == Tail {
        return;
      }
      if head.kind == Sys {
        var ctx := ContextOf(head.text);
        if ctx.Some? {
          if ctx.value != "" && ctx.value[0] != '.' {
            refused' := true;
          } else if target == Flat && Nested(ctx.value) {
            out[s.lo] := ROOT_LINE;
          }
        } else if target == Flat && Nested(s.ctx) {
          refused' := true;
        }
        return;
      }
      if target == Flat {
        if HidesSwitches(toks, s.lo, s.hi) {
          refused' := true;
        }
        if Nested(s.ctx) {
          refused' := RewriteInto(out, refused', toks, s);
        }
      }
    }

    // ---- the second pass: 5.0

    method ShortenAll(out: array<string>, toks: seq<Tok>, st: Statement, ctx: string)
      requires st.Parsed? && out.Length == |toks|
      modifies out
      ensures out[..] == ShortenUses(toks, st, 0, ctx, old(out[..]))
    {
      hide ShortOf;
      var i := 0;
      while i < |st.uses|
        invariant i <= |st.uses|
        invariant ShortenUses(toks, st, i, ctx, out[..]) == ShortenUses(toks, st, 0, ctx, old(out[..]))
      {
        var use := st.uses[i];
        var short := ShortOf(st.lams, use, TextOf(toks, use.idx), ctx);
        if short.Some? && use.idx < out.Length {
          ghost var before := out[..];
          out[use.idx] := short.value;
          assert out[..] == before[use.idx := short.value];
        }
        i := i + 1;
      }
    }

    /** The one context the block's definitions share, if it can move there. */
    method FindHome(toks: seq<Tok>, block: seq<Stmt>) returns (home: Option<string>)
      requires forall j :: 0 <= j < |block| ==> block[j].lo < block[j].hi <= |toks|
      ensures home == HomeOf(Knows(), toks, block)
    {
      hide Parse, AmendsRoot, HomesOf, Unmovable;
      var j := 0;
      while j < |block|
        invariant j <= |block| && forall k :: 0 <= k < j ==> Parse(toks, block[k].lo, block[k].hi).Parsed?
      {
        var st := Analyse(toks, block[j].lo, block[j].hi);
        if st.Refused? {
          return None;
        }
        j := j + 1;
      }
      var homes: set<string> := {};
      j := 0;
      while j < |block|
        invariant j <= |block| && AllParse(toks, block)
        invariant forall k :: 0 <= k < j ==> !AmendsRoot(toks, Parse(toks, block[k].lo, block[k].hi))
        invariant homes + HomesFrom(toks, block, j) == HomesFrom(toks, block, 0)
      {
        var st := Analyse(toks, block[j].lo, block[j].hi);
        if AmendsRoot(toks, st) {
          return None;
        }
        homes := homes + HomesOf(toks, st);
        j := j + 1;
      }
      if |homes| != 1 {
        return None;
      }
      var ctx :| ctx in homes;
      OneHome(homes, ctx);
      home := if Movable(Knows(), toks, block, ctx) then Some(ctx) else None;
    }

    method NestBlockInto(out: array<string>, toks: seq<Tok>, head: nat, block: seq<Stmt>)
      requires head < |toks| == out.Length && forall j :: 0 <= j < |block| ==> block[j].lo < block[j].hi <= |toks|
      modifies out
      ensures out[..] == NestBlock(Knows(), toks, head, block, old(out[..]))
    {
      hide Parse, ShortenUses, Movable, HomesFrom, AmendsRoot;
      var home := FindHome(toks, block);
      if home.None? {
        return;
      }
      var ctx := home.value;
      var j := 0;
      while j < |block|
        invariant j <= |block| && AllParse(toks, block)
        invariant ShortenFrom(toks, block, j, ctx, out[..]) == ShortenFrom(toks, block, 0, ctx, old(out[..]))
      {
        var st := Analyse(toks, block[j].lo, block[j].hi);
        ShortenAll(out, toks, st, ctx);
        j := j + 1;
      }
      ghost var before := out[..];
      out[head] := "\\d " + ctx;
      assert out[..] == before[head := "\\d " + ctx];
    }

    method NestInto(out: array<string>, toks: seq<Tok>, ss: seq<Stmt>)
      requires out.Length == |toks| && forall k :: 0 <= k < |ss| ==> ss[k].lo < ss[k].hi <= |toks|
      modifies out
      ensures out[..] == NestFrom(Knows(), toks, ss, 0, old(out[..]))
    {
      hide NestBlock, ContextOf;
      var i := 0;
      while i < |ss|
        invariant i <= |ss|
        invariant NestFrom(Knows(), toks, ss, i, out[..]) == NestFrom(Knows(), toks, ss, 0, old(out[..]))
      {
        if !OpensRoot(toks[ss[i].lo]) {
          i := i + 1;
        } else {
          var j := i + 1;
          while j < |ss| && toks[ss[j].lo].kind != Sys && toks[ss[j].lo].kind != Tail
            invariant i + 1 <= j <= |ss|
            invariant BlockStop(toks, ss, j) == BlockStop(toks, ss, i + 1)
          {
            j := j + 1;
          }
          if j < |ss| && ContextOf(toks[ss[j].lo].text).Some? && j > i + 1 {
            NestBlockInto(out, toks, ss[i].lo, ss[i + 1..j]);
          }
          i := j;
        }
      }
    }

    /** One file: what the results are about, written in place over the tokens' texts. */
    method ConvertFile(text: string) returns (r: Outcome)
      ensures r == Convert(Knows(), allowComputed, target, text)
    {
      hide ConvertStatement, NestFrom, StatementsOf, LexOf, Join;
      var lexed := Lex(text);
      if lexed.Unclosed? {
        return Rejected;
      }
      var toks := lexed.toks;
      var ss := StatementsOf(toks);
      var out := new string[|toks|](k requires 0 <= k < |toks| => toks[k].text);
      assert out[..] == Texts(toks);
      var refused := false;
      var i := 0;
      while i < |ss|
        invariant i <= |ss| && out.Length == |toks|
        invariant ConvertFrom(Knows(), allowComputed, target, toks, ss, i, Conv(out[..], refused))
                  == ConvertFrom(Knows(), allowComputed, target, toks, ss, 0, Conv(Texts(toks), false))
      {
        refused := ConvertInto(out, refused, toks, ss[i]);
        i := i + 1;
      }
      if target == Target.Nest {
        NestInto(out, toks, ss);
      }
      r := if refused then Rejected else Written(Join(out[..]));
    }
  }

  lemma NoLookups(lookups: seq<Lookup>)
    ensures OwnLevel(lookups[..0]) == 0
  {
  }

  lemma OwnLevelSnoc(lookups: seq<Lookup>, k: nat)
    requires k < |lookups|
    ensures OwnLevel(lookups[..k + 1]) == if lookups[k].level > OwnLevel(lookups[..k]) then lookups[k].level
            else OwnLevel(lookups[..k])
  {
    assert lookups[..k + 1][..k] == lookups[..k];
  }

  lemma OneHome(homes: set<string>, ctx: string)
    requires |homes| == 1 && ctx in homes
    ensures forall h :: h in homes ==> h == ctx
  {
    assert |homes - {ctx}| == 0;
    assert homes == {ctx} + (homes - {ctx});
  }
}
