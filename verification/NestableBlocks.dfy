/** Which root blocks move into a nested context, said by what their names denote and what runs as they load. */
module NestableBlocks {
  import opened Options
  import opened Chars
  import opened Lexer
  import opened QWords
  import opened Scanner
  import opened Renaming
  import opened Converter
  import opened StatementStarts
  import opened Levels
  import opened Flatten
  import opened FlattenLexing
  import opened Meaning
  import opened Nesting

  // ---- contexts by their letters

  /** A context two deep at least: `.a.b`. */
  predicate Deep(ctx: string) { ctx != "" && ctx[0] == '.' && '.' in ctx[1..] }

  /** The name is one undotted word under `home`. */
  ghost predicate Under(name: string, home: string) {
    home != "" && exists leaf :: '.' !in leaf && name == home + "." + leaf
  }

  lemma DeepIsNested(ctx: string)
    ensures Deep(ctx) <==> Nested(ctx)
  {
    if ctx != "" {
      assert ctx == ctx[..1] + ctx[1..];
      NoneCounted(ctx[1..], '.');
      assert CountOf(ctx, '.') == (if ctx[0] == '.' then 1 else 0) + CountOf(ctx[1..], '.');
    }
  }

  lemma UnderIsParent(name: string, home: string)
    ensures Under(name, home) <==> home != "" && ParentOf(name) == home
  {
    hide LastOf;
    if Under(name, home) {
      var leaf :| '.' !in leaf && name == home + "." + leaf;
      LastDot(name, home, leaf);
    }
    if home != "" && ParentOf(name) == home {
      var k := LastOf(name, '.');
      var leaf := name[k + 1..];
      LeafHasNone(name, k);
      assert name == name[..k] + "." + leaf;
    }
  }

  lemma LastDot(name: string, home: string, leaf: string)
    requires '.' !in leaf && name == home + "." + leaf && home != ""
    ensures ParentOf(name) == home
  {
    hide LastOf;
    assert name[|home|] == '.';
    forall i | |home| < i < |name| ensures name[i] != '.' { assert name[i] == leaf[i - |home| - 1]; }
    assert LastOf(name, '.') == |home|;
    assert name[..|home|] == home;
  }

  lemma LeafHasNone(name: string, k: int)
    requires -1 <= k < |name| && forall i :: k < i < |name| ==> name[i] != '.'
    ensures '.' !in name[k + 1..]
  {
    var leaf := name[k + 1..];
    assert forall i :: 0 <= i < |leaf| ==> leaf[i] == name[k + 1 + i];
  }

  // ---- what a use means at the root and in the context

  predicate DefinedSomewhere(known: Known, name: string, ctx: string) {
    name in known.DefinedIn(".") || name in known.DefinedIn(ctx)
  }

  predicate Amending(role: Role) { role == Assign || role == GAssign || role == Compound || role == Indexed }

  /** A name amended in a qSQL phrase is taken for a column as one that is read there would be. */
  function AsRead(use: Use): Use { if use.columnCtx && Amending(use.role) then use.(role := Ref) else use }

  /** The use denotes the same at the root and in `ctx`, a name in a phrase being a column
      or, where the inputs define it, perhaps none. */
  ghost predicate MeansSame(known: Known, lams: seq<Lambda>, use: Use, name: string, ctx: string) {
    forall isColumn: bool ::
      isColumn || DefinedSomewhere(known, name, ctx) ==> SameIfColumn(lams, use, name, ctx, isColumn)
  }

  predicate SameIfColumn(lams: seq<Lambda>, use: Use, name: string, ctx: string, isColumn: bool) {
    Denotes(lams, AsRead(use), name, ".", isColumn) == Denotes(lams, AsRead(use), name, ctx, isColumn)
  }

  lemma StaysIff(known: Known, toks: seq<Tok>, st: Statement, use: Use, ctx: string)
    requires st.Parsed? && Nested(ctx)
    requires use.role == Assign && use.lam.Some? && IsRelative(TextOf(toks, use.idx)) ==>
               IsLocalIn(st.lams, use.lam, TextOf(toks, use.idx))
    ensures !UseStays(known, toks, st, use, ctx) <==> MeansSame(known, st.lams, use, TextOf(toks, use.idx), ctx)
  {
    var name := TextOf(toks, use.idx);
    NestedIsNotRoot(ctx);
    assert name != ctx + "." + name;
    StartIsBuiltin(name);
    SameWhenNot(known, st.lams, use, name, ctx);
    hide IsBuiltin, IsLocalIn, Nested, Denotes, SameIfColumn;
    assert MeansSame(known, st.lams, use, name, ctx) <==>
           SameIfColumn(st.lams, use, name, ctx, true) &&
           (DefinedSomewhere(known, name, ctx) ==> SameIfColumn(st.lams, use, name, ctx, false));
  }

  lemma StartIsBuiltin(name: string)
    ensures name in QSQL_START ==> IsBuiltin(name)
  {
  }

  lemma SameWhenNot(known: Known, lams: seq<Lambda>, use: Use, name: string, ctx: string)
    requires ctx != "" && ctx != "." && name != ctx + "." + name
    ensures forall isColumn: bool :: SameIfColumn(lams, use, name, ctx, isColumn) <==>
              || !IsRelative(name) || use.role == Column || IsLocalIn(lams, use.lam, name) || IsBuiltin(name)
              || (use.columnCtx && (name == "i" || isColumn))
  {
    hide IsBuiltin, IsLocalIn;
  }

  /** SHORT NAMES. A name loses its context exactly when it stands directly under it
      and the bare word, used where the name is and in no column phrase, denotes the same. */
  lemma ShortExactly(lams: seq<Lambda>, use: Use, name: string, ctx: string, leaf: string)
    requires Nested(ctx)
    ensures ShortOf(lams, use, name, ctx) == Some(leaf) <==>
              && name == ctx + "." + leaf && '.' !in leaf && !use.columnCtx && use.role != Column
              && !(use.role == Assign && use.lam.Some?)
              && Denotes(lams, use, leaf, ctx, false) == GlobalName(name)
  {
    NestedIsNotRoot(ctx);
    PhraseWordsBuiltin(leaf);
    if name == ctx + "." + leaf {
      assert name[..|ctx| + 1] == ctx + "." && name[|ctx| + 1..] == leaf;
    }
    if ShortOf(lams, use, name, ctx).Some? { ShortIsLeaf(lams, use, name, ctx); }
    hide IsBuiltin, IsLocalIn;
  }

  lemma PhraseWordsBuiltin(name: string)
    ensures name in QSQL_START || name in QSQL_NEXT ==> IsBuiltin(name)
  {
  }

  // ---- what runs while the file loads

  /** Some function reached from `f` along recorded calls looks a name up itself. */
  ghost predicate ReachesLookup(fs: Functions, f: string) {
    exists g :: g in fs && Reaches(fs, f, g) && fs[g].level > 0
  }

  lemma LevelIsReached(known: Known, fs: Functions, f: string)
    requires known.functions == Settled(fs)
    ensures known.LevelOf(f) > 0 <==> ReachesLookup(fs, f)
  {
    hide Reaches, TopLevel;
    if f in fs && known.LevelOf(f) > 0 { var g := TopIsReached(fs, f); }
    if g :| g in fs && Reaches(fs, f, g) && fs[g].level > 0 {
      ReachedIsThere(fs, f, g);
      TopIsBound(fs, f, g);
    }
  }

  lemma ReachedIsThere(fs: Functions, f: string, g: string)
    requires Reaches(fs, f, g)
    ensures f in fs
  {
    var p :| Joins(fs, p, f, g);
  }

  /** The use applies the global of this name in `ctx`, as its statement runs. */
  predicate AppliesGlobal(toks: seq<Tok>, st: Statement, use: Use, ctx: string, callee: string)
    requires st.Parsed?
  {
    var name := TextOf(toks, use.idx);
    && use.role == Ref && use.called && !use.columnCtx && InlineIn(st.lams, use.lam)
    && !IsLocalIn(st.lams, use.lam, name) && Denotes(st.lams, use, name, ctx, false) == GlobalName(callee)
  }

  lemma CallsAre(toks: seq<Tok>, st: Statement, ctx: string, callee: string)
    requires st.Parsed?
    ensures callee in Calls(toks, st, ctx, true) <==>
              exists i :: 0 <= i < |st.uses| && AppliesGlobal(toks, st, st.uses[i], ctx, callee)
  {
    hide IsCall, AppliesGlobal, TextOf, Qualified;
    forall i | 0 <= i < |st.uses|
      ensures AppliesGlobal(toks, st, st.uses[i], ctx, callee) <==>
                IsCall(toks, st, st.uses[i], true) && Qualified(ctx, TextOf(toks, st.uses[i].idx)) == callee {
      CallIs(toks, st, st.uses[i], ctx, callee);
    }
  }

  lemma CallIs(toks: seq<Tok>, st: Statement, use: Use, ctx: string, callee: string)
    requires st.Parsed?
    ensures AppliesGlobal(toks, st, use, ctx, callee) <==>
              IsCall(toks, st, use, true) && Qualified(ctx, TextOf(toks, use.idx)) == callee
  {
    var name := TextOf(toks, use.idx);
    if IsBuiltin(name) { BuiltinIsBare(name); }
    hide IsBuiltin, IsLocalIn, InlineIn;
  }

  /** What the statement does while the file loads looks nothing up by name. */
  ghost predicate LoadsQuietly(fs: Functions, toks: seq<Tok>, st: Statement)
    requires st.Parsed?
  {
    st.definition.None? ==>
      && (forall i :: 0 <= i < |st.lookups| ==> !InlineIn(st.lams, st.lookups[i].lam))
      && (forall i, callee :: 0 <= i < |st.uses| && AppliesGlobal(toks, st, st.uses[i], ".", callee) ==>
            !ReachesLookup(fs, callee))
  }

  lemma QuietIff(known: Known, fs: Functions, toks: seq<Tok>, st: Statement)
    requires st.Parsed? && known.functions == Settled(fs)
    ensures LoadsQuietly(fs, toks, st) <==>
              (st.definition.None? ==>
                 && !(exists i :: 0 <= i < |st.lookups| && InlineIn(st.lams, st.lookups[i].lam))
                 && !(exists callee :: callee in Calls(toks, st, ".", true) && known.LevelOf(callee) > 0))
  {
    hide InlineIn, AppliesGlobal, ReachesLookup, Calls;
    forall callee ensures callee in Calls(toks, st, ".", true) <==>
                            exists i :: 0 <= i < |st.uses| && AppliesGlobal(toks, st, st.uses[i], ".", callee)
                  ensures known.LevelOf(callee) > 0 <==> ReachesLookup(fs, callee) {
      CallsAre(toks, st, ".", callee);
      LevelIsReached(known, fs, callee);
    }
  }

  // ---- one block

  /** At its statement's top level the use gives a global its value. */
  predicate GivesGlobal(use: Use) { use.lam.None? && Amending(use.role) }

  /** The use gives no global of the root, none in a nested context but `ctx`, and means the same in `ctx`. */
  ghost predicate UseLives(known: Known, toks: seq<Tok>, st: Statement, use: Use, ctx: string)
    requires st.Parsed?
  {
    var name := TextOf(toks, use.idx);
    && (GivesGlobal(use) ==> !IsRelative(name))
    && (GivesGlobal(use) ==> forall home :: Deep(home) && Under(name, home) ==> home == ctx)
    && MeansSame(known, st.lams, use, name, ctx)
  }

  ghost predicate StatementLives(known: Known, fs: Functions, toks: seq<Tok>, st: Statement, ctx: string)
    requires st.Parsed?
  {
    (forall i :: 0 <= i < |st.uses| ==> UseLives(known, toks, st, st.uses[i], ctx)) && LoadsQuietly(fs, toks, st)
  }

  /** Some statement gives a global directly under `ctx` its value. */
  ghost predicate GivesIn(toks: seq<Tok>, st: Statement, ctx: string)
    requires st.Parsed?
  {
    exists i :: 0 <= i < |st.uses| && GivesGlobal(st.uses[i]) && Under(TextOf(toks, st.uses[i].idx), ctx)
  }

  function ParsedAt(toks: seq<Tok>, block: seq<Stmt>, j: nat): Statement
    requires j < |block| && block[j].lo < block[j].hi <= |toks|
  {
    Parse(toks, block[j].lo, block[j].hi)
  }

  /** The block can run in `ctx`, its one home, as it runs at the root. */
  ghost predicate LivesIn(known: Known, fs: Functions, toks: seq<Tok>, block: seq<Stmt>, ctx: string)
    requires forall j :: 0 <= j < |block| ==> block[j].lo < block[j].hi <= |toks|
  {
    && Deep(ctx)
    && (forall j :: 0 <= j < |block| ==>
          ParsedAt(toks, block, j).Parsed? && StatementLives(known, fs, toks, ParsedAt(toks, block, j), ctx))
    && (exists j :: 0 <= j < |block| && GivesIn(toks, ParsedAt(toks, block, j), ctx))
  }

  // ---- the conversion's own test is this one

  lemma GivesRoot(toks: seq<Tok>, st: Statement)
    requires st.Parsed?
    ensures !AmendsRoot(toks, st) <==>
              forall i :: 0 <= i < |st.uses| && GivesGlobal(st.uses[i]) ==> !IsRelative(TextOf(toks, st.uses[i].idx))
  {
    hide IsRelative, TextOf;
    assert forall i :: 0 <= i < |st.uses| ==>
             (GivesGlobal(st.uses[i]) <==> st.uses[i].lam.None? && Amends(st.uses[i]));
  }

  lemma HomeIs(toks: seq<Tok>, st: Statement, home: string)
    requires st.Parsed?
    ensures home in HomesOf(toks, st) <==> Deep(home) && GivesIn(toks, st, home)
  {
    DeepIsNested(home);
    forall i | 0 <= i < |st.uses|
      ensures st.uses[i].lam.None? && Amends(st.uses[i]) && Nested(ParentOf(TextOf(toks, st.uses[i].idx))) &&
              ParentOf(TextOf(toks, st.uses[i].idx)) == home
              <==> Deep(home) && GivesGlobal(st.uses[i]) && Under(TextOf(toks, st.uses[i].idx), home) {
      UnderIsParent(TextOf(toks, st.uses[i].idx), home);
    }
    hide Under, TextOf, ParentOf, Nested, Deep, GivesGlobal;
  }

  lemma {:induction false} HomesAre(toks: seq<Tok>, block: seq<Stmt>, i: nat, home: string)
    requires i <= |block| && forall j :: 0 <= j < |block| ==> block[j].lo < block[j].hi <= |toks|
    requires AllParse(toks, block)
    ensures home in HomesFrom(toks, block, i) <==>
              exists j :: i <= j < |block| && home in HomesOf(toks, Parse(toks, block[j].lo, block[j].hi))
    decreases |block| - i
  {
    hide Parse, HomesOf;
    if i < |block| { HomesAre(toks, block, i + 1, home); }
  }

  lemma OneHome(homes: set<string>, ctx: string)
    ensures |homes| == 1 && ctx in homes <==> homes == {ctx}
  {
    if |homes| == 1 && ctx in homes {
      assert |homes - {ctx}| == 0;
      assert homes == {ctx} + (homes - {ctx});
    }
  }

  lemma StatementIff(known: Known, fs: Functions, toks: seq<Tok>, lo: nat, hi: nat, ctx: string)
    requires hi <= |toks| && Parse(toks, lo, hi).Parsed? && Nested(ctx) && known.functions == Settled(fs)
    ensures var st := Parse(toks, lo, hi);
            StatementLives(known, fs, toks, st, ctx) <==>
              && !AmendsRoot(toks, st) && !Unmovable(known, toks, st, ctx)
              && forall home :: home in HomesOf(toks, st) ==> home == ctx
  {
    hide *;
    var st := Parse(toks, lo, hi);
    ParseLocals(toks, lo, hi);
    UnmovableIs(known, toks, st, ctx);
    QuietIff(known, fs, toks, st);
    GivesRoot(toks, st);
    forall i | 0 <= i < |st.uses|
      ensures !UseStays(known, toks, st, st.uses[i], ctx) <==>
                MeansSame(known, st.lams, st.uses[i], TextOf(toks, st.uses[i].idx), ctx) {
      AssignMakes(st.uses[i]);
      StaysIff(known, toks, st, st.uses[i], ctx);
    }
    forall home ensures home in HomesOf(toks, st) <==> Deep(home) && GivesIn(toks, st, home) { HomeIs(toks, st, home); }
    LivesBy(known, fs, toks, st, ctx);
  }

  lemma AssignMakes(use: Use)
    ensures use.role == Assign && use.lam.Some? ==> MakesLocal(use.role, use.lam)
  {
  }

  lemma UnmovableIs(known: Known, toks: seq<Tok>, st: Statement, ctx: string)
    requires st.Parsed?
    ensures Unmovable(known, toks, st, ctx) <==>
              || (exists i :: 0 <= i < |st.uses| && UseStays(known, toks, st, st.uses[i], ctx))
              || (st.definition.None? &&
                  ((exists i :: 0 <= i < |st.lookups| && InlineIn(st.lams, st.lookups[i].lam))
                   || (exists callee :: callee in Calls(toks, st, ".", true) && known.LevelOf(callee) > 0)))
  {
    hide UseStays, InlineIn, Calls;
  }

  /** The statement's test, part by part. */
  lemma LivesBy(known: Known, fs: Functions, toks: seq<Tok>, st: Statement, ctx: string)
    requires st.Parsed?
    ensures StatementLives(known, fs, toks, st, ctx) <==>
              && (forall i ::
                    0 <= i < |st.uses| && GivesGlobal(st.uses[i]) ==> !IsRelative(TextOf(toks, st.uses[i].idx)))
              && (forall home :: Deep(home) && GivesIn(toks, st, home) ==> home == ctx)
              && (forall i :: 0 <= i < |st.uses| ==>
                    MeansSame(known, st.lams, st.uses[i], TextOf(toks, st.uses[i].idx), ctx))
              && LoadsQuietly(fs, toks, st)
  {
    hide MeansSame, LoadsQuietly, TextOf, IsRelative, Under, Deep, GivesGlobal;
    if StatementLives(known, fs, toks, st, ctx) {
      forall i | 0 <= i < |st.uses| ensures UseLives(known, toks, st, st.uses[i], ctx) {}
    }
    if forall home :: Deep(home) && GivesIn(toks, st, home) ==> home == ctx {
      forall i, home | 0 <= i < |st.uses| && GivesGlobal(st.uses[i]) && Deep(home) &&
                       Under(TextOf(toks, st.uses[i].idx), home) ensures home == ctx {
        assert GivesIn(toks, st, home);
      }
    }
  }

  lemma HomeOfIs(known: Known, toks: seq<Tok>, block: seq<Stmt>, ctx: string)
    requires forall j :: 0 <= j < |block| ==> block[j].lo < block[j].hi <= |toks|
    ensures HomeOf(known, toks, block) == Some(ctx) <==>
              && AllParse(toks, block) && HomesFrom(toks, block, 0) == {ctx} && Movable(known, toks, block, ctx)
              && forall j :: 0 <= j < |block| ==> !AmendsRoot(toks, Parse(toks, block[j].lo, block[j].hi))
  {
    hide Movable, HomesFrom, AmendsRoot, Parse;
    if AllParse(toks, block) {
      var homes := HomesFrom(toks, block, 0);
      OneHome(homes, ctx);
      if |homes| == 1 {
        var home :| home in homes;
        OneHome(homes, home);
      }
    }
  }

  lemma ParsedIs(toks: seq<Tok>, block: seq<Stmt>)
    requires forall j :: 0 <= j < |block| ==> block[j].lo < block[j].hi <= |toks|
    ensures AllParse(toks, block) <==> forall j :: 0 <= j < |block| ==> ParsedAt(toks, block, j).Parsed?
    ensures forall j :: 0 <= j < |block| ==> ParsedAt(toks, block, j) == Parse(toks, block[j].lo, block[j].hi)
  {
    hide Parse;
    forall j | 0 <= j < |block| ensures ParsedAt(toks, block, j) == Parse(toks, block[j].lo, block[j].hi) {}
  }

  /** HOMES. A root block moves into `ctx` if and only if it parses, gives no global
      of the root its value, gives globals of no nested context but `ctx` theirs, names
      nothing that would mean something else there, and neither makes nor reaches a
      lookup while it loads. */
  lemma HomeExactly(known: Known, fs: Functions, toks: seq<Tok>, block: seq<Stmt>, ctx: string)
    requires forall j :: 0 <= j < |block| ==> block[j].lo < block[j].hi <= |toks|
    requires known.functions == Settled(fs)
    ensures HomeOf(known, toks, block) == Some(ctx) <==> LivesIn(known, fs, toks, block, ctx)
  {
    hide *;
    HomeOfIs(known, toks, block, ctx);
    ParsedIs(toks, block);
    DeepIsNested(ctx);
    LivesInIs(known, fs, toks, block, ctx);
    if AllParse(toks, block) {
      forall home ensures home in HomesFrom(toks, block, 0) <==>
                            exists j :: 0 <= j < |block| && home in HomesOf(toks, ParsedAt(toks, block, j)) {
        HomesAre(toks, block, 0, home);
      }
      forall j, home | 0 <= j < |block|
        ensures home in HomesOf(toks, ParsedAt(toks, block, j)) <==>
                  Deep(home) && GivesIn(toks, ParsedAt(toks, block, j), home) {
        HomeIs(toks, ParsedAt(toks, block, j), home);
      }
      if Nested(ctx) {
        forall j | 0 <= j < |block|
          ensures StatementLives(known, fs, toks, ParsedAt(toks, block, j), ctx) <==>
                    && !AmendsRoot(toks, ParsedAt(toks, block, j))
                    && !Unmovable(known, toks, ParsedAt(toks, block, j), ctx)
                    && forall home :: home in HomesOf(toks, ParsedAt(toks, block, j)) ==> home == ctx {
          StatementIff(known, fs, toks, block[j].lo, block[j].hi, ctx);
        }
      }
      MovableIs(known, toks, block, ctx);
      OnlyHome(toks, block, ctx);
      if LivesIn(known, fs, toks, block, ctx) {
        forall home | home in HomesFrom(toks, block, 0) ensures home == ctx {
          var j :| 0 <= j < |block| && home in HomesOf(toks, ParsedAt(toks, block, j));
        }
        var j :| 0 <= j < |block| && GivesIn(toks, ParsedAt(toks, block, j), ctx);
        assert ctx in HomesOf(toks, ParsedAt(toks, block, j));
        assert forall i :: 0 <= i < |block| ==> !AmendsRoot(toks, ParsedAt(toks, block, i));
      }
      if HomeOf(known, toks, block) == Some(ctx) {
        var i :| 0 <= i < |block| && ctx in HomesOf(toks, ParsedAt(toks, block, i));
        assert GivesIn(toks, ParsedAt(toks, block, i), ctx) && Deep(ctx);
        forall j | 0 <= j < |block| ensures StatementLives(known, fs, toks, ParsedAt(toks, block, j), ctx) {
          assert ParsedAt(toks, block, j) == Parse(toks, block[j].lo, block[j].hi);
          assert forall home :: home in HomesOf(toks, ParsedAt(toks, block, j)) ==> home in HomesFrom(toks, block, 0);
        }
      }
    }
  }

  lemma MovableIs(known: Known, toks: seq<Tok>, block: seq<Stmt>, ctx: string)
    requires forall j :: 0 <= j < |block| ==> block[j].lo < block[j].hi <= |toks|
    requires AllParse(toks, block) && forall j :: 0 <= j < |block| ==> ParsedAt(toks, block, j).Parsed?
    ensures Movable(known, toks, block, ctx) <==>
              forall j :: 0 <= j < |block| ==> !Unmovable(known, toks, ParsedAt(toks, block, j), ctx)
  {
    hide Unmovable, Parse;
    forall j | 0 <= j < |block| ensures ParsedAt(toks, block, j) == Parse(toks, block[j].lo, block[j].hi) {}
  }

  lemma LivesInIs(known: Known, fs: Functions, toks: seq<Tok>, block: seq<Stmt>, ctx: string)
    requires forall j :: 0 <= j < |block| ==> block[j].lo < block[j].hi <= |toks|
    ensures LivesIn(known, fs, toks, block, ctx) <==>
              && Deep(ctx)
              && (forall j :: 0 <= j < |block| ==>
                    ParsedAt(toks, block, j).Parsed? && StatementLives(known, fs, toks, ParsedAt(toks, block, j), ctx))
              && (exists j :: 0 <= j < |block| && GivesIn(toks, ParsedAt(toks, block, j), ctx))
  {
    hide Deep, ParsedAt, StatementLives, GivesIn;
  }

  lemma OnlyHome(toks: seq<Tok>, block: seq<Stmt>, ctx: string)
    requires forall j :: 0 <= j < |block| ==> block[j].lo < block[j].hi <= |toks|
    requires AllParse(toks, block)
    ensures HomesFrom(toks, block, 0) == {ctx} <==>
              ctx in HomesFrom(toks, block, 0) && forall home :: home in HomesFrom(toks, block, 0) ==> home == ctx
  {
    hide HomesFrom, AllParse;
  }

  // ---- which statements a block is

  /** A `\\d` line, with a context behind it or not. */
  predicate ContextLine(t: Tok) {
    (t.kind == Sys || t.kind == Tail) && |t.text| >= 2 && t.text[..2] == "\\d" && (|t.text| > 2 ==> IsSpace(t.text[2]))
  }

  lemma ContextLineIs(t: Tok)
    ensures ContextLine(t) <==> (t.kind == Sys || t.kind == Tail) && ContextOf(t.text).Some?
  {
    hide WordEnd, IsSpace, Strip;
    var w := WordEnd(t.text);
    NotSpaces();
    if |t.text| >= 2 && t.text[..2] == "\\d" {
      assert t.text[0] == '\\' && t.text[1] == 'd';
      assert w >= 2;
    }
    if t.text[..w] == "\\d" { assert w == 2; }
  }

  lemma NotSpaces()
    ensures !IsSpace('\\') && !IsSpace('d')
  {
  }

  lemma OpensRootIs(t: Tok)
    ensures OpensRoot(t) <==> Switches(t, ".")
  {
    hide ContextOf, Switches;
    SwitchesIff(t, ".");
  }

  /** From a `\\d .` line at `i` to the `\\d` line at `k`, with nothing but code between. */
  ghost predicate RootBlock(toks: seq<Tok>, ss: seq<Stmt>, i: nat, k: nat)
    requires Ordered(toks, ss)
  {
    && i + 1 < k < |ss| && Switches(toks[ss[i].lo], ".") && ContextLine(toks[ss[k].lo])
    && forall n :: i < n < k ==> IsCodeStatement(toks, ss[n])
  }

  /** A root block that can run in `ctx` as it runs at the root. */
  ghost predicate MovingBlock(known: Known, fs: Functions, toks: seq<Tok>, ss: seq<Stmt>, i: nat, k: nat, ctx: string)
    requires Ordered(toks, ss)
  {
    RootBlock(toks, ss, i, k) && LivesIn(known, fs, toks, ss[i + 1..k], ctx)
  }

  lemma {:induction false} StopIs(toks: seq<Tok>, ss: seq<Stmt>, i: nat, k: nat)
    requires Ordered(toks, ss) && i <= k <= |ss| && forall n :: i <= n < k ==> IsCodeStatement(toks, ss[n])
    requires k < |ss| ==> !IsCodeStatement(toks, ss[k])
    ensures BlockStop(toks, ss, i) == k
    decreases k - i
  {
    if i < k { StopIs(toks, ss, i + 1, k); }
  }

  lemma {:induction false} HeadIs(toks: seq<Tok>, ss: seq<Stmt>, i: nat, j: nat)
    requires Ordered(toks, ss) && i < j <= |ss| && toks[ss[i].lo].kind == Sys
    requires forall n :: i < n < j ==> IsCodeStatement(toks, ss[n])
    ensures HeadBefore(toks, ss, j) == Some(i)
    decreases j
  {
    if i + 1 < j { HeadIs(toks, ss, i, j - 1); }
  }

  /** The candidates are the root blocks. */
  lemma CandidateIs(toks: seq<Tok>, ss: seq<Stmt>, i: nat, k: nat)
    requires Ordered(toks, ss) && i < |ss|
    ensures RootBlock(toks, ss, i, k) <==> IsCandidate(toks, ss, i, k)
    ensures RootBlock(toks, ss, i, k) ==> BlockStop(toks, ss, i + 1) == k
  {
    hide ContextOf, Switches, ContextLine, BlockStop;
    OpensRootIs(toks[ss[i].lo]);
    if k < |ss| { ContextLineIs(toks[ss[k].lo]); }
    if RootBlock(toks, ss, i, k) { StopIs(toks, ss, i + 1, k); }
  }

  lemma HeadMoves(known: Known, fs: Functions, toks: seq<Tok>, ss: seq<Stmt>, i: nat, ctx: string)
    requires Ordered(toks, ss) && i < |ss| && known.functions == Settled(fs)
    ensures HomeIn(known, toks, ss, i) == Some(ctx) <==>
              exists k: nat :: MovingBlock(known, fs, toks, ss, i, k, ctx)
  {
    hide RootBlock, LivesIn, HomeOf, IsCandidate;
    var j := BlockStop(toks, ss, i + 1);
    CandidateIs(toks, ss, i, j);
    BlockEnds(toks, ss, i, j);
    if IsCandidate(toks, ss, i, j) { HomeExactly(known, fs, toks, ss[i + 1..j], ctx); }
    forall k: nat | RootBlock(toks, ss, i, k) ensures k == j { CandidateIs(toks, ss, i, k); }
    if HomeIn(known, toks, ss, i) == Some(ctx) { assert MovingBlock(known, fs, toks, ss, i, j, ctx); }
    if k: nat :| MovingBlock(known, fs, toks, ss, i, k, ctx) {
      MovingIsBlock(known, fs, toks, ss, i, k, ctx);
      assert k == j;
    }
  }

  lemma BlockEnds(toks: seq<Tok>, ss: seq<Stmt>, i: nat, j: nat)
    requires Ordered(toks, ss) && i < |ss|
    ensures forall k: nat :: RootBlock(toks, ss, i, k) ==> i + 1 < k < |ss|
  {
    hide Switches, ContextLine, IsCodeStatement;
  }

  /** BLOCKS. A statement moves into `ctx` if and only if it stands between a `\\d .` line
      and the next `\\d` line, only code between them, in a block that can live there;
      the `\\d .` line then names that context. */
  lemma BlocksMove(known: Known, fs: Functions, toks: seq<Tok>, ss: seq<Stmt>, j: nat, ctx: string)
    requires Ordered(toks, ss) && j < |ss| && known.functions == Settled(fs)
    ensures HomeIn(known, toks, ss, j) == Some(ctx) <==>
              exists k: nat :: MovingBlock(known, fs, toks, ss, j, k, ctx)
    ensures MovesTo(known, toks, ss, j) == Some(ctx) <==>
              exists i: nat, k: nat :: i < j < k && MovingBlock(known, fs, toks, ss, i, k, ctx)
  {
    hide MovingBlock, HomeIn;
    HeadMoves(known, fs, toks, ss, j, ctx);
    if MovesTo(known, toks, ss, j) == Some(ctx) {
      var i := HeadBefore(toks, ss, j).value;
      HeadMoves(known, fs, toks, ss, i, ctx);
      var k: nat :| MovingBlock(known, fs, toks, ss, i, k, ctx);
      MovingIsBlock(known, fs, toks, ss, i, k, ctx);
      StandsBefore(toks, ss, i, j, k);
    }
    if i: nat, k: nat :| i < j < k && MovingBlock(known, fs, toks, ss, i, k, ctx) {
      MovingIsBlock(known, fs, toks, ss, i, k, ctx);
      HeadMoves(known, fs, toks, ss, i, ctx);
      StandsIn(toks, ss, i, j, k);
    }
  }

  lemma MovingIsBlock(known: Known, fs: Functions, toks: seq<Tok>, ss: seq<Stmt>, i: nat, k: nat, ctx: string)
    requires Ordered(toks, ss) && MovingBlock(known, fs, toks, ss, i, k, ctx)
    ensures RootBlock(toks, ss, i, k) && i + 1 < k < |ss|
  {
    hide LivesIn, Switches, ContextLine;
  }

  lemma StandsBefore(toks: seq<Tok>, ss: seq<Stmt>, i: nat, j: nat, k: nat)
    requires Ordered(toks, ss) && i < j < |ss| && RootBlock(toks, ss, i, k)
    requires forall n :: i < n <= j ==> IsCodeStatement(toks, ss[n])
    ensures j < k
  {
    ContextLineIs(toks[ss[k].lo]);
    assert !IsCodeStatement(toks, ss[k]);
    hide Switches, ContextOf;
  }

  lemma StandsIn(toks: seq<Tok>, ss: seq<Stmt>, i: nat, j: nat, k: nat)
    requires Ordered(toks, ss) && i < j < k && RootBlock(toks, ss, i, k)
    ensures j < |ss| && IsCodeStatement(toks, ss[j]) && HeadBefore(toks, ss, j) == Some(i)
  {
    hide Switches, ContextLine;
    assert toks[ss[i].lo].kind == Sys by { SwitchIsLine(toks[ss[i].lo]); }
    HeadIs(toks, ss, i, j);
  }

  lemma SwitchIsLine(t: Tok)
    requires Switches(t, ".")
    ensures t.kind == Sys
  {
  }
}
