/** What the first pass knows: the globals the inputs define and the functions they hold. */
module CollectSays {
  import opened Options
  import opened Chars
  import opened Lexer
  import opened QWords
  import opened Scanner
  import opened Converter
  import opened Levels
  import opened StatementSpec
  import opened Lookups
  import opened ParsedSays
  import opened FlattenLexing
  import opened Meaning
  import opened NestableBlocks
  import opened FlattenSays
  import opened Projects

  // ---- what one use defines

  /** `full` is the word `leaf` of the context `parent`, the root's words having no context before them. */
  ghost predicate WordOf(full: string, parent: string, leaf: string) {
    && '.' !in leaf && parent != ""
    && (full == parent + "." + leaf || (parent == "." && (full == leaf || full == "." + leaf)))
  }

  lemma AddedWord(full: string, parent: string, leaf: string)
    ensures WordOf(full, parent, leaf) <==>
              leaf == LeafOf(full) && parent == (if ParentOf(full) == "" then "." else ParentOf(full))
  {
    hide *;
    if WordOf(full, parent, leaf) { WordSplits(full, parent, leaf); }
    if leaf == LeafOf(full) && parent == (if ParentOf(full) == "" then "." else ParentOf(full)) { SplitsToWord(full); }
  }

  lemma WordSplits(full: string, parent: string, leaf: string)
    requires WordOf(full, parent, leaf)
    ensures leaf == LeafOf(full) && parent == (if ParentOf(full) == "" then "." else ParentOf(full))
  {
    if full == leaf {
      NoDot(full);
    } else if full == "." + leaf {
      assert full == "" + "." + leaf;
      OneDot("", leaf);
    } else {
      OneDot(parent, leaf);
    }
    hide LastOf, LeafOf, ParentOf;
  }

  lemma SplitsToWord(full: string)
    ensures WordOf(full, if ParentOf(full) == "" then "." else ParentOf(full), LeafOf(full))
  {
    hide LastOf, WordOf;
    var k := LastOf(full, '.');
    LeafHasNone(full, k);
    SplitAt(full, k);
  }

  lemma SplitAt(full: string, k: int)
    requires -1 <= k < |full| && (k >= 0 ==> full[k] == '.') && '.' !in full[k + 1..]
    ensures WordOf(full, if k <= 0 then "." else full[..k], full[k + 1..])
  {
    hide WordOf;
    if k < 0 {
      assert full[0..] == full;
      WordBy(full, "", full);
    } else {
      Rejoins(full, k);
      WordBy(full, full[..k], full[k + 1..]);
    }
  }

  lemma Rejoins(full: string, k: nat)
    requires k < |full| && full[k] == '.'
    ensures full == full[..k] + "." + full[k + 1..]
    ensures k == 0 <==> full[..k] == ""
  {
  }

  lemma WordBy(full: string, parent: string, leaf: string)
    requires '.' !in leaf && (full == parent + "." + leaf || (parent == "" && full == leaf))
    ensures WordOf(full, if parent == "" then "." else parent, leaf)
  {
    if parent == "" { assert parent + "." + leaf == "." + leaf; }
  }

  lemma NoDot(full: string)
    requires '.' !in full
    ensures LastOf(full, '.') == -1 && LeafOf(full) == full && ParentOf(full) == ""
  {
    assert full[0..] == full;
  }

  lemma OneDot(parent: string, leaf: string)
    requires '.' !in leaf
    ensures var full := parent + "." + leaf;
            && LastOf(full, '.') == |parent| && LeafOf(full) == leaf && ParentOf(full) == parent
  {
    var full := parent + "." + leaf;
    assert full[|parent|] == '.';
    forall i | |parent| < i < |full| ensures full[i] != '.' { assert full[i] == leaf[i - |parent| - 1]; }
    assert full[..|parent|] == parent && full[|parent| + 1..] == leaf;
  }

  /** The use gives the global of this absolute name its value: at its statement's top level, or by `::` to no local. */
  predicate Gives(toks: seq<Tok>, st: Statement, use: Use, ctx: string, full: string)
    requires st.Parsed?
  {
    var name := TextOf(toks, use.idx);
    && ((use.role == Assign && use.lam.None?) || use.role == GAssign) && !IsLocalIn(st.lams, use.lam, name)
    && full == Qualified(ctx, name)
  }

  // ---- one statement

  ghost predicate GivesWord(toks: seq<Tok>, st: Statement, ctx: string, i: nat, parent: string, leaf: string)
    requires st.Parsed?
  {
    exists j, full :: i <= j < |st.uses| && Gives(toks, st, st.uses[j], ctx, full) && WordOf(full, parent, leaf)
  }

  /** The inputs' definitions as a set of words. */
  predicate Has(defined: map<string, set<string>>, parent: string, leaf: string) {
    parent in defined && leaf in defined[parent]
  }

  lemma HasAdded(defined: map<string, set<string>>, full: string, parent: string, leaf: string)
    ensures Has(AddName(defined, full), parent, leaf) <==> Has(defined, parent, leaf) || WordOf(full, parent, leaf)
  {
    AddedWord(full, parent, leaf);
    hide ParentOf, LeafOf, WordOf;
  }

  lemma {:induction false} UsesGive(toks: seq<Tok>, st: Statement, ctx: string, i: nat,
                                    defined: map<string, set<string>>, parent: string, leaf: string)
    requires st.Parsed? && i <= |st.uses|
    ensures Has(CollectUses(toks, st, ctx, i, defined), parent, leaf) <==>
              Has(defined, parent, leaf) || GivesWord(toks, st, ctx, i, parent, leaf)
    decreases |st.uses| - i
  {
    hide Has, AddName, WordOf, TextOf, Qualified, IsLocalIn;
    if i < |st.uses| {
      var full := Qualified(ctx, TextOf(toks, st.uses[i].idx));
      var more := if Defines(toks, st, st.uses[i]) then AddName(defined, full) else defined;
      UsesGive(toks, st, ctx, i + 1, more, parent, leaf);
      HasAdded(defined, full, parent, leaf);
      GivesFirst(toks, st, ctx, i, parent, leaf);
    }
  }

  lemma GivesFirst(toks: seq<Tok>, st: Statement, ctx: string, i: nat, parent: string, leaf: string)
    requires st.Parsed? && i < |st.uses|
    ensures GivesWord(toks, st, ctx, i, parent, leaf) <==>
              || GivesWord(toks, st, ctx, i + 1, parent, leaf)
              || (Defines(toks, st, st.uses[i]) && WordOf(Qualified(ctx, TextOf(toks, st.uses[i].idx)), parent, leaf))
  {
    hide WordOf, TextOf, Qualified, IsLocalIn;
    if Defines(toks, st, st.uses[i]) && WordOf(Qualified(ctx, TextOf(toks, st.uses[i].idx)), parent, leaf) {
      assert Gives(toks, st, st.uses[i], ctx, Qualified(ctx, TextOf(toks, st.uses[i].idx)));
    }
  }

  /** The use applies the global of this name, whenever it runs. */
  predicate AppliesEver(toks: seq<Tok>, st: Statement, use: Use, ctx: string, callee: string)
    requires st.Parsed?
  {
    var name := TextOf(toks, use.idx);
    && use.role == Ref && use.called && !use.columnCtx && !IsLocalIn(st.lams, use.lam, name)
    && Denotes(st.lams, use, name, ctx, false) == GlobalName(callee)
  }

  lemma EverCalls(toks: seq<Tok>, st: Statement, ctx: string, callee: string)
    requires st.Parsed?
    ensures callee in Calls(toks, st, ctx, false) <==>
              exists i :: 0 <= i < |st.uses| && AppliesEver(toks, st, st.uses[i], ctx, callee)
  {
    hide IsCall, AppliesEver, TextOf, Qualified;
    forall i | 0 <= i < |st.uses|
      ensures AppliesEver(toks, st, st.uses[i], ctx, callee) <==>
                IsCall(toks, st, st.uses[i], false) && Qualified(ctx, TextOf(toks, st.uses[i].idx)) == callee {
      EverCall(toks, st, st.uses[i], ctx, callee);
    }
  }

  lemma EverCall(toks: seq<Tok>, st: Statement, use: Use, ctx: string, callee: string)
    requires st.Parsed?
    ensures AppliesEver(toks, st, use, ctx, callee) <==>
              IsCall(toks, st, use, false) && Qualified(ctx, TextOf(toks, use.idx)) == callee
  {
    if IsBuiltin(TextOf(toks, use.idx)) { BuiltinIsBare(TextOf(toks, use.idx)); }
    hide IsBuiltin, IsLocalIn, InlineIn;
  }

  /** A function as its body says: its greatest lookup, and every global it applies. */
  ghost predicate BodySays(toks: seq<Tok>, st: Statement, ctx: string, fn: Fn)
    requires st.Parsed?
  {
    && (forall i :: 0 <= i < |st.lookups| ==> st.lookups[i].level <= fn.level)
    && (fn.level > 0 ==> exists i :: 0 <= i < |st.lookups| && st.lookups[i].level == fn.level)
    && (forall callee :: callee in fn.calls <==>
          exists i :: 0 <= i < |st.uses| && AppliesEver(toks, st, st.uses[i], ctx, callee))
  }

  lemma BodyIs(toks: seq<Tok>, st: Statement, ctx: string, fn: Fn)
    requires st.Parsed?
    ensures BodySays(toks, st, ctx, fn) <==> fn == Fn(OwnLevel(st.lookups), Calls(toks, st, ctx, false))
  {
    hide OwnLevel, Calls, AppliesEver;
    var calls := Calls(toks, st, ctx, false);
    forall callee ensures callee in calls <==>
                            exists i :: 0 <= i < |st.uses| && AppliesEver(toks, st, st.uses[i], ctx, callee) {
      EverCalls(toks, st, ctx, callee);
    }
    if BodySays(toks, st, ctx, fn) { assert fn.calls == calls; }
  }

  /** The statement is code that parses. */
  predicate Counts(toks: seq<Tok>, s: Stmt)
    requires s.lo < s.hi <= |toks|
  {
    toks[s.lo].kind != Sys && toks[s.lo].kind != Tail && Parse(toks, s.lo, s.hi).Parsed?
  }

  /** The statement defines the word, or the function, of this absolute name. */
  ghost predicate StatementGives(toks: seq<Tok>, s: Stmt, parent: string, leaf: string)
    requires s.lo < s.hi <= |toks|
  {
    Counts(toks, s) && GivesWord(toks, Parse(toks, s.lo, s.hi), s.ctx, 0, parent, leaf)
  }

  predicate DefinesFunction(toks: seq<Tok>, s: Stmt, f: string)
    requires s.lo < s.hi <= |toks|
  {
    Counts(toks, s) &&
    var definition := Parse(toks, s.lo, s.hi).definition;
    definition.Some? && f == Qualified(s.ctx, definition.value)
  }

  ghost predicate FunctionSays(toks: seq<Tok>, s: Stmt, f: string, fn: Fn)
    requires s.lo < s.hi <= |toks|
  {
    DefinesFunction(toks, s, f) && BodySays(toks, Parse(toks, s.lo, s.hi), s.ctx, fn)
  }

  predicate Holds(functions: Functions, f: string, fn: Fn) { f in functions && functions[f] == fn }

  lemma StatementAdds(toks: seq<Tok>, s: Stmt, known: Known, parent: string, leaf: string, f: string, fn: Fn)
    requires s.lo < s.hi <= |toks|
    ensures var after := CollectStatement(toks, s, known);
            && (Has(after.defined, parent, leaf) <==>
                  Has(known.defined, parent, leaf) || StatementGives(toks, s, parent, leaf))
            && (Holds(after.functions, f, fn) <==>
                  if DefinesFunction(toks, s, f) then FunctionSays(toks, s, f, fn) else Holds(known.functions, f, fn))
  {
    hide Has, GivesWord, BodySays, OwnLevel, Calls, Parse, Qualified, CollectUses;
    if Counts(toks, s) {
      var st := Parse(toks, s.lo, s.hi);
      UsesGive(toks, st, s.ctx, 0, known.defined, parent, leaf);
      BodyIs(toks, st, s.ctx, fn);
    }
  }

  // ---- files

  ghost predicate LaterNone(toks: seq<Tok>, ss: seq<Stmt>, j: int, f: string)
    requires forall k :: 0 <= k < |ss| ==> ss[k].lo < ss[k].hi <= |toks|
  {
    forall k :: j < k < |ss| && k >= 0 ==> !DefinesFunction(toks, ss[k], f)
  }

  /** From statement `i` on, some statement defines the word. */
  ghost predicate RestGives(toks: seq<Tok>, ss: seq<Stmt>, i: nat, parent: string, leaf: string)
    requires forall k :: 0 <= k < |ss| ==> ss[k].lo < ss[k].hi <= |toks|
  {
    exists j :: i <= j < |ss| && StatementGives(toks, ss[j], parent, leaf)
  }

  /** From statement `i` on, the last to define `f` says this of it. */
  ghost predicate RestSays(toks: seq<Tok>, ss: seq<Stmt>, i: nat, f: string, fn: Fn)
    requires forall k :: 0 <= k < |ss| ==> ss[k].lo < ss[k].hi <= |toks|
  {
    exists j :: i <= j < |ss| && FunctionSays(toks, ss[j], f, fn) && LaterNone(toks, ss, j, f)
  }

  lemma {:induction false} FileAdds(toks: seq<Tok>, ss: seq<Stmt>, i: nat, known: Known, parent: string, leaf: string,
                                    f: string, fn: Fn)
    requires i <= |ss| && forall k :: 0 <= k < |ss| ==> ss[k].lo < ss[k].hi <= |toks|
    ensures var after := CollectFrom(toks, ss, i, known);
            && (Has(after.defined, parent, leaf) <==>
                  Has(known.defined, parent, leaf) || RestGives(toks, ss, i, parent, leaf))
            && (Holds(after.functions, f, fn) <==>
                  || RestSays(toks, ss, i, f, fn)
                  || (LaterNone(toks, ss, i - 1, f) && Holds(known.functions, f, fn)))
    decreases |ss| - i
  {
    hide Has, Holds, StatementGives, FunctionSays, DefinesFunction, CollectStatement;
    if i < |ss| {
      var after := CollectStatement(toks, ss[i], known);
      FileAdds(toks, ss, i + 1, after, parent, leaf, f, fn);
      StatementAdds(toks, ss[i], known, parent, leaf, f, fn);
      SaysDefines(toks, ss[i], f, fn);
      assert LaterNone(toks, ss, i - 1, f) <==> LaterNone(toks, ss, i, f) && !DefinesFunction(toks, ss[i], f);
      assert RestSays(toks, ss, i, f, fn) <==>
             RestSays(toks, ss, i + 1, f, fn) || (FunctionSays(toks, ss[i], f, fn) && LaterNone(toks, ss, i, f));
    }
  }

  lemma SaysDefines(toks: seq<Tok>, s: Stmt, f: string, fn: Fn)
    requires s.lo < s.hi <= |toks|
    ensures FunctionSays(toks, s, f, fn) ==> DefinesFunction(toks, s, f)
  {
    hide DefinesFunction, BodySays;
  }

  // ---- the project

  /** Some statement of the file defines the word; one that does not lex defines nothing. */
  ghost predicate TextGives(text: string, parent: string, leaf: string) {
    match LexOf(text)
    case Unclosed(_, _) => false
    case Lexed(toks) => RestGives(toks, StatementsOf(toks), 0, parent, leaf)
  }

  ghost predicate TextSays(text: string, f: string, fn: Fn) {
    match LexOf(text)
    case Unclosed(_, _) => false
    case Lexed(toks) => RestSays(toks, StatementsOf(toks), 0, f, fn)
  }

  ghost predicate TextSilent(text: string, f: string) {
    match LexOf(text)
    case Unclosed(_, _) => true
    case Lexed(toks) => LaterNone(toks, StatementsOf(toks), -1, f)
  }

  lemma TextAdds(text: string, known: Known, parent: string, leaf: string, f: string, fn: Fn)
    ensures var after := Collect(text, known);
            && (Has(after.defined, parent, leaf) <==> Has(known.defined, parent, leaf) || TextGives(text, parent, leaf))
            && (Holds(after.functions, f, fn) <==>
                  TextSays(text, f, fn) || (TextSilent(text, f) && Holds(known.functions, f, fn)))
  {
    hide Has, Holds, RestGives, RestSays, LaterNone, LexOf, StatementsOf, CollectFrom;
    match LexOf(text) {
      case Unclosed(_, _) =>
      case Lexed(toks) => FileAdds(toks, StatementsOf(toks), 0, known, parent, leaf, f, fn);
    }
  }

  ghost predicate AnyGives(texts: seq<string>, parent: string, leaf: string) {
    exists i :: 0 <= i < |texts| && TextGives(texts[i], parent, leaf)
  }

  /** The last definition of `f` in the files, in order, says this of it. */
  ghost predicate LastSays(texts: seq<string>, f: string, fn: Fn) {
    exists i :: 0 <= i < |texts| && TextSays(texts[i], f, fn) && forall k :: i < k < |texts| ==> TextSilent(texts[k], f)
  }

  lemma {:induction false} AllAdd(texts: seq<string>, known: Known, parent: string, leaf: string, f: string, fn: Fn)
    ensures var after := CollectAll(texts, known);
            && (Has(after.defined, parent, leaf) <==> Has(known.defined, parent, leaf) || AnyGives(texts, parent, leaf))
            && (Holds(after.functions, f, fn) <==>
                  || LastSays(texts, f, fn)
                  || ((forall k :: 0 <= k < |texts| ==> TextSilent(texts[k], f)) && Holds(known.functions, f, fn)))
    decreases |texts|
  {
    hide Has, Holds, TextGives, TextSays, TextSilent, Collect;
    if texts != [] {
      var rest := texts[1..];
      AllAdd(rest, Collect(texts[0], known), parent, leaf, f, fn);
      TextAdds(texts[0], known, parent, leaf, f, fn);
      assert texts == [texts[0]] + rest;
      AnyOfRest(texts, parent, leaf);
      LastOfRest(texts, f, fn);
    }
  }

  lemma AnyOfRest(texts: seq<string>, parent: string, leaf: string)
    requires texts != []
    ensures AnyGives(texts, parent, leaf) <==> TextGives(texts[0], parent, leaf) || AnyGives(texts[1..], parent, leaf)
  {
    hide TextGives;
    if i :| 0 <= i < |texts[1..]| && TextGives(texts[1..][i], parent, leaf) { assert texts[i + 1] == texts[1..][i]; }
    if i :| 0 <= i < |texts| && TextGives(texts[i], parent, leaf) {
      if i > 0 { assert texts[1..][i - 1] == texts[i]; }
    }
  }

  lemma SilentRest(texts: seq<string>, i: nat, f: string)
    requires i < |texts|
    ensures (forall k :: i < k < |texts| ==> TextSilent(texts[k], f)) <==>
              (forall k :: i <= k < |texts[1..]| ==> TextSilent(texts[1..][k], f))
  {
    hide TextSilent;
    assert forall k :: i <= k < |texts[1..]| ==> texts[1..][k] == texts[k + 1];
    assert forall k :: i < k < |texts| ==> texts[k] == texts[1..][k - 1];
  }

  lemma LastOfRest(texts: seq<string>, f: string, fn: Fn)
    requires texts != []
    ensures LastSays(texts, f, fn) <==>
              || LastSays(texts[1..], f, fn)
              || (TextSays(texts[0], f, fn) && forall k :: 0 <= k < |texts[1..]| ==> TextSilent(texts[1..][k], f))
    ensures (forall k :: 0 <= k < |texts| ==> TextSilent(texts[k], f)) <==>
              TextSilent(texts[0], f) && forall k :: 0 <= k < |texts[1..]| ==> TextSilent(texts[1..][k], f)
  {
    hide TextSays, TextSilent;
    var rest := texts[1..];
    SilentRest(texts, 0, f);
    if i :| 0 <= i < |rest| && TextSays(rest[i], f, fn) && forall k :: i < k < |rest| ==> TextSilent(rest[k], f) {
      assert texts[i + 1] == rest[i];
      SilentRest(texts, i + 1, f);
    }
    if i :| 0 <= i < |texts| && TextSays(texts[i], f, fn) && forall k :: i < k < |texts| ==> TextSilent(texts[k], f) {
      SilentRest(texts, i, f);
      if i > 0 { assert rest[i - 1] == texts[i]; }
    }
  }

  /** COLLECTION. What a run knows before it converts: a word is defined in a context exactly
      when some statement of some file gives it its value; a function is what the last
      definition of its name says, its level the greatest a chain of recorded calls reaches. */
  lemma KnownSays(texts: seq<string>, parent: string, leaf: string, f: string, fn: Fn)
    ensures leaf in KnownOf(texts).DefinedIn(parent) <==> AnyGives(texts, parent, leaf)
    ensures Holds(CollectAll(texts, NOTHING).functions, f, fn) <==> LastSays(texts, f, fn)
    ensures KnownOf(texts).functions == Settled(CollectAll(texts, NOTHING).functions)
  {
    hide AnyGives, LastSays, CollectAll, Settled;
    AllAdd(texts, NOTHING, parent, leaf, f, fn);
  }

  // ---- levels

  lemma ParsedLevels(c: Code)
    requires ParseCode(c).Parsed?
    ensures forall i :: 0 <= i < |ParseCode(c).lookups| ==> ParseCode(c).lookups[i].level <= RELATIVE
  {
    hide *;
    UnbalancedParse(c);
    var m := Balancing(c);
    ParseSays(c, m);
    forall i | 0 <= i < |ParseCode(c).lookups| ensures ParseCode(c).lookups[i].level <= RELATIVE {
      LevelOfLookup(c, m, ParseCode(c).lams, ParseCode(c).lookups, i);
    }
  }

  lemma UnbalancedParse(c: Code)
    requires ParseCode(c).Parsed?
    ensures Balanced(c)
  {
    hide ParseCode, Balanced;
    if !Balanced(c) { UnbalancedRefused(c); }
  }

  lemma LevelOfLookup(c: Code, m: Brackets, lams: seq<Lambda>, lookups: seq<Lookup>, i: nat)
    requires m.Matched? && LookupsBefore(c, m, |c|, lams, lookups) && i < |lookups|
    ensures lookups[i].level <= RELATIVE
  {
    hide UsedAt, LooksRelative, LooksComputed, AppliesRelative, LambdaFits;
    assert LookedUpBefore(c, m, |c|, lams, lookups[i]);
  }

  /** Every level the inputs' functions have is one of the two. */
  lemma CollectedLevels(texts: seq<string>)
    ensures LevelsKnown(CollectAll(texts, NOTHING).functions)
  {
    hide *;
    var fs := CollectAll(texts, NOTHING).functions;
    forall f | f in fs ensures fs[f].level <= RELATIVE {
      KnownSays(texts, ".", "", f, fs[f]);
      HeldIs(fs, f);
      LastLevel(texts, f, fs[f]);
    }
    LevelsKnownIs(fs);
  }

  lemma HeldIs(fs: Functions, f: string)
    requires f in fs
    ensures Holds(fs, f, fs[f])
  {
  }

  lemma LevelsKnownIs(fs: Functions)
    requires forall f :: f in fs ==> fs[f].level <= RELATIVE
    ensures LevelsKnown(fs)
  {
  }

  lemma LastLevel(texts: seq<string>, f: string, fn: Fn)
    requires LastSays(texts, f, fn)
    ensures fn.level <= RELATIVE
  {
    hide LexOf, StatementsOf, FunctionSays, LaterNone;
    var i :| 0 <= i < |texts| && TextSays(texts[i], f, fn);
    var toks, ss := LexOf(texts[i]).toks, StatementsOf(LexOf(texts[i]).toks);
    var j :| 0 <= j < |ss| && FunctionSays(toks, ss[j], f, fn);
    SaidLevel(toks, ss[j], f, fn);
  }

  lemma SaidLevel(toks: seq<Tok>, s: Stmt, f: string, fn: Fn)
    requires s.lo < s.hi <= |toks| && FunctionSays(toks, s, f, fn)
    ensures fn.level <= RELATIVE
  {
    hide ParseCode, AppliesEver, Qualified;
    ParsedLevels(Significant(toks, s.lo, s.hi));
  }
}
