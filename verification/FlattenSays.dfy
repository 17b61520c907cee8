/** When the 4.0 conversion refuses a file and which names it qualifies, said by what the names denote,
    by what runs as the file loads, and by what its strings hold. */
module FlattenSays {
  import opened Options
  import opened Chars
  import opened Lexer
  import opened QWords
  import opened Scanner
  import opened Renaming
  import opened Converter
  import opened StatementStarts
  import opened Levels
  import opened Flatten
  import opened Meaning
  import opened NestableBlocks

  // ---- one use

  /** The conversion cannot tell what the use would mean at the root: it assigns a word q
      reserves, or a lambda's own local from outside it, or names in a phrase what may be
      a column or a global of the context. */
  predicate CannotTell(lams: seq<Lambda>, use: Use, name: string, mine: set<string>) {
    && IsRelative(name)
    && (|| (Amending(use.role) && IsBuiltin(name))
        || (use.role == GAssign && IsLocalIn(lams, use.lam, name))
        || (MayBeColumn(lams, use, name) && name in mine))
  }

  /** BINDING. A use is refused exactly when it cannot be told what it would mean, and qualified
      exactly when it can and denotes a global of the context, an undefined name in a phrase
      being taken for a column. */
  lemma BindingIff(lams: seq<Lambda>, use: Use, name: string, ctx: string, mine: set<string>)
    requires Nested(ctx)
    requires MakesLocal(use.role, use.lam) && IsRelative(name) ==> IsLocalIn(lams, use.lam, name)
    ensures BindingOf(lams, use, name, mine) == Refuse <==> CannotTell(lams, use, name, mine)
    ensures BindingOf(lams, use, name, mine) == Qualify <==>
              && IsRelative(name) && !CannotTell(lams, use, name, mine)
              && Denotes(lams, use, name, ctx, true) == GlobalName(ctx + "." + name)
  {
    NestedIsNotRoot(ctx);
    StartIsBuiltin(name);
    hide IsBuiltin, IsLocalIn;
  }

  // ---- strings

  /** What `\\` in a literal stands for is one backslash. */
  function Slashes(n: nat): string { seq(n, _ => '\\') }

  lemma {:induction false} RunUnescaped(n: nat, rest: string)
    requires rest != "" ==> rest[0] != '\\'
    ensures Unescaped(Slashes(n) + rest) == Slashes((n + 1) / 2) + Unescaped(rest)
    decreases n
  {
    var s := Slashes(n) + rest;
    if n == 0 {
      assert s == rest;
    } else if n == 1 {
      assert s[1..] == rest && s[..1] == "\\" == Slashes(1);
      RestAlone(s, rest);
    } else {
      assert s[..2] == "\\\\" && s[2..] == Slashes(n - 2) + rest;
      RunUnescaped(n - 2, rest);
      assert "\\" + Slashes((n - 1) / 2) == Slashes((n + 1) / 2);
    }
  }

  lemma RestAlone(s: string, rest: string)
    requires s == "\\" + rest && (rest != "" ==> rest[0] != '\\')
    ensures Unescaped(s) == "\\" + Unescaped(rest)
  {
    assert s[1..] == rest && s[..1] == "\\";
    if |s| >= 2 { assert s[..2][1] == rest[0]; }
  }

  /** ESCAPES. Each run of backslashes is halved, rounding up, and nothing else changes. */
  lemma EscapesHalved(n: nat, c: char, rest: string)
    requires c != '\\'
    ensures Unescaped(Slashes(n) + [c] + rest) == Slashes((n + 1) / 2) + [c] + Unescaped(rest)
    ensures Unescaped(Slashes(n)) == Slashes((n + 1) / 2)
  {
    hide Slashes;
    OtherKept(c, rest);
    RunUnescaped(n, [c] + rest);
    assert Slashes(n) + ([c] + rest) == Slashes(n) + [c] + rest;
    RunUnescaped(n, "");
    assert Slashes(n) + "" == Slashes(n) && Slashes((n + 1) / 2) + "" == Slashes((n + 1) / 2);
  }

  lemma OtherKept(c: char, rest: string)
    requires c != '\\'
    ensures Unescaped([c] + rest) == [c] + Unescaped(rest)
  {
    var s := [c] + rest;
    assert s[1..] == rest && s[..1] == [c];
    if |s| >= 2 { assert s[..2][0] == c; }
  }

  /** White space, a backslash or none, white space, `d`, white space, the context, white space. */
  ghost predicate SwitchBody(body: string, ctx: string, lead: string, slash: string, gap: string, sep: string,
                             tail: string) {
    && AllSpaces(lead) && slash in {"", "\\"} && AllSpaces(gap) && AllSpaces(sep)
    && sep != "" && AllSpaces(tail) && Trimmed(ctx) && body == lead + slash + gap + "d" + sep + ctx + tail
  }

  ghost predicate SwitchesIn(body: string) {
    exists ctx, lead, slash, gap, sep, tail :: Deep(ctx) && SwitchBody(body, ctx, lead, slash, gap, sep, tail)
  }

  /** The string's text, unescaped, is a switch into a nested context. */
  ghost predicate HoldsSwitch(text: string) { 2 <= |text| && SwitchesIn(Unescaped(text[1..|text| - 1])) }

  function PastSpaces(s: string): string { s[LeadingSpaces(s)..] }

  lemma SpacesPassed(lead: string, rest: string)
    requires AllSpaces(lead) && rest != "" && !IsSpace(rest[0])
    ensures PastSpaces(lead + rest) == rest
  {
    hide IsSpace;
    var s := lead + rest;
    assert s[|lead|] == rest[0];
    assert forall i :: 0 <= i < |lead| ==> s[i] == lead[i];
    assert LeadingSpaces(s) == |lead|;
  }

  function PastSlash(cmd: string): string { if "\\" <= cmd then cmd[1..] else cmd }

  /** The words of the string's command. */
  function CommandOf(body: string): string { PastSpaces(PastSlash(PastSpaces(body))) }

  /** The command is `d` and a context. */
  predicate SwitchWords(words: string) {
    words[..WordEnd(words)] == "d" && Nested(Strip(words[WordEnd(words)..]))
  }

  lemma HidesIs(text: string)
    ensures HidesSwitch(text) <==> 2 <= |text| && SwitchWords(CommandOf(Unescaped(text[1..|text| - 1])))
  {
    hide Unescaped, Nested, Strip, WordEnd, LeadingSpaces;
  }

  lemma BodyCommand(body: string, ctx: string, lead: string, slash: string, gap: string, sep: string, tail: string)
    requires SwitchBody(body, ctx, lead, slash, gap, sep, tail)
    ensures CommandOf(body) == "d" + sep + ctx + tail
  {
    hide IsSpace, AllSpaces, PastSpaces, Trimmed;
    var words := "d" + sep + ctx + tail;
    assert words[0] == 'd';
    NotSpaces();
    SpacesPassed(gap, words);
    NoSpaces();
    SpacesPassed("", words);
    if slash == "" {
      SpacesJoin(lead, gap);
      SpacesPassed(lead + gap, words);
      assert body == (lead + gap) + words && "" + words == words;
    } else {
      CommandSlashed(body, lead, gap, words);
    }
  }

  lemma CommandSlashed(body: string, lead: string, gap: string, words: string)
    requires AllSpaces(lead) && body == lead + "\\" + gap + words
    ensures CommandOf(body) == PastSpaces(gap + words)
  {
    hide IsSpace, AllSpaces, PastSpaces;
    var cmd := "\\" + (gap + words);
    NotSpaces();
    assert body == lead + cmd && cmd[1..] == gap + words;
    SpacesPassed(lead, cmd);
  }

  lemma NoSpaces()
    ensures AllSpaces("")
  {
  }

  lemma SpacesJoin(a: string, b: string)
    requires AllSpaces(a) && AllSpaces(b)
    ensures AllSpaces(a + b)
  {
    hide IsSpace;
  }

  lemma CommandSwitches(words: string, ctx: string, sep: string, tail: string)
    requires words == "d" + sep + ctx + tail && sep != "" && AllSpaces(sep) && AllSpaces(tail) && Trimmed(ctx)
    requires Nested(ctx)
    ensures SwitchWords(words)
  {
    assert words[1] == sep[0] && !IsSpace('d');
    hide IsSpace, Nested;
    assert WordEnd(words) == 1;
    var s := words[1..];
    assert s == sep + ctx + tail;
    StripIs(s, ctx, sep, tail);
    assert words[..1] == "d";
  }

  /** A command's words, taken apart. */
  lemma CommandParts(words: string) returns (sep: string, tail: string)
    requires SwitchWords(words)
    ensures var ctx := Strip(words[WordEnd(words)..]);
            && words == "d" + sep + ctx + tail && sep != "" && AllSpaces(sep) && AllSpaces(tail) && Trimmed(ctx)
            && Nested(ctx)
  {
    hide WordEnd, Strip, IsSpace, AllSpaces, Trimmed, CountOf;
    var w := WordEnd(words);
    var ctx := Strip(words[w..]);
    assert ctx != "";
    sep, tail := StripParts(words[w..]);
    assert words == words[..w] + words[w..];
    assert words[w..] != "" by { assert |words[w..]| == |sep| + |ctx| + |tail|; }
    TrimmedStarts(ctx);
    LeadThere(words[w..], sep, ctx, tail);
  }

  lemma TrimmedStarts(ctx: string)
    requires Trimmed(ctx)
    ensures ctx != "" && !IsSpace(ctx[0])
  {
  }

  lemma BodyParts(body: string) returns (lead: string, slash: string, gap: string)
    ensures AllSpaces(lead) && slash in {"", "\\"} && AllSpaces(gap)
    ensures body == lead + slash + gap + CommandOf(body)
  {
    hide PastSpaces;
    var cmd := PastSpaces(body);
    lead := SpacesBefore(body);
    slash := if "\\" <= cmd then "\\" else "";
    gap := SpacesBefore(PastSlash(cmd));
    assert cmd == slash + PastSlash(cmd);
    assert body == lead + slash + gap + CommandOf(body);
  }

  lemma SpacesBefore(s: string) returns (lead: string)
    ensures AllSpaces(lead) && s == lead + PastSpaces(s)
  {
    hide IsSpace, LeadingSpaces;
    lead := s[..LeadingSpaces(s)];
  }

  /** SWITCHES IN STRINGS. The test finds exactly the strings that hold one. */
  lemma HidesIff(text: string)
    ensures HidesSwitch(text) <==> HoldsSwitch(text)
  {
    hide Unescaped, SwitchBody, SwitchWords, CommandOf, HidesSwitch, Deep;
    HidesIs(text);
    if 2 <= |text| {
      var body := Unescaped(text[1..|text| - 1]);
      if SwitchesIn(body) {
        var ctx, lead, slash, gap, sep, tail :| Deep(ctx) && SwitchBody(body, ctx, lead, slash, gap, sep, tail);
        BodyCommand(body, ctx, lead, slash, gap, sep, tail);
        BodyIs(body, ctx, lead, slash, gap, sep, tail);
        DeepIsNested(ctx);
        CommandSwitches(CommandOf(body), ctx, sep, tail);
      }
      if SwitchWords(CommandOf(body)) {
        var lead, slash, gap := BodyParts(body);
        var sep, tail := CommandParts(CommandOf(body));
        var ctx := Strip(CommandOf(body)[WordEnd(CommandOf(body))..]);
        DeepIsNested(ctx);
        BodyBy(body, ctx, lead, slash, gap, sep, tail);
      }
    }
  }

  lemma BodyIs(body: string, ctx: string, lead: string, slash: string, gap: string, sep: string, tail: string)
    requires SwitchBody(body, ctx, lead, slash, gap, sep, tail)
    ensures sep != "" && AllSpaces(sep) && AllSpaces(tail) && Trimmed(ctx)
  {
  }

  lemma BodyBy(body: string, ctx: string, lead: string, slash: string, gap: string, sep: string, tail: string)
    requires AllSpaces(lead) && slash in {"", "\\"} && AllSpaces(gap) && AllSpaces(sep) && sep != "" && AllSpaces(tail)
    requires Trimmed(ctx) && body == lead + slash + gap + CommandOf(body) && CommandOf(body) == "d" + sep + ctx + tail
    ensures SwitchBody(body, ctx, lead, slash, gap, sep, tail)
  {
    hide CommandOf, IsSpace, AllSpaces, Trimmed;
    assert body == lead + slash + gap + "d" + sep + ctx + tail;
  }

  // ---- lookups that run as the file loads

  /** Refused at load time: a relative name, and a computed one unless those are allowed. */
  predicate Banned(level: nat, allowComputed: bool) { level == RELATIVE || (level > 0 && !allowComputed) }

  /** Some function reached from `f` along recorded calls makes a lookup that is refused. */
  ghost predicate ReachesBanned(fs: Functions, f: string, allowComputed: bool) {
    exists g :: g in fs && Reaches(fs, f, g) && Banned(fs[g].level, allowComputed)
  }

  /** Lookups are by a computed or a relative name. */
  ghost predicate LevelsKnown(fs: Functions) { forall f :: f in fs ==> fs[f].level <= RELATIVE }

  lemma BannedIsReached(known: Known, fs: Functions, f: string, allowComputed: bool)
    requires known.functions == Settled(fs) && LevelsKnown(fs)
    ensures Refuses(known.LevelOf(f), allowComputed) <==> ReachesBanned(fs, f, allowComputed)
  {
    hide Reaches, TopLevel;
    if f in fs {
      var top := TopIsReached(fs, f);
    }
    if g :| g in fs && Reaches(fs, f, g) && Banned(fs[g].level, allowComputed) {
      ReachedIsThere(fs, f, g);
      TopIsBound(fs, f, g);
    }
  }

  /** The statement runs while the file loads, and itself or through the calls it makes
      looks a name up in a way that is refused. */
  ghost predicate LooksUpLoading(fs: Functions, allowComputed: bool, toks: seq<Tok>, st: Statement, ctx: string)
    requires st.Parsed?
  {
    st.definition.None? &&
    (|| (exists i ::
           0 <= i < |st.lookups| && InlineIn(st.lams, st.lookups[i].lam) && Banned(st.lookups[i].level, allowComputed))
     || (exists i, callee :: 0 <= i < |st.uses| && AppliesGlobal(toks, st, st.uses[i], ctx, callee) &&
           ReachesBanned(fs, callee, allowComputed)))
  }

  lemma HazardIff(known: Known, fs: Functions, allowComputed: bool, toks: seq<Tok>, st: Statement, ctx: string)
    requires st.Parsed? && known.functions == Settled(fs) && LevelsKnown(fs)
    ensures LoadTimeHazard(known, allowComputed, toks, st, ctx) <==> LooksUpLoading(fs, allowComputed, toks, st, ctx)
  {
    hide InlineIn, AppliesGlobal, ReachesBanned, Calls;
    forall callee ensures callee in Calls(toks, st, ctx, true) <==>
                            exists i :: 0 <= i < |st.uses| && AppliesGlobal(toks, st, st.uses[i], ctx, callee)
                  ensures Refuses(known.LevelOf(callee), allowComputed) <==> ReachesBanned(fs, callee, allowComputed) {
      CallsAre(toks, st, ctx, callee);
      BannedIsReached(known, fs, callee, allowComputed);
    }
    forall level: nat ensures Refuses(level, allowComputed) <==> Banned(level, allowComputed) {}
    hide Refuses, Banned;
  }

  // ---- one statement, and the file

  /** The use is refused, or qualified, in the statement's context. */
  predicate UseRefused(known: Known, toks: seq<Tok>, st: Statement, use: Use, ctx: string)
    requires st.Parsed?
  {
    CannotTell(st.lams, use, TextOf(toks, use.idx), known.DefinedIn(ctx))
  }

  predicate UseQualified(known: Known, toks: seq<Tok>, st: Statement, use: Use, ctx: string)
    requires st.Parsed?
  {
    var name := TextOf(toks, use.idx);
    && IsRelative(name) && !UseRefused(known, toks, st, use, ctx)
    && Denotes(st.lams, use, name, ctx, true) == GlobalName(ctx + "." + name)
  }

  lemma BindsAs(known: Known, toks: seq<Tok>, lo: nat, hi: nat, ctx: string, i: nat)
    requires hi <= |toks| && Parse(toks, lo, hi).Parsed? && Nested(ctx) && i < |Parse(toks, lo, hi).uses|
    ensures var st := Parse(toks, lo, hi);
            var b := BindingOf(st.lams, st.uses[i], TextOf(toks, st.uses[i].idx), known.DefinedIn(ctx));
            && (b == Refuse <==> UseRefused(known, toks, st, st.uses[i], ctx))
            && (b == Qualify <==> UseQualified(known, toks, st, st.uses[i], ctx))
  {
    var st := Parse(toks, lo, hi);
    ParseLocals(toks, lo, hi);
    hide Parse, BindingOf, CannotTell, Denotes, IsRelative, IsLocalIn, Nested, UsesOrdered;
    BindingIff(st.lams, st.uses[i], TextOf(toks, st.uses[i].idx), ctx, known.DefinedIn(ctx));
  }

  /** A statement the conversion refuses: a switch to a context that is not absolute, another system
      line in a nested context, a string that holds a switch into one, or code in one that does not
      parse, looks names up as it loads, or uses a name it cannot tell the meaning of. */
  ghost predicate RefusedAt(known: Known, fs: Functions, allowComputed: bool, toks: seq<Tok>, s: Stmt)
    requires s.lo < s.hi <= |toks|
  {
    var t := toks[s.lo];
    || (t.kind == Sys && exists ctx :: Switches(t, ctx) && IsRelative(ctx))
    || (t.kind == Sys && !ContextLine(t) && Deep(s.ctx))
    || (t.kind != Sys && t.kind != Tail &&
        exists k :: s.lo <= k < s.hi && toks[k].kind == Str && HoldsSwitch(toks[k].text))
    || (t.kind != Sys && t.kind != Tail && Deep(s.ctx) && CodeRefused(known, fs, allowComputed, toks, s))
  }

  ghost predicate CodeRefused(known: Known, fs: Functions, allowComputed: bool, toks: seq<Tok>, s: Stmt)
    requires s.lo < s.hi <= |toks|
  {
    var st := Parse(toks, s.lo, s.hi);
    || st.Refused?
    || LooksUpLoading(fs, allowComputed, toks, st, s.ctx)
    || exists i :: 0 <= i < |st.uses| && UseRefused(known, toks, st, st.uses[i], s.ctx)
  }

  lemma LineRefused(t: Tok, ctx: string)
    requires t.kind == Sys
    ensures (match ContextOf(t.text)
             case Some(c) => c != "" && c[0] != '.'
             case None => Nested(ctx))
            <==> (exists c :: Switches(t, c) && IsRelative(c)) || (!ContextLine(t) && Deep(ctx))
  {
    ContextLineIs(t);
    DeepIsNested(ctx);
    hide ContextOf, Deep, Nested, ContextLine, Switches;
    if ContextOf(t.text).Some? {
      var c := ContextOf(t.text).value;
      if c != "" { SwitchesIff(t, c); }
    }
    if c :| Switches(t, c) && IsRelative(c) {
      SwitchNamed(t, c);
      SwitchesIff(t, c);
    }
  }

  lemma CodeRefusedIff(known: Known, fs: Functions, allowComputed: bool, toks: seq<Tok>, s: Stmt)
    requires s.lo < s.hi <= |toks| && Nested(s.ctx) && known.functions == Settled(fs) && LevelsKnown(fs)
    ensures CodeRefused(known, fs, allowComputed, toks, s) <==>
              var st := Parse(toks, s.lo, s.hi);
              || st.Refused? || LoadTimeHazard(known, allowComputed, toks, st, s.ctx)
              || RefusedFrom(toks, st, 0, known.DefinedIn(s.ctx))
  {
    hide Parse, LoadTimeHazard, LooksUpLoading, BindingOf, UseRefused, Nested, TextOf;
    var st := Parse(toks, s.lo, s.hi);
    if st.Parsed? {
      HazardIff(known, fs, allowComputed, toks, st, s.ctx);
      forall i | 0 <= i < |st.uses|
        ensures BindingOf(st.lams, st.uses[i], TextOf(toks, st.uses[i].idx), known.DefinedIn(s.ctx)) == Refuse
                <==> UseRefused(known, toks, st, st.uses[i], s.ctx) {
        BindsAs(known, toks, s.lo, s.hi, s.ctx, i);
      }
    }
  }

  lemma RefusedIff(known: Known, fs: Functions, allowComputed: bool, toks: seq<Tok>, s: Stmt)
    requires s.lo < s.hi <= |toks| && known.functions == Settled(fs) && LevelsKnown(fs)
    ensures FlatRefused(known, allowComputed, toks, s) <==> RefusedAt(known, fs, allowComputed, toks, s)
  {
    hide HidesSwitch, HoldsSwitch, CodeRefused, RefusedFrom, LoadTimeHazard, Parse, ContextOf, Switches, ContextLine;
    DeepIsNested(s.ctx);
    if toks[s.lo].kind == Sys { LineRefused(toks[s.lo], s.ctx); }
    if Nested(s.ctx) { CodeRefusedIff(known, fs, allowComputed, toks, s); }
    forall k | s.lo <= k < s.hi ensures HidesSwitch(toks[k].text) <==> HoldsSwitch(toks[k].text) {
      HidesIff(toks[k].text);
    }
    hide Deep, Nested;
  }

  /** What the conversion writes for token `k` of a statement. */
  ghost predicate WritesAt(known: Known, toks: seq<Tok>, s: Stmt, k: nat, text: string)
    requires s.lo <= k < s.hi <= |toks|
  {
    var t := toks[s.lo];
    if t.kind == Sys then
      text == if k == s.lo && exists ctx :: Deep(ctx) && Switches(t, ctx) then "\\d ." else toks[k].text
    else if t.kind != Tail && Deep(s.ctx) && Parse(toks, s.lo, s.hi).Parsed? then
      var st := Parse(toks, s.lo, s.hi);
      var qualified := exists i ::
        0 <= i < |st.uses| && st.uses[i].idx == k && UseQualified(known, toks, st, st.uses[i], s.ctx);
      text == if qualified then s.ctx + "." + toks[k].text else toks[k].text
    else text == toks[k].text
  }

  lemma LineWritten(t: Tok)
    requires t.kind == Sys
    ensures (exists ctx :: Deep(ctx) && Switches(t, ctx)) <==>
              ContextOf(t.text).Some? && Nested(ContextOf(t.text).value)
  {
    hide ContextOf, Deep, Nested, Switches;
    if ctx :| Deep(ctx) && Switches(t, ctx) {
      SwitchNamed(t, ctx);
      SwitchesIff(t, ctx);
      DeepIsNested(ctx);
    }
    if ContextOf(t.text).Some? && Nested(ContextOf(t.text).value) {
      var ctx := ContextOf(t.text).value;
      NestedIsNotRoot(ctx);
      SwitchesIff(t, ctx);
      DeepIsNested(ctx);
    }
  }

  lemma QualifiedIff(known: Known, toks: seq<Tok>, s: Stmt, k: nat)
    requires s.lo <= k < s.hi <= |toks| && Nested(s.ctx) && Parse(toks, s.lo, s.hi).Parsed?
    ensures var st := Parse(toks, s.lo, s.hi);
            QualifiedFrom(toks, st, 0, known.DefinedIn(s.ctx), k) <==>
            exists i :: 0 <= i < |st.uses| && st.uses[i].idx == k && UseQualified(known, toks, st, st.uses[i], s.ctx)
  {
    hide Parse, BindingOf, UseQualified, Nested;
    var st := Parse(toks, s.lo, s.hi);
    forall i | 0 <= i < |st.uses|
      ensures BindingOf(st.lams, st.uses[i], TextOf(toks, st.uses[i].idx), known.DefinedIn(s.ctx)) == Qualify
              <==> UseQualified(known, toks, st, st.uses[i], s.ctx) {
      BindsAs(known, toks, s.lo, s.hi, s.ctx, i);
    }
  }

  lemma WritesIff(known: Known, toks: seq<Tok>, s: Stmt, k: nat)
    requires s.lo <= k < s.hi <= |toks|
    ensures WritesAt(known, toks, s, k, FlatText(known, toks, s, k))
  {
    hide ContextOf, Switches, Parse, QualifiedFrom, UseQualified;
    DeepIsNested(s.ctx);
    if toks[s.lo].kind == Sys { LineWritten(toks[s.lo]); }
    if Nested(s.ctx) && Parse(toks, s.lo, s.hi).Parsed? { QualifiedIff(known, toks, s, k); }
    hide Deep, Nested;
    assert ROOT_LINE == "\\d .";
  }

  /** FLATTENING. A file that lexes is refused exactly when one of its statements is; each
      token of a statement is written as the statement says, every other as it was. */
  lemma FlattenIff(known: Known, fs: Functions, allowComputed: bool, toks: seq<Tok>)
    requires known.functions == Settled(fs) && LevelsKnown(fs)
    ensures var cv := ConvertToks(known, allowComputed, Flat, toks);
            var ss := StatementsOf(toks);
            && (cv.refused <==> exists j :: 0 <= j < |ss| && RefusedAt(known, fs, allowComputed, toks, ss[j]))
            && |cv.out| == |toks|
            && (forall j, k :: 0 <= j < |ss| && ss[j].lo <= k < ss[j].hi ==> WritesAt(known, toks, ss[j], k, cv.out[k]))
            && (forall k :: 0 <= k < |toks| && (forall j :: 0 <= j < |ss| ==> !(ss[j].lo <= k < ss[j].hi)) ==>
                  cv.out[k] == toks[k].text)
  {
    hide FlatRefused, RefusedAt, FlatText, WritesAt, ConvertToks, StatementsOf;
    FlatOutput(known, allowComputed, toks);
    var ss := StatementsOf(toks);
    var cv := ConvertToks(known, allowComputed, Flat, toks);
    forall j | 0 <= j < |ss|
      ensures FlatRefused(known, allowComputed, toks, ss[j]) <==> RefusedAt(known, fs, allowComputed, toks, ss[j]) {
      RefusedIff(known, fs, allowComputed, toks, ss[j]);
    }
    forall j, k | 0 <= j < |ss| && ss[j].lo <= k < ss[j].hi ensures WritesAt(known, toks, ss[j], k, cv.out[k]) {
      WritesIff(known, toks, ss[j], k);
      assert FlatAt(known, toks, ss, cv.out, k);
    }
    forall k | 0 <= k < |toks| && (forall j :: 0 <= j < |ss| ==> !(ss[j].lo <= k < ss[j].hi))
      ensures cv.out[k] == toks[k].text {
      assert FlatAt(known, toks, ss, cv.out, k);
    }
  }
}
