/** The conversion of one file: flattening nested contexts for 4.0, nesting them again for 5.0. */
module Converter {
  import opened Options
  import opened Chars
  import opened Lexer
  import opened QWords
  import opened Scanner

  // ---- contexts

  /** The context a `\d` line switches to (empty for a bare one), or none for another command. */
  function ContextOf(cmd: string): Option<string> {
    var w := WordEnd(cmd);
    if cmd[..w] != "\\d" then None else Some(Strip(cmd[w..]))
  }

  predicate Nested(ctx: string) { ctx != "" && ctx[0] == '.' && CountOf(ctx, '.') >= 2 }

  /** What a name means in a context: absolute names mean themselves. */
  function Qualified(ctx: string, name: string): string {
    if !IsRelative(name) || ctx == "" || ctx == "." then name else ctx + "." + name
  }

  function ParentOf(full: string): string {
    var k := LastOf(full, '.');
    if k <= 0 then "" else full[..k]
  }

  function LeafOf(full: string): string { full[LastOf(full, '.') + 1..] }

  datatype Stmt = Stmt(lo: nat, hi: nat, ctx: string)

  predicate Starts(t: Tok) { t.col == 0 && IsCode(t.kind) }

  function StartsFrom(toks: seq<Tok>, k: nat): (r: seq<nat>)
    requires k <= |toks|
    ensures forall i :: 0 <= i < |r| ==> k <= r[i] < |toks| && Starts(toks[r[i]])
    ensures forall i, j :: 0 <= i < j < |r| ==> r[i] < r[j]
    decreases |toks| - k
  {
    if k == |toks| then [] else (if Starts(toks[k]) then [k] else []) + StartsFrom(toks, k + 1)
  }

  function NextContext(t: Tok, ctx: string): string {
    if t.kind == Sys && ContextOf(t.text).Some? && ContextOf(t.text).value != "" then ContextOf(t.text).value else ctx
  }

  /** The statements from the `i`th start on, each with the working context it runs in. */
  function StatementsFrom(toks: seq<Tok>, starts: seq<nat>, i: nat, ctx: string): (r: seq<Stmt>)
    requires i <= |starts|
    requires forall j :: 0 <= j < |starts| ==> starts[j] < |toks|
    requires forall j, k :: 0 <= j < k < |starts| ==> starts[j] < starts[k]
    ensures |r| == |starts| - i
    ensures forall j :: 0 <= j < |r| ==> r[j].lo == starts[i + j] &&
                                         r[j].hi == if i + j + 1 < |starts| then starts[i + j + 1] else |toks|
    decreases |starts| - i
  {
    if i == |starts| then []
    else
      var rest := StatementsFrom(toks, starts, i + 1, NextContext(toks[starts[i]], ctx));
      var s := Stmt(starts[i], if i + 1 < |starts| then starts[i + 1] else |toks|, ctx);
      assert forall j :: 1 <= j <= |rest| ==> ([s] + rest)[j] == rest[j - 1];
      [s] + rest
  }

  function StatementsOf(toks: seq<Tok>): (r: seq<Stmt>)
    ensures forall j :: 0 <= j < |r| ==> r[j].lo < r[j].hi <= |toks| && Starts(toks[r[j].lo])
    ensures forall j, k :: 0 <= j < k < |r| ==> r[j].hi <= r[k].lo
  {
    StatementsFrom(toks, StartsFrom(toks, 0), 0, ".")
  }

  // ---- what the inputs define

  /** A function defined in the inputs: the most context-bound lookup it makes, and what it calls. */
  datatype Fn = Fn(level: nat, calls: set<string>)

  datatype Known = Known(defined: map<string, set<string>>, functions: map<string, Fn>)
  {
    function DefinedIn(ctx: string): set<string> { if ctx in defined then defined[ctx] else {} }

    function LevelOf(name: string): nat { if name in functions then functions[name].level else 0 }
  }

  const NOTHING: Known := Known(map[], map[])

  function TextOf(toks: seq<Tok>, idx: nat): string { if idx < |toks| then toks[idx].text else "" }

  predicate IsLocalIn(lams: seq<Lambda>, lam: Option<nat>, name: string) {
    lam.Some? && lam.value < |lams| && lams[lam.value].IsLocal(name)
  }

  predicate InlineIn(lams: seq<Lambda>, lam: Option<nat>) { lam.Some? ==> RunsInline(lams, lam.value) }

  /** The use is a call of a global, counted only when it runs as its statement runs if `inlineOnly`. */
  predicate IsCall(toks: seq<Tok>, st: Statement, use: Use, inlineOnly: bool)
    requires st.Parsed?
  {
    && use.role == Ref && use.called && !use.columnCtx && !IsBuiltin(TextOf(toks, use.idx))
    && !IsLocalIn(st.lams, use.lam, TextOf(toks, use.idx))
    && (inlineOnly ==> InlineIn(st.lams, use.lam))
  }

  /** The absolute names a statement's code applies. */
  function Calls(toks: seq<Tok>, st: Statement, ctx: string, inlineOnly: bool): set<string>
    requires st.Parsed?
  {
    set i | 0 <= i < |st.uses| && IsCall(toks, st, st.uses[i], inlineOnly) ::
        Qualified(ctx, TextOf(toks, st.uses[i].idx))
  }

  /** The use defines a global of its context. */
  predicate Defines(toks: seq<Tok>, st: Statement, use: Use)
    requires st.Parsed?
  {
    && ((use.role == Assign && use.lam.None?) || use.role == GAssign)
    && !IsLocalIn(st.lams, use.lam, TextOf(toks, use.idx))
  }

  function AddName(defined: map<string, set<string>>, full: string): map<string, set<string>> {
    var parent := if ParentOf(full) == "" then "." else ParentOf(full);
    defined[parent := (if parent in defined then defined[parent] else {}) + {LeafOf(full)}]
  }

  function CollectUses(toks: seq<Tok>, st: Statement, ctx: string, i: nat,
                       defined: map<string, set<string>>): map<string, set<string>>
    requires st.Parsed? && i <= |st.uses|
    decreases |st.uses| - i
  {
    if i == |st.uses| then defined
    else
      CollectUses(toks, st, ctx, i + 1,
                  if Defines(toks, st, st.uses[i]) then AddName(defined, Qualified(ctx, TextOf(toks, st.uses[i].idx)))
                    else defined)
  }

  function OwnLevel(lookups: seq<Lookup>): (level: nat)
    ensures forall i :: 0 <= i < |lookups| ==> lookups[i].level <= level
    ensures level > 0 ==> exists i :: 0 <= i < |lookups| && lookups[i].level == level
  {
    if lookups == [] then 0
    else
      var rest := OwnLevel(lookups[..|lookups| - 1]);
      var last := lookups[|lookups| - 1].level;
      if last > rest then last else rest
  }

  function CollectStatement(toks: seq<Tok>, s: Stmt, known: Known): Known
    requires s.lo < s.hi <= |toks|
  {
    if toks[s.lo].kind == Sys || toks[s.lo].kind == Tail then known
    else
      var st := Parse(toks, s.lo, s.hi);
      if st.Refused? then known
      else
        var defined := CollectUses(toks, st, s.ctx, 0, known.defined);
        var functions := if st.definition.Some?
                         then known.functions[Qualified(s.ctx, st.definition.value) := Fn(OwnLevel(st.lookups),
                             Calls(toks, st, s.ctx, false))]
                         else known.functions;
        Known(defined, functions)
  }

  function CollectFrom(toks: seq<Tok>, ss: seq<Stmt>, i: nat, known: Known): Known
    requires i <= |ss| && forall j :: 0 <= j < |ss| ==> ss[j].lo < ss[j].hi <= |toks|
    decreases |ss| - i
  {
    if i == |ss| then known else CollectFrom(toks, ss, i + 1, CollectStatement(toks, ss[i], known))
  }

  /** The first pass over one file; one that does not lex adds nothing. */
  function Collect(text: string, known: Known): Known {
    match LexOf(text)
    case Unclosed(_, _) => known
    case Lexed(toks) => CollectFrom(toks, StatementsOf(toks), 0, known)
  }

  function CollectAll(texts: seq<string>, known: Known): Known
    decreases |texts|
  {
    if texts == [] then known else CollectAll(texts[1..], Collect(texts[0], known))
  }

  // ---- binding

  datatype Binding = Keep | Qualify | Refuse

  /** What the 4.0 conversion does with one use of a name in a nested context. */
  function BindingOf(lams: seq<Lambda>, use: Use, name: string, mine: set<string>): Binding {
    if !IsRelative(name) || use.role == Column then Keep
    else if use.role != Ref && IsBuiltin(name) then Refuse
    else
      var local := IsLocalIn(lams, use.lam, name);
      match use.role
      case Assign => if use.lam.None? then Qualify else Keep
      case GAssign => if local then Refuse else Qualify
      case Compound => if local then Keep else Qualify
      case Indexed => if local then Keep else Qualify
      case _ =>
        if local || IsBuiltin(name) || name in QSQL_START then Keep
        else if use.columnCtx then (if name == "i" then Keep else if name in mine then Refuse else Keep)
        else Qualify
  }

  /** The output's texts so far, and whether anything was refused. */
  datatype Conv = Conv(out: seq<string>, refused: bool)

  function BindUse(toks: seq<Tok>, lams: seq<Lambda>, use: Use, ctx: string, mine: set<string>, cv: Conv): (r: Conv)
    ensures |r.out| == |cv.out|
  {
    match BindingOf(lams, use, TextOf(toks, use.idx), mine)
    case Keep => cv
    case Refuse => cv.(refused := true)
    case Qualify => if use.idx < |cv.out| then cv.(out := cv.out[use.idx := ctx + "." + TextOf(toks, use.idx)]) else cv
  }

  function BindUses(toks: seq<Tok>, st: Statement, i: nat, ctx: string, mine: set<string>, cv: Conv): (r: Conv)
    requires st.Parsed? && i <= |st.uses|
    ensures |r.out| == |cv.out|
    decreases |st.uses| - i
  {
    if i == |st.uses| then cv
    else BindUses(toks, st, i + 1, ctx, mine, BindUse(toks, st.lams, st.uses[i], ctx, mine, cv))
  }

  /** A lookup of this level that runs while the file loads is refused. */
  predicate Refuses(level: nat, allowComputed: bool) { level == RELATIVE || (level > 0 && !allowComputed) }

  /** The statement runs while the file loads, and looks a name up at run time, itself or through a call. */
  predicate LoadTimeHazard(known: Known, allowComputed: bool, toks: seq<Tok>, st: Statement, ctx: string)
    requires st.Parsed?
  {
    st.definition.None? &&
    (|| (exists i ::
           0 <= i < |st.lookups| && InlineIn(st.lams, st.lookups[i].lam) && Refuses(st.lookups[i].level, allowComputed))
     || (exists callee :: callee in Calls(toks, st, ctx, true) && Refuses(known.LevelOf(callee), allowComputed)))
  }

  function RewriteStatement(known: Known, allowComputed: bool, toks: seq<Tok>, s: Stmt, cv: Conv): (r: Conv)
    requires s.hi <= |toks|
    ensures |r.out| == |cv.out|
  {
    var st := Parse(toks, s.lo, s.hi);
    if st.Refused? then cv.(refused := true)
    else
      BindUses(toks, st, 0, s.ctx, known.DefinedIn(s.ctx),
               cv.(refused := cv.refused || LoadTimeHazard(known, allowComputed, toks, st, s.ctx)))
  }

  // ---- system lines and strings

  datatype Target = Flat | Nest

  function Unescaped(s: string): string {
    if |s| < 2 then s
    else if s[..2] == "\\\\" then "\\" + Unescaped(s[2..])
    else s[..1] + Unescaped(s[1..])
  }

  /** A string holding a switch into a nested context. */
  predicate HidesSwitch(text: string) {
    2 <= |text| &&
    var body := Unescaped(text[1..|text| - 1]);
    var cmd := body[LeadingSpaces(body)..];
    var bare := if "\\" <= cmd then cmd[1..] else cmd;
    var words := bare[LeadingSpaces(bare)..];
    words[..WordEnd(words)] == "d" && Nested(Strip(words[WordEnd(words)..]))
  }

  predicate HidesSwitches(toks: seq<Tok>, lo: nat, hi: nat)
    requires hi <= |toks|
  {
    exists k :: lo <= k < hi && toks[k].kind == Str && HidesSwitch(toks[k].text)
  }

  const ROOT_LINE: string := "\\d ."

  function SystemLine(target: Target, toks: seq<Tok>, s: Stmt, cv: Conv): (r: Conv)
    requires s.lo < |toks|
    ensures |r.out| == |cv.out|
  {
    match ContextOf(toks[s.lo].text)
    case Some(ctx) =>
      if ctx != "" && ctx[0] != '.' then cv.(refused := true)
      else if target == Flat && Nested(ctx) && s.lo < |cv.out| then cv.(out := cv.out[s.lo := ROOT_LINE])
      else cv
    case None => if target == Flat && Nested(s.ctx) then cv.(refused := true) else cv
  }

  function ConvertStatement(known: Known, allowComputed: bool, target: Target, toks: seq<Tok>, s: Stmt,
                            cv: Conv): (r: Conv)
    requires s.lo < s.hi <= |toks|
    ensures |r.out| == |cv.out|
  {
    if toks[s.lo].kind == Tail then cv
    else if toks[s.lo].kind == Sys then SystemLine(target, toks, s, cv)
    else if target == Nest then cv
    else
      var cv' := cv.(refused := cv.refused || HidesSwitches(toks, s.lo, s.hi));
      if Nested(s.ctx) then RewriteStatement(known, allowComputed, toks, s, cv') else cv'
  }

  function ConvertFrom(known: Known, allowComputed: bool, target: Target, toks: seq<Tok>, ss: seq<Stmt>, i: nat,
                       cv: Conv): (r: Conv)
    requires i <= |ss| && forall j :: 0 <= j < |ss| ==> ss[j].lo < ss[j].hi <= |toks|
    ensures |r.out| == |cv.out|
    decreases |ss| - i
  {
    if i == |ss| then cv
    else ConvertFrom(known, allowComputed, target, toks, ss, i + 1,
                     ConvertStatement(known, allowComputed, target, toks, ss[i], cv))
  }

  function Texts(toks: seq<Tok>): (r: seq<string>)
    ensures |r| == |toks| && forall k :: 0 <= k < |r| ==> r[k] == toks[k].text
  {
    seq(|toks|, k requires 0 <= k < |toks| => toks[k].text)
  }

  // ---- nesting

  predicate Amends(use: Use) { use.role != Ref && use.role != Column }

  predicate AllParse(toks: seq<Tok>, block: seq<Stmt>)
    requires forall j :: 0 <= j < |block| ==> block[j].lo < block[j].hi <= |toks|
  {
    forall j :: 0 <= j < |block| ==> Parse(toks, block[j].lo, block[j].hi).Parsed?
  }

  /** The statement gives the root a global of its own, at its top level. */
  predicate AmendsRoot(toks: seq<Tok>, st: Statement)
    requires st.Parsed?
  {
    exists i :: 0 <= i < |st.uses| && st.uses[i].lam.None? && Amends(st.uses[i]) &&
      IsRelative(TextOf(toks, st.uses[i].idx))
  }

  function HomesOf(toks: seq<Tok>, st: Statement): set<string>
    requires st.Parsed?
  {
    set i | 0 <= i < |st.uses| && st.uses[i].lam.None? && Amends(st.uses[i]) &&
      Nested(ParentOf(TextOf(toks, st.uses[i].idx)))
      :: ParentOf(TextOf(toks, st.uses[i].idx))
  }

  function HomesFrom(toks: seq<Tok>, block: seq<Stmt>, i: nat): set<string>
    requires i <= |block| && forall j :: 0 <= j < |block| ==> block[j].lo < block[j].hi <= |toks|
    requires AllParse(toks, block)
    decreases |block| - i
  {
    if i == |block| then {} else HomesOf(toks, Parse(toks, block[i].lo, block[i].hi)) + HomesFrom(toks, block, i + 1)
  }

  /** Inside `ctx` the use would mean something else than at the root. */
  predicate UseStays(known: Known, toks: seq<Tok>, st: Statement, use: Use, ctx: string)
    requires st.Parsed?
  {
    var name := TextOf(toks, use.idx);
    && IsRelative(name) && !IsBuiltin(name) && name !in QSQL_START
    && use.role != Column && !IsLocalIn(st.lams, use.lam, name)
    && !(use.role == Assign && use.lam.Some?)
    && (if use.columnCtx then name != "i" && (name in known.DefinedIn(".") || name in known.DefinedIn(ctx)) else true)
  }

  /** Running inside `ctx` instead of the root would change what the statement means. */
  predicate Unmovable(known: Known, toks: seq<Tok>, st: Statement, ctx: string)
    requires st.Parsed?
  {
    || (exists i :: 0 <= i < |st.uses| && UseStays(known, toks, st, st.uses[i], ctx))
    || (st.definition.None? &&
        ((exists i :: 0 <= i < |st.lookups| && InlineIn(st.lams, st.lookups[i].lam))
         || (exists callee :: callee in Calls(toks, st, ".", true) && known.LevelOf(callee) > 0)))
  }

  /** The bare name `ctx.leaf` can become where it binds the same. */
  function ShortOf(lams: seq<Lambda>, use: Use, name: string, ctx: string): Option<string> {
    if !(ctx + "." <= name) then None
    else
      var leaf := name[|ctx| + 1..];
      if '.' in leaf || IsBuiltin(leaf) || leaf in QSQL_START || leaf in QSQL_NEXT then None
      else if use.columnCtx || use.role == Column then None
      else if use.lam.Some? && (IsLocalIn(lams, use.lam, leaf) || use.role == Assign) then None
      else Some(leaf)
  }

  function ShortenUses(toks: seq<Tok>, st: Statement, i: nat, ctx: string, out: seq<string>): (r: seq<string>)
    requires st.Parsed? && i <= |st.uses|
    ensures |r| == |out|
    decreases |st.uses| - i
  {
    if i == |st.uses| then out
    else
      var use := st.uses[i];
      var short := ShortOf(st.lams, use, TextOf(toks, use.idx), ctx);
      ShortenUses(toks, st, i + 1, ctx, if short.Some? && use.idx < |out| then out[use.idx := short.value] else out)
  }

  function ShortenFrom(toks: seq<Tok>, block: seq<Stmt>, i: nat, ctx: string, out: seq<string>): (r: seq<string>)
    requires i <= |block| && forall j :: 0 <= j < |block| ==> block[j].lo < block[j].hi <= |toks|
    requires AllParse(toks, block)
    ensures |r| == |out|
    decreases |block| - i
  {
    if i == |block| then out
    else ShortenFrom(toks, block, i + 1, ctx, ShortenUses(toks, Parse(toks, block[i].lo, block[i].hi), 0, ctx, out))
  }

  predicate Movable(known: Known, toks: seq<Tok>, block: seq<Stmt>, ctx: string)
    requires forall j :: 0 <= j < |block| ==> block[j].lo < block[j].hi <= |toks|
    requires AllParse(toks, block)
  {
    forall j :: 0 <= j < |block| ==> !Unmovable(known, toks, Parse(toks, block[j].lo, block[j].hi), ctx)
  }

  /** The one nested context a root block can move into, if there is one. */
  ghost function HomeOf(known: Known, toks: seq<Tok>, block: seq<Stmt>): Option<string>
    requires forall j :: 0 <= j < |block| ==> block[j].lo < block[j].hi <= |toks|
  {
    if !AllParse(toks, block) then None
    else if exists j :: 0 <= j < |block| && AmendsRoot(toks, Parse(toks, block[j].lo, block[j].hi)) then None
    else
      var homes := HomesFrom(toks, block, 0);
      if |homes| != 1 then None
      else
        var ctx :| ctx in homes;
        if Movable(known, toks, block, ctx) then Some(ctx) else None
  }

  ghost function NestBlock(known: Known, toks: seq<Tok>, head: nat, block: seq<Stmt>,
                           out: seq<string>): (r: seq<string>)
    requires forall j :: 0 <= j < |block| ==> block[j].lo < block[j].hi <= |toks|
    ensures |r| == |out|
  {
    match HomeOf(known, toks, block)
    case None => out
    case Some(ctx) =>
      var out' := ShortenFrom(toks, block, 0, ctx, out);
      if head < |out'| then out'[head := "\\d " + ctx] else out'
  }

  /** Where a block that starts after statement `j - 1` ends: at the next system line or the exit line. */
  function BlockStop(toks: seq<Tok>, ss: seq<Stmt>, j: nat): (k: nat)
    requires j <= |ss| && forall i :: 0 <= i < |ss| ==> ss[i].lo < ss[i].hi <= |toks|
    ensures j <= k <= |ss|
    ensures forall i :: j <= i < k ==> toks[ss[i].lo].kind != Sys && toks[ss[i].lo].kind != Tail
    ensures k < |ss| ==> toks[ss[k].lo].kind == Sys || toks[ss[k].lo].kind == Tail
    decreases |ss| - j
  {
    if j < |ss| && toks[ss[j].lo].kind != Sys && toks[ss[j].lo].kind != Tail then BlockStop(toks, ss, j + 1) else j
  }

  predicate OpensRoot(t: Tok) { t.kind == Sys && ContextOf(t.text) == Some(".") }

  /** Statement `i` opens a root block that a `\d` line closes, at statement `j`. */
  predicate IsCandidate(toks: seq<Tok>, ss: seq<Stmt>, i: nat, j: nat)
    requires i < |ss| && forall k :: 0 <= k < |ss| ==> ss[k].lo < ss[k].hi <= |toks|
  {
    && OpensRoot(toks[ss[i].lo]) && i + 1 < j < |ss|
    && j == BlockStop(toks, ss, i + 1)
    && ContextOf(toks[ss[j].lo].text).Some?
  }

  ghost function NestFrom(known: Known, toks: seq<Tok>, ss: seq<Stmt>, i: nat, out: seq<string>): (r: seq<string>)
    requires i <= |ss| && forall k :: 0 <= k < |ss| ==> ss[k].lo < ss[k].hi <= |toks|
    ensures |r| == |out|
    decreases |ss| - i
  {
    if i == |ss| then out
    else if !OpensRoot(toks[ss[i].lo]) then NestFrom(known, toks, ss, i + 1, out)
    else
      var j := BlockStop(toks, ss, i + 1);
      NestFrom(known, toks, ss, j,
               if IsCandidate(toks, ss, i, j) then NestBlock(known, toks, ss[i].lo, ss[i + 1..j], out) else out)
  }

  // ---- one file

  datatype Outcome = Rejected | Written(text: string)

  function Join(texts: seq<string>): string {
    if texts == [] then "" else texts[0] + Join(texts[1..])
  }

  ghost function ConvertToks(known: Known, allowComputed: bool, target: Target, toks: seq<Tok>): Conv {
    var ss := StatementsOf(toks);
    var cv := ConvertFrom(known, allowComputed, target, toks, ss, 0, Conv(Texts(toks), false));
    if target == Nest then cv.(out := NestFrom(known, toks, ss, 0, cv.out)) else cv
  }

  ghost function Convert(known: Known, allowComputed: bool, target: Target, text: string): Outcome {
    match LexOf(text)
    case Unclosed(_, _) => Rejected
    case Lexed(toks) =>
      var cv := ConvertToks(known, allowComputed, target, toks);
      if cv.refused then Rejected else Written(Join(cv.out))
  }
}
