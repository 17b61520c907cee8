/** One top-level statement: how each name in it is used, and every name it looks up at run time. */
module Scanner {
  import opened Options
  import opened Chars
  import opened Lexer
  import opened QWords

  /** A code token, and its index among the file's tokens. */
  datatype Sig = Sig(kind: Kind, text: string, idx: nat)

  type Code = seq<Sig>

  predicate IsCode(k: Kind) { k != Ws && k != Nl && k != Comment && k != Block }

  function Significant(toks: seq<Tok>, lo: nat, hi: nat): (c: Code)
    requires hi <= |toks|
    ensures forall i :: 0 <= i < |c| ==>
              lo <= c[i].idx < hi && c[i].kind == toks[c[i].idx].kind && c[i].text == toks[c[i].idx].text
    ensures forall i, j :: 0 <= i < j < |c| ==> c[i].idx < c[j].idx
    decreases hi - lo
  {
    if lo >= hi then []
    else (if IsCode(toks[lo].kind) then [Sig(toks[lo].kind, toks[lo].text, lo)] else []) + Significant(toks, lo + 1, hi)
  }

  // ---- tokens beside a position; outside the statement there is none

  function TextAt(c: Code, pos: int): string { if 0 <= pos < |c| then c[pos].text else "" }

  predicate HasKind(c: Code, pos: int, k: Kind) { 0 <= pos < |c| && c[pos].kind == k }

  predicate IsOpener(t: string) { t == "(" || t == "[" || t == "{" }

  predicate IsCloser(t: string) { t == ")" || t == "]" || t == "}" }

  function CloserOf(t: string): string { if t == "(" then ")" else if t == "[" then "]" else "}" }

  predicate OpenerAt(c: Code, pos: int) { HasKind(c, pos, Op) && IsOpener(c[pos].text) }

  predicate CloserAt(c: Code, pos: int) { HasKind(c, pos, Op) && IsCloser(c[pos].text) }

  // ---- brackets

  datatype Brackets = Unmatched | Matched(close: map<nat, nat>, open: map<nat, nat>)

  /** The bracket pairs from `pos` on, `stack` holding the positions of those still open. */
  function MatchFrom(c: Code, pos: nat, stack: seq<nat>, close: map<nat, nat>, open: map<nat, nat>): Brackets
    requires pos <= |c| && forall i :: 0 <= i < |stack| ==> stack[i] < |c|
    decreases |c| - pos
  {
    if pos == |c| then (if stack == [] then Matched(close, open) else Unmatched)
    else if OpenerAt(c, pos) then MatchFrom(c, pos + 1, stack + [pos], close, open)
    else if CloserAt(c, pos) then
      if stack == [] || CloserOf(c[stack[|stack| - 1]].text) != c[pos].text then Unmatched
      else
        var o := stack[|stack| - 1];
        MatchFrom(c, pos + 1, stack[..|stack| - 1], close[o := pos], open[pos := o])
    else MatchFrom(c, pos + 1, stack, close, open)
  }

  ghost predicate IsPair(c: Code, p: nat, q: nat) {
    p < q < |c| && OpenerAt(c, p) && CloserAt(c, q) && c[q].text == CloserOf(c[p].text)
  }

  /** The maps are each other's inverse, and hold pairs of matching brackets. */
  ghost predicate Inverse(c: Code, close: map<nat, nat>, open: map<nat, nat>) {
    && (forall p: nat :: p in close ==> IsPair(c, p, close[p]) && close[p] in open && open[close[p]] == p)
    && (forall q: nat :: q in open ==> open[q] in close && close[open[q]] == q)
  }

  /** `m` pairs every bracket of the code with its partner. */
  ghost predicate Pairs(c: Code, m: Brackets) {
    && m.Matched?
    && Inverse(c, m.close, m.open)
    && (forall p: nat :: OpenerAt(c, p) ==> p in m.close)
    && (forall q: nat :: CloserAt(c, q) ==> q in m.open)
  }

  /** The stack holds the openers before `pos` that are still open, in order. */
  ghost predicate Stacked(c: Code, pos: nat, stack: seq<nat>, close: map<nat, nat>) {
    && (forall i :: 0 <= i < |stack| ==> stack[i] < pos && OpenerAt(c, stack[i]) && stack[i] !in close)
    && (forall i, j :: 0 <= i < j < |stack| ==> stack[i] < stack[j])
    && (forall p: nat :: p < pos && OpenerAt(c, p) ==> p in close || p in stack)
  }

  /** Every closer before `pos`, and nothing after, has its partner. */
  ghost predicate ClosedBefore(c: Code, pos: nat, open: map<nat, nat>) {
    && (forall q: nat :: q < pos && CloserAt(c, q) ==> q in open)
    && (forall q: nat :: q in open ==> q < pos)
  }

  ghost predicate PairsBefore(c: Code, pos: nat, stack: seq<nat>, close: map<nat, nat>, open: map<nat, nat>) {
    pos <= |c| && Stacked(c, pos, stack, close) && ClosedBefore(c, pos, open) && Inverse(c, close, open)
  }

  lemma PushKeepsPairs(c: Code, pos: nat, stack: seq<nat>, close: map<nat, nat>, open: map<nat, nat>)
    requires PairsBefore(c, pos, stack, close, open) && OpenerAt(c, pos)
    ensures PairsBefore(c, pos + 1, stack + [pos], close, open)
  {
    assert !CloserAt(c, pos);
    hide OpenerAt, CloserAt, CloserOf;
    var more := stack + [pos];
    assert more[|stack|] == pos;
    assert forall p :: p in stack ==> p in more;
  }

  lemma PopKeepsStacked(c: Code, pos: nat, stack: seq<nat>, close: map<nat, nat>)
    requires Stacked(c, pos, stack, close) && stack != [] && pos < |c| && CloserAt(c, pos)
    ensures Stacked(c, pos + 1, stack[..|stack| - 1], close[stack[|stack| - 1] := pos])
  {
    assert !OpenerAt(c, pos);
    hide OpenerAt, CloserAt;
    var o := stack[|stack| - 1];
    assert stack == stack[..|stack| - 1] + [o];
  }

  lemma PopKeepsInverse(c: Code, close: map<nat, nat>, open: map<nat, nat>, o: nat, pos: nat)
    requires Inverse(c, close, open) && IsPair(c, o, pos) && o !in close && pos !in open
    ensures Inverse(c, close[o := pos], open[pos := o])
  {
    hide IsPair;
  }

  lemma PopKeepsPairs(c: Code, pos: nat, stack: seq<nat>, close: map<nat, nat>, open: map<nat, nat>)
    requires PairsBefore(c, pos, stack, close, open) && CloserAt(c, pos)
    requires stack != [] && CloserOf(c[stack[|stack| - 1]].text) == c[pos].text
    ensures PairsBefore(c, pos + 1, stack[..|stack| - 1], close[stack[|stack| - 1] := pos],
                        open[pos := stack[|stack| - 1]])
  {
    var o := stack[|stack| - 1];
    PopKeepsStacked(c, pos, stack, close);
    PopKeepsInverse(c, close, open, o, pos);
    hide OpenerAt, CloserAt, CloserOf, Stacked, Inverse;
  }

  lemma SkipKeepsPairs(c: Code, pos: nat, stack: seq<nat>, close: map<nat, nat>, open: map<nat, nat>)
    requires PairsBefore(c, pos, stack, close, open) && pos < |c| && !OpenerAt(c, pos) && !CloserAt(c, pos)
    ensures PairsBefore(c, pos + 1, stack, close, open)
  {
    hide OpenerAt, CloserAt, CloserOf;
  }

  lemma EndPairs(c: Code, close: map<nat, nat>, open: map<nat, nat>)
    requires PairsBefore(c, |c|, [], close, open)
    ensures Pairs(c, Matched(close, open))
  {
    assert forall p: nat :: OpenerAt(c, p) || CloserAt(c, p) ==> p < |c|;
    hide OpenerAt, CloserAt, CloserOf;
  }

  lemma {:induction false} MatchedPairs(c: Code, pos: nat, stack: seq<nat>, close: map<nat, nat>, open: map<nat, nat>)
    requires PairsBefore(c, pos, stack, close, open)
    ensures MatchFrom(c, pos, stack, close, open).Matched? ==> Pairs(c, MatchFrom(c, pos, stack, close, open))
    decreases |c| - pos
  {
    assert pos <= |c| && forall i :: 0 <= i < |stack| ==> stack[i] < |c|;
    if pos == |c| {
      if stack == [] { EndPairs(c, close, open); }
      return;
    } else if !OpenerAt(c, pos) && !CloserAt(c, pos) {
      SkipKeepsPairs(c, pos, stack, close, open);
    }
    hide OpenerAt, CloserAt, CloserOf, PairsBefore, Pairs;
    if OpenerAt(c, pos) {
      PushKeepsPairs(c, pos, stack, close, open);
      MatchedPairs(c, pos + 1, stack + [pos], close, open);
    } else if CloserAt(c, pos) {
      if stack != [] && CloserOf(c[stack[|stack| - 1]].text) == c[pos].text {
        PopKeepsPairs(c, pos, stack, close, open);
        MatchedPairs(c, pos + 1, stack[..|stack| - 1], close[stack[|stack| - 1] := pos],
                     open[pos := stack[|stack| - 1]]);
      }
    } else {
      MatchedPairs(c, pos + 1, stack, close, open);
    }
  }

  function MatchAll(c: Code): (m: Brackets)
    ensures m.Matched? ==> Pairs(c, m)
  {
    MatchedPairs(c, 0, [], map[], map[]);
    MatchFrom(c, 0, [], map[], map[])
  }

  // ---- how a name is used

  datatype Lambda = Lambda(explicit: bool, parent: Option<nat>, applied: bool, params: set<string>,
                           locals: set<string>, open: nat, close: nat)
  {
    predicate IsLocal(name: string) {
      name in params || name in locals || (!explicit && name in IMPLICIT)
    }
  }

  /** Its body runs when the statement holding it runs: it, and every lambda
      around it, is applied where it is written. */
  predicate RunsInline(lams: seq<Lambda>, k: nat)
    decreases k
  {
    k < |lams| && lams[k].applied &&
    (lams[k].parent.Some? ==> lams[k].parent.value < k && RunsInline(lams, lams[k].parent.value))
  }

  datatype Role = Ref | Assign | GAssign | Compound | Indexed | Column

  datatype Use = Use(pos: nat, idx: nat, lam: Option<nat>, role: Role, columnCtx: bool, called: bool)

  datatype Lookup = Lookup(idx: nat, lam: Option<nat>, level: nat)

  const COMPUTED: nat := 1
  const RELATIVE: nat := 2

  datatype FrameKind = Top | Paren | Bracket | InLambda | Table | TableKey

  datatype Phrase = NoPhrase | Cols | By | From | Where

  datatype Frame = Frame(kind: FrameKind, lam: Option<nat>, qsql: Phrase, segStart: bool)

  datatype Scan = Scan(stack: seq<Frame>, lams: seq<Lambda>, uses: seq<Use>, lookups: seq<Lookup>, dotted: bool)

  predicate IsRelative(name: string) { name == "" || name[0] != '.' }

  predicate IsAssignOp(t: string) {
    |t| == 1 && t[0] in {'+', '-', '*', '%', '&', '|', '^', '=', '<', '>', ',', '#', '_', '~', '!', '?', '@', '.', '$'}
  }

  /** `:`, `::` or a modified assignment such as `,:` starts at `pos`. */
  predicate AssignsAfter(c: Code, pos: nat) {
    && HasKind(c, pos, Op)
    && (c[pos].text == ":" || c[pos].text == "::"
        || (IsAssignOp(c[pos].text) && TextAt(c, pos + 1) == ":" && c[pos + 1].idx == c[pos].idx + 1))
  }

  function RoleOf(c: Code, m: Brackets, pos: nat, f: Frame): Role
    requires m.Matched?
  {
    var nxt := TextAt(c, pos + 1);
    if !HasKind(c, pos + 1, Op) then Ref
    else if f.segStart && nxt == ":" && (f.kind == Table || f.kind == TableKey || f.qsql == Cols || f.qsql == By) then
      Column
    else if nxt == "::" then GAssign
    else if nxt == ":" then Assign
    else if AssignsAfter(c, pos + 1) then Compound
    else if nxt == "[" && pos + 1 in m.close && AssignsAfter(c, m.close[pos + 1] + 1) then Indexed
    else Ref
  }

  /** What stands at `pos` is applied to what follows, not just referred to. */
  predicate Called(c: Code, pos: nat) {
    var nxt := TextAt(c, pos + 1);
    || (TextAt(c, pos - 1) == "[" && (TextAt(c, pos - 2) == "@" || TextAt(c, pos - 2) == "."))
    || (pos + 1 < |c| &&
        if HasKind(c, pos + 1, Name) && IsBuiltin(nxt) then nxt in ITERATORS
        else c[pos + 1].kind in {Name, Num, Str, Sym}
             || nxt in {"[", "(", "{", "'", "/", "\\", "/:", "\\:", "':", "@", "."})
  }

  predicate RelativeSymbol(c: Code, pos: int) {
    HasKind(c, pos, Sym) && 2 <= |c[pos].text| && IsNameStart(c[pos].text[1])
  }

  /** The operand right of a name: to the end of its expression. */
  function RightOperand(c: Code, j: nat, depth: nat): Code
    decreases |c| - j
  {
    if j >= |c| then []
    else
      var t := c[j];
      if IsOpener(t.text) then [t] + RightOperand(c, j + 1, depth + 1)
      else if IsCloser(t.text) then (if depth == 0 then [] else [t] + RightOperand(c, j + 1, depth - 1))
      else if t.text == ";" && depth == 0 then []
      else [t] + RightOperand(c, j + 1, depth)
  }

  /** A bracketed group, and the name it indexes. */
  function LeftGroup(c: Code, k: int, j: nat): Code
    requires 0 <= k <= j < |c|
  {
    (if c[j].text == "]" && HasKind(c, k - 1, Name) then [c[k - 1]] else []) + c[k..j + 1]
  }

  /** The one noun left of a name: a name, a literal or a bracketed group. */
  function LeftOperand(c: Code, m: Brackets, pos: nat): Code
    requires m.Matched?
  {
    var j := pos - 1;
    if !(0 <= j < |c|) then []
    else if (c[j].text == ")" || c[j].text == "]") && j in m.open && m.open[j] <= j then
      LeftGroup(c, m.open[j], j)
    else [c[j]]
  }

  predicate SymbolStarts(t: Sig, prefix: string) { t.kind == Sym && prefix <= t.text }

  /** A computed name that is absolute whatever its value. */
  predicate Absolute(operand: Code) {
    || (exists i :: 0 <= i < |operand| && (operand[i].text == "hsym" || SymbolStarts(operand[i], "`:")))
    || ((exists i :: 0 <= i < |operand| && operand[i].text == "sv") &&
        (exists i :: 0 <= i < |operand| && SymbolStarts(operand[i], "`.")))
  }

  /** A code string that switches context or loads a file. */
  predicate SwitchesByString(text: string) {
    var cmd := if text == "" then "" else text[1..][LeadingSpaces(text[1..])..];
    cmd != "" && (cmd[0] == 'd' || cmd[0] == 'l') && (|cmd| == 1 || !IsNameChar(cmd[1]))
  }

  function ReadLevel(c: Code, pos: nat, arg: nat, name: string): (level: nat)
    ensures level <= RELATIVE
  {
    if RelativeSymbol(c, arg) then RELATIVE
    else if HasKind(c, arg, Str) && name != "get" then RELATIVE
    else if name == "get" && !HasKind(c, arg, Sym) && !Absolute(RightOperand(c, pos + 1, 0)) then COMPUTED
    else 0
  }

  function WriteLevel(c: Code, m: Brackets, pos: nat, name: string): (level: nat)
    requires m.Matched?
    ensures level <= RELATIVE
  {
    if RelativeSymbol(c, pos - 1) then RELATIVE
    else if name == "set" && !HasKind(c, pos - 1, Sym) && !Absolute(LeftOperand(c, m, pos)) then COMPUTED
    else 0
  }

  /** How the name at `pos` looks something up at run time: not at all (0), by a
      computed name, or by a name relative to the working context. */
  function LookupLevel(c: Code, m: Brackets, pos: nat): (level: nat)
    requires m.Matched? && pos < |c|
    ensures level <= RELATIVE
  {
    var name := c[pos].text;
    var arg := if TextAt(c, pos + 1) == "[" then pos + 2 else pos + 1;
    if name in READERS then ReadLevel(c, pos, arg, name)
    else if name in WRITERS then WriteLevel(c, m, pos, name)
    else if name == "system" && HasKind(c, arg, Str) && SwitchesByString(c[arg].text) then RELATIVE
    else 0
  }

  /** Inside a qSQL column phrase: the innermost lambda's frames only. */
  predicate InColumnPhrase(stack: seq<Frame>) {
    stack != [] &&
    var f := stack[|stack| - 1];
    (f.qsql == Cols || f.qsql == By || f.qsql == Where || (f.kind != InLambda && InColumnPhrase(stack[..|stack| - 1])))
  }

  // ---- the walk over a statement

  function TopOf(st: Scan): Frame
    requires st.stack != []
  {
    st.stack[|st.stack| - 1]
  }

  function WithTop(st: Scan, f: Frame): Scan
    requires st.stack != []
  {
    st.(stack := st.stack[..|st.stack| - 1] + [f])
  }

  /** The qSQL word that moves a phrase on, if `name` is it. */
  function NextPhrase(q: Phrase, name: string): Phrase {
    if (q == Cols || q == By) && name == "from" then From
    else if q == Cols && name == "by" then By
    else if q == From && name == "where" then Where
    else NoPhrase
  }

  predicate RelativeDotted(name: string) { IsRelative(name) && '.' in name }

  /** What one name adds: its lookup, its use, and the local it makes. */
  function RecordName(c: Code, m: Brackets, pos: nat, st: Scan): (st': Scan)
    requires m.Matched? && pos < |c| && st.stack != []
    ensures |st'.stack| == |st.stack|
  {
    var f := TopOf(st);
    var name := c[pos].text;
    var level := LookupLevel(c, m, pos);
    var role := RoleOf(c, m, pos, f);
    var use := Use(pos, c[pos].idx, f.lam, role, InColumnPhrase(st.stack), Called(c, pos));
    var lams := if role == Assign && f.lam.Some? && f.lam.value < |st.lams| && IsRelative(name)
                then var l := st.lams[f.lam.value];
                     st.lams[f.lam.value := l.(locals := l.locals + {name})]
                else st.lams;
    Scan(st.stack[..|st.stack| - 1] + [f.(segStart := false)], lams, st.uses + [use],
         if level > 0 then st.lookups + [Lookup(c[pos].idx, f.lam, level)] else st.lookups,
         st.dotted || RelativeDotted(name))
  }

  function NameStep(c: Code, m: Brackets, pos: nat, st: Scan): (st': Scan)
    requires m.Matched? && pos < |c| && st.stack != []
    ensures |st'.stack| == |st.stack|
  {
    var f := TopOf(st);
    var name := c[pos].text;
    var next := NextPhrase(f.qsql, name);
    if name in QSQL_START then WithTop(st, f.(qsql := Cols, segStart := true))
    else if next != NoPhrase then WithTop(st, f.(qsql := next, segStart := next != From))
    else RecordName(c, m, pos, st)
  }

  function ParamNames(c: Code, lo: nat, hi: nat): set<string>
    requires hi < |c|
  {
    set p | lo <= p <= hi && c[p].kind == Name :: c[p].text
  }

  /** The brace at `pos` has a parameter list right after it. */
  predicate HasParams(c: Code, m: Brackets, pos: nat)
    requires m.Matched? && pos < |c|
  {
    TextAt(c, pos + 1) == "[" && c[pos + 1].idx == c[pos].idx + 1 && pos + 1 in m.close
  }

  function LambdaAt(c: Code, m: Brackets, pos: nat, parent: Option<nat>): Lambda
    requires Pairs(c, m) && OpenerAt(c, pos)
  {
    var explicit := HasParams(c, m, pos);
    Lambda(explicit, parent, Called(c, m.close[pos]), if explicit then ParamNames(c, pos + 1, m.close[pos + 1]) else {},
           {}, pos, m.close[pos])
  }

  /** A lambda's brace: with a parameter list, the position moves to the list's end. */
  function OpenLambda(c: Code, m: Brackets, pos: nat, st: Scan): (r: (Scan, nat))
    requires Pairs(c, m) && st.stack != [] && OpenerAt(c, pos)
    ensures |r.0.stack| == |st.stack| + 1 && pos <= r.1 < |c|
  {
    (st.(stack := st.stack + [Frame(InLambda, Some(|st.lams|), NoPhrase, false)],
         lams := st.lams + [LambdaAt(c, m, pos, TopOf(st).lam)]),
     if HasParams(c, m, pos) then m.close[pos + 1] else pos)
  }

  function OpStep(c: Code, m: Brackets, pos: nat, st: Scan): (r: (Scan, nat))
    requires Pairs(c, m) && pos < |c| && c[pos].kind == Op && st.stack != []
    ensures r.0.stack != [] && pos <= r.1 < |c|
  {
    var f := TopOf(st);
    var text := c[pos].text;
    var quiet := WithTop(st, f.(segStart := false));
    if text == "{" then OpenLambda(c, m, pos, st)
    else if text == "(" then
      (st.(stack := st.stack + [Frame(if TextAt(c, pos + 1) == "[" then Table else Paren, f.lam, NoPhrase, false)]),
       pos)
    else if text == "[" then
      var key := f.kind == Table && TextAt(c, pos - 1) == "(";
      (st.(stack := st.stack + [Frame(if key then TableKey else Bracket, f.lam, NoPhrase, key)]), pos)
    else if IsCloser(text) then
      if |st.stack| < 2 then (st, pos)  // never: see ScannerProofs.WalkMirrors
      else
        var under := st.(stack := st.stack[..|st.stack| - 1]);
        (if f.kind == TableKey then WithTop(under, TopOf(under).(segStart := true)) else under, pos)
    else if text == ";" then (WithTop(st, f.(qsql := NoPhrase, segStart := true)), pos)
    else if text == "," && (f.qsql == Cols || f.qsql == By || f.qsql == Where) then
      (WithTop(st, f.(segStart := true)), pos)
    else if (text == "@" || text == ".") && TextAt(c, pos + 1) == "[" && RelativeSymbol(c, pos + 2) then
      (quiet.(lookups := quiet.lookups + [Lookup(c[pos].idx, f.lam, RELATIVE)]), pos)
    else (quiet, pos)
  }

  /** One round of the walk: the state after the token at `pos`, and where the walk goes on. */
  function WalkStep(c: Code, m: Brackets, pos: nat, st: Scan): (r: (Scan, nat))
    requires Pairs(c, m) && pos < |c| && st.stack != []
    ensures r.0.stack != [] && pos < r.1 <= |c|
  {
    if c[pos].kind == Name then (NameStep(c, m, pos, st), pos + 1)
    else if c[pos].kind == Op then
      var (st', last) := OpStep(c, m, pos, st);
      (st', last + 1)
    else (WithTop(st, TopOf(st).(segStart := false)), pos + 1)
  }

  function Walk(c: Code, m: Brackets, pos: nat, st: Scan): Scan
    requires Pairs(c, m) && pos <= |c| && st.stack != []
    decreases |c| - pos
  {
    if pos == |c| then st
    else
      var (st', next) := WalkStep(c, m, pos, st);
      Walk(c, m, next, st')
  }

  const START: Scan := Scan([Frame(Top, None, NoPhrase, true)], [], [], [], false)

  /** The name, when the whole statement is `name:{...}`: it runs nothing while the file loads. */
  function DefinitionOf(c: Code, m: Brackets): Option<string>
    requires m.Matched?
  {
    if |c| < 4 || c[0].kind != Name || c[1].text != ":" || c[2].text != "{" then None
    else
      var end := if c[|c| - 1].text == ";" then |c| - 2 else |c| - 1;
      if 2 in m.close && m.close[2] == end then Some(c[0].text) else None
  }

  datatype Statement = Refused | Parsed(uses: seq<Use>, lookups: seq<Lookup>, lams: seq<Lambda>,
                                        definition: Option<string>)

  function ParseCode(c: Code): Statement {
    var m := MatchAll(c);
    if m.Unmatched? then Refused
    else
      var st := Walk(c, m, 0, START);
      if st.dotted then Refused else Parsed(st.uses, st.lookups, st.lams, DefinitionOf(c, m))
  }

  function Parse(toks: seq<Tok>, lo: nat, hi: nat): Statement
    requires hi <= |toks|
  {
    ParseCode(Significant(toks, lo, hi))
  }
}
