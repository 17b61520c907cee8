/** A statement's analysis as the source runs it: an object whose methods push and
    pop bracket stacks and fill in uses, lookups and lambdas as they walk. */
module StatementClass {
  import opened Options
  import opened Lexer
  import opened QWords
  import opened Scanner

  /** Bracket pairs by position, or that some bracket has none. */
  method BracketMatches(c: Code) returns (m: Brackets)
    ensures m == MatchAll(c)
  {
    var stack: seq<nat> := [];
    var close: map<nat, nat>, open: map<nat, nat> := map[], map[];
    var pos := 0;
    while pos < |c|
      invariant pos <= |c| && forall i :: 0 <= i < |stack| ==> stack[i] < |c|
      invariant MatchFrom(c, pos, stack, close, open) == MatchAll(c)
    {
      if c[pos].kind == Op {
        if IsOpener(c[pos].text) {
          stack := stack + [pos];
        } else if IsCloser(c[pos].text) {
          if stack == [] || CloserOf(c[stack[|stack| - 1]].text) != c[pos].text {
            return Unmatched;
          }
          var o := stack[|stack| - 1];
          stack := stack[..|stack| - 1];
          close, open := close[o := pos], open[pos := o];
        }
      }
      pos := pos + 1;
    }
    m := if stack == [] then Matched(close, open) else Unmatched;
  }

  class Analysis {
    const code: Code
    const brackets: Brackets
    var stack: seq<Frame>
    var lams: seq<Lambda>
    var uses: seq<Use>
    var lookups: seq<Lookup>
    var dotted: bool

    function State(): Scan
      reads this
    {
      Scan(stack, lams, uses, lookups, dotted)
    }

    constructor (code: Code, brackets: Brackets)
      ensures this.code == code && this.brackets == brackets && State() == START
    {
      this.code, this.brackets := code, brackets;
      stack, lams, uses, lookups, dotted := [Frame(Top, None, NoPhrase, true)], [], [], [], false;
    }

    /** Sets the innermost frame, which every method but a bracket's works on. */
    method SetTop(f: Frame)
      requires stack != []
      modifies this`stack
      ensures State() == WithTop(old(State()), f)
    {
      stack := stack[..|stack| - 1] + [f];
    }

    method Name(pos: nat)
      requires brackets.Matched? && pos < |code| && stack != []
      modifies this
      ensures State() == NameStep(code, brackets, pos, old(State()))
    {
      hide LookupLevel, RoleOf, Called, InColumnPhrase, RelativeDotted, IsRelative;
      var f := stack[|stack| - 1];
      var name := code[pos].text;
      if name in QSQL_START {
        SetTop(f.(qsql := Cols, segStart := true));
        return;
      }
      var next := NextPhrase(f.qsql, name);
      if next != NoPhrase {
        SetTop(f.(qsql := next, segStart := next != From));
        return;
      }
      if RelativeDotted(name) {
        dotted := true;
      }
      var level := LookupLevel(code, brackets, pos);
      if level > 0 {
        lookups := lookups + [Lookup(code[pos].idx, f.lam, level)];
      }
      var role := RoleOf(code, brackets, pos, f);
      uses := uses + [Use(pos, code[pos].idx, f.lam, role, InColumnPhrase(stack), Called(code, pos))];
      if role == Assign && f.lam.Some? && f.lam.value < |lams| && IsRelative(name) {
        var l := lams[f.lam.value];
        lams := lams[f.lam.value := l.(locals := l.locals + {name})];
      }
      SetTop(f.(segStart := false));
    }

    method Bracket(pos: nat) returns (last: nat)
      requires Pairs(code, brackets) && OpenerAt(code, pos) && stack != []
      modifies this
      ensures (State(), last) == OpStep(code, brackets, pos, old(State()))
    {
      assert brackets.Matched?;
      hide LambdaAt, Pairs, Called, RelativeSymbol;
      var f := stack[|stack| - 1];
      last := pos;
      if code[pos].text == "{" {
        stack := stack + [Frame(InLambda, Some(|lams|), NoPhrase, false)];
        lams := lams + [LambdaAt(code, brackets, pos, f.lam)];
        if HasParams(code, brackets, pos) {
          last := brackets.close[pos + 1];
        }
      } else if code[pos].text == "(" {
        stack := stack + [Frame(if TextAt(code, pos + 1) == "[" then Table else Paren, f.lam, NoPhrase, false)];
      } else {
        var key := f.kind == Table && TextAt(code, pos - 1) == "(";
        stack := stack + [Frame(if key then TableKey else FrameKind.Bracket, f.lam, NoPhrase, key)];
      }
    }

    method Operator(pos: nat)
      requires Pairs(code, brackets) && pos < |code| && code[pos].kind == Op && !IsOpener(code[pos].text) && stack != []
      modifies this
      ensures (State(), pos) == OpStep(code, brackets, pos, old(State()))
    {
      hide Pairs, RelativeSymbol, OpenLambda;
      var f := stack[|stack| - 1];
      var text := code[pos].text;
      if IsCloser(text) {
        if |stack| >= 2 {
          stack := stack[..|stack| - 1];
          if f.kind == TableKey {
            SetTop(stack[|stack| - 1].(segStart := true));
          }
        }
      } else if text == ";" {
        SetTop(f.(qsql := NoPhrase, segStart := true));
      } else if text == "," && (f.qsql == Cols || f.qsql == By || f.qsql == Where) {
        SetTop(f.(segStart := true));
      } else {
        if (text == "@" || text == ".") && TextAt(code, pos + 1) == "[" && RelativeSymbol(code, pos + 2) {
          lookups := lookups + [Lookup(code[pos].idx, f.lam, RELATIVE)];
        }
        SetTop(f.(segStart := false));
      }
    }

    /** One round of the walk: the token at `pos`, and where the walk goes on. */
    method Step(pos: nat) returns (next: nat)
      requires Pairs(code, brackets) && pos < |code| && stack != []
      modifies this
      ensures (State(), next) == WalkStep(code, brackets, pos, old(State()))
      ensures stack != [] && pos < next <= |code|
    {
      assert brackets.Matched?;
      hide Pairs, NameStep, OpStep, WithTop;
      next := pos + 1;
      if code[pos].kind == Kind.Name {
        Name(pos);
      } else if code[pos].kind == Op {
        if IsOpener(code[pos].text) {
          var last := Bracket(pos);
          next := last + 1;
        } else {
          Operator(pos);
        }
      } else {
        SetTop(stack[|stack| - 1].(segStart := false));
      }
    }

    method WalkAll()
      requires Pairs(code, brackets) && State() == START
      modifies this
      ensures State() == Walk(code, brackets, 0, START)
    {
      hide Pairs, WalkStep;
      var pos := 0;
      while pos < |code|
        invariant pos <= |code| && stack != [] && Pairs(code, brackets)
        invariant Walk(code, brackets, pos, State()) == Walk(code, brackets, 0, START)
      {
        WalkOnce(code, brackets, pos, State());
        pos := Step(pos);
      }
    }
  }

  lemma WalkOnce(c: Code, m: Brackets, pos: nat, st: Scan)
    requires Pairs(c, m) && pos < |c| && st.stack != []
    ensures var (st', next) := WalkStep(c, m, pos, st); Walk(c, m, pos, st) == Walk(c, m, next, st')
  {
    hide WalkStep, Pairs;
  }

  /** The statement at `lo` to `hi`, analysed. */
  method Analyse(toks: seq<Tok>, lo: nat, hi: nat) returns (st: Statement)
    requires hi <= |toks|
    ensures st == Parse(toks, lo, hi)
  {
    hide Walk, DefinitionOf, Pairs, Significant;
    var code := Significant(toks, lo, hi);
    var m := BracketMatches(code);
    if m.Unmatched? {
      return Refused;
    }
    var a := new Analysis(code, m);
    a.WalkAll();
    st := if a.dotted then Refused else Parsed(a.uses, a.lookups, a.lams, DefinitionOf(code, m));
  }
}
