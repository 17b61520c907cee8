/** Where a file's statements begin, what they hold, and the context each runs in, said of the file's tokens. */
module StatementStarts {
  import opened Options
  import opened Chars
  import opened Lexer
  import opened Scanner
  import opened Converter

  /** Neither space, line end nor comment. */
  predicate IsWord(t: Tok) { t.kind in {Name, Num, Str, Sym, Op, Sys, Tail} }

  lemma CodeIsWord(t: Tok)
    ensures IsCode(t.kind) <==> IsWord(t)
  {
  }

  /** The line is `\d`, white space, the context and white space again. */
  ghost predicate SwitchText(t: string, ctx: string, lead: string, tail: string) {
    lead != "" && AllSpaces(lead) && AllSpaces(tail) && Trimmed(ctx) && t == "\\d" + lead + ctx + tail
  }

  ghost predicate Switches(t: Tok, ctx: string) {
    t.kind == Sys && exists lead, tail :: SwitchText(t.text, ctx, lead, tail)
  }

  /** A statement runs in the context the last switch above it names, in the root when there is none. */
  ghost predicate RunsIn(toks: seq<Tok>, lo: nat, ctx: string) {
    || (ctx == "." &&
        forall k: nat, other: string :: k < lo && k < |toks| && toks[k].col == 0 ==> !Switches(toks[k], other))
    || (exists k: nat :: k < lo && SwitchedAt(toks, k, lo, ctx))
  }

  /** The switch at `k` is the last one before `lo`. */
  ghost predicate SwitchedAt(toks: seq<Tok>, k: nat, lo: nat, ctx: string) {
    && k < |toks| && toks[k].col == 0 && Switches(toks[k], ctx)
    && forall n: nat, other: string :: k < n < lo && n < |toks| && toks[n].col == 0 ==> !Switches(toks[n], other)
  }

  // ---- one line

  /** The context a line names is the one text its parts spell. */
  lemma SwitchIs(t: string, ctx: string, lead: string, tail: string)
    requires SwitchText(t, ctx, lead, tail)
    ensures ContextOf(t) == Some(ctx)
  {
    var w := WordEnd(t);
    assert t[0] == '\\' && t[1] == 'd' && t[2] == lead[0];
    assert w == 2 by { assert IsSpace(t[2]) && !IsSpace(t[0]) && !IsSpace(t[1]); }
    var s := t[2..];
    assert s == lead + ctx + tail;
    StripIs(s, ctx, lead, tail);
  }

  /** SWITCHES. A line's context is the one it names. */
  lemma SwitchesIff(t: Tok, ctx: string)
    requires ctx != ""
    ensures Switches(t, ctx) <==> t.kind == Sys && ContextOf(t.text) == Some(ctx)
  {
    hide SwitchText, ContextOf;
    if Switches(t, ctx) {
      var lead, tail :| SwitchText(t.text, ctx, lead, tail);
      SwitchIs(t.text, ctx, lead, tail);
    }
    if t.kind == Sys && ContextOf(t.text) == Some(ctx) {
      var lead, tail := SwitchParts(t.text, ctx);
      assert SwitchText(t.text, ctx, lead, tail);
    }
  }

  lemma SwitchParts(t: string, ctx: string) returns (lead: string, tail: string)
    requires ctx != "" && ContextOf(t) == Some(ctx)
    ensures SwitchText(t, ctx, lead, tail)
  {
    hide WordEnd, Strip, IsSpace, AllSpaces, Trimmed;
    var w := WordEnd(t);
    lead, tail := StripParts(t[w..]);
    assert t[..w] == "\\d" && Strip(t[w..]) == ctx;
    JoinedBy(t, w, ctx, lead, tail);
  }

  lemma JoinedBy(t: string, w: nat, ctx: string, lead: string, tail: string)
    requires w <= |t| && t[..w] == "\\d" && t[w..] == lead + ctx + tail && (w < |t| ==> IsSpace(t[w])) && Trimmed(ctx)
    ensures t == "\\d" + lead + ctx + tail && lead != ""
  {
    hide IsSpace;
    var s := t[w..];
    assert t == t[..w] + s;
    assert s != "" by { assert |s| == |lead| + |ctx| + |tail|; }
    LeadThere(s, lead, ctx, tail);
  }

  lemma LeadThere(s: string, lead: string, ctx: string, tail: string)
    requires s == lead + ctx + tail && s != "" && IsSpace(s[0]) && ctx != "" && !IsSpace(ctx[0])
    ensures lead != ""
  {
    assert s[|lead|] == ctx[0];
  }

  // ---- all statements

  /** Where the `n`th of these positions has the `n`th start. */
  lemma {:induction false} StartsAre(toks: seq<Tok>, k: nat)
    requires k <= |toks|
    ensures forall n: nat :: k <= n < |toks| && Starts(toks[n]) ==> n in StartsFrom(toks, k)
    decreases |toks| - k
  {
    hide Starts;
    if k < |toks| { StartsAre(toks, k + 1); }
  }

  /** The context before the `i`th start and what stands before it agree. */
  lemma {:induction false} ContextsAre(toks: seq<Tok>, starts: seq<nat>, i: nat, ctx: string)
    requires i <= |starts|
    requires forall j :: 0 <= j < |starts| ==> starts[j] < |toks| && Starts(toks[starts[j]])
    requires forall j, k :: 0 <= j < k < |starts| ==> starts[j] < starts[k]
    requires forall n: nat :: n < |toks| && Starts(toks[n]) ==> n in starts
    requires i < |starts| ==> RunsIn(toks, starts[i], ctx)
    ensures var ss := StatementsFrom(toks, starts, i, ctx);
            forall j :: 0 <= j < |ss| ==> RunsIn(toks, ss[j].lo, ss[j].ctx)
    decreases |starts| - i
  {
    hide *;
    FromStep(toks, starts, i, ctx);
    if i < |starts| {
      var next := NextContext(toks[starts[i]], ctx);
      if i + 1 < |starts| {
        NoneBetween(toks, starts, i);
        RunsOn(toks, starts[i], starts[i + 1], ctx);
      }
      ContextsAre(toks, starts, i + 1, next);
      forall j | 0 <= j < |StatementsFrom(toks, starts, i, ctx)|
        ensures RunsIn(toks, StatementsFrom(toks, starts, i, ctx)[j].lo, StatementsFrom(toks, starts, i, ctx)[j].ctx) {
        if j > 0 {
          assert StatementsFrom(toks, starts, i, ctx)[j] == StatementsFrom(toks, starts, i + 1, next)[j - 1];
        }
      }
    }
  }

  lemma FromStep(toks: seq<Tok>, starts: seq<nat>, i: nat, ctx: string)
    requires i <= |starts| && forall j :: 0 <= j < |starts| ==> starts[j] < |toks|
    requires forall j, k :: 0 <= j < k < |starts| ==> starts[j] < starts[k]
    ensures var ss := StatementsFrom(toks, starts, i, ctx);
            if i == |starts| then ss == []
            else
              && ss != [] && ss[0].lo == starts[i] && ss[0].ctx == ctx
              && ss[1..] == StatementsFrom(toks, starts, i + 1, NextContext(toks[starts[i]], ctx))
  {
    hide NextContext;
  }

  lemma NoneBetween(toks: seq<Tok>, starts: seq<nat>, i: nat)
    requires i + 1 < |starts| && forall j, k :: 0 <= j < k < |starts| ==> starts[j] < starts[k]
    requires forall n: nat :: n < |toks| && Starts(toks[n]) ==> n in starts
    ensures forall n: nat :: starts[i] < n < starts[i + 1] && n < |toks| ==> !Starts(toks[n])
  {
    hide Starts;
  }

  /** From one start to the next. */
  lemma RunsOn(toks: seq<Tok>, lo: nat, hi: nat, ctx: string)
    requires lo < hi && lo < |toks| && Starts(toks[lo]) && RunsIn(toks, lo, ctx)
    requires forall n: nat :: lo < n < hi && n < |toks| ==> !Starts(toks[n])
    ensures RunsIn(toks, hi, NextContext(toks[lo], ctx))
  {
    var next := NextContext(toks[lo], ctx);
    if toks[lo].kind == Sys && ContextOf(toks[lo].text).Some? && ContextOf(toks[lo].text).value != "" {
      SwitchesIff(toks[lo], next);
      NoneSwitches(toks, lo, hi);
      assert SwitchedAt(toks, lo, hi, next) by { hide Switches; }
    } else {
      NotSwitching(toks[lo]);
      NoneSwitches(toks, lo, hi);
      hide Switches, NextContext, ContextOf;
      if k: nat :| k < lo && SwitchedAt(toks, k, lo, ctx) {
        assert SwitchedAt(toks, k, hi, ctx);
      }
    }
  }

  lemma NotSwitching(t: Tok)
    requires !(t.kind == Sys && ContextOf(t.text).Some? && ContextOf(t.text).value != "")
    ensures forall other :: !Switches(t, other)
  {
    forall other ensures !Switches(t, other) {
      if Switches(t, other) { SwitchNamed(t, other); }
      if other != "" { SwitchesIff(t, other); }
    }
  }

  lemma SwitchNamed(t: Tok, ctx: string)
    requires Switches(t, ctx)
    ensures ctx != ""
  {
  }

  lemma NoneSwitches(toks: seq<Tok>, lo: nat, hi: nat)
    requires forall n: nat :: lo < n < hi && n < |toks| ==> !Starts(toks[n])
    ensures forall n: nat, other: string :: lo < n < hi && n < |toks| && toks[n].col == 0 ==> !Switches(toks[n], other)
  {
  }

  /** Each word in the first column begins a statement, which runs to the next. */
  ghost predicate Divided(toks: seq<Tok>, ss: seq<Stmt>) {
    && (forall k: nat :: k < |toks| && toks[k].col == 0 && IsWord(toks[k]) ==> BegunBy(ss, k))
    && (forall j :: 0 <= j < |ss| ==> ss[j].lo < |toks| && toks[ss[j].lo].col == 0 && IsWord(toks[ss[j].lo]))
    && (forall j :: 0 <= j < |ss| ==> ss[j].hi == if j + 1 < |ss| then ss[j + 1].lo else |toks|)
    && (forall i, j :: 0 <= i < j < |ss| ==> ss[i].lo < ss[j].lo)
  }

  ghost predicate BegunBy(ss: seq<Stmt>, k: nat) { exists j :: 0 <= j < |ss| && ss[j].lo == k }

  /** STATEMENTS. Each word in the first column begins one, it runs to the next, and it
      runs in the context of the last switch above it. */
  lemma StatementsSay(toks: seq<Tok>)
    ensures Divided(toks, StatementsOf(toks))
    ensures var ss := StatementsOf(toks); forall j :: 0 <= j < |ss| ==> RunsIn(toks, ss[j].lo, ss[j].ctx)
  {
    hide *;
    var starts := StartsFrom(toks, 0);
    StartsAre(toks, 0);
    FirstRuns(toks, starts);
    ContextsAre(toks, starts, 0, ".");
    SplitIs(toks);
    DividedBy(toks, starts, StatementsOf(toks));
  }

  lemma DividedBy(toks: seq<Tok>, starts: seq<nat>, ss: seq<Stmt>)
    requires forall j :: 0 <= j < |starts| ==> starts[j] < |toks| && Starts(toks[starts[j]])
    requires forall j, k :: 0 <= j < k < |starts| ==> starts[j] < starts[k]
    requires forall n: nat :: n < |toks| && Starts(toks[n]) ==> n in starts
    requires |ss| == |starts|
    requires forall j :: 0 <= j < |ss| ==> ss[j].lo == starts[j]
    requires forall j :: 0 <= j < |ss| ==> ss[j].hi == if j + 1 < |starts| then starts[j + 1] else |toks|
    ensures Divided(toks, ss)
  {
    hide Starts, IsWord;
    forall k: nat | k < |toks| && toks[k].col == 0 && IsWord(toks[k]) ensures BegunBy(ss, k) {
      StartIsWord(toks[k]);
      var j :| 0 <= j < |starts| && starts[j] == k;
      assert ss[j].lo == k;
    }
    forall j | 0 <= j < |ss| ensures ss[j].lo < |toks| && toks[ss[j].lo].col == 0 && IsWord(toks[ss[j].lo]) {
      StartIsWord(toks[starts[j]]);
    }
  }

  lemma StartIsWord(t: Tok)
    ensures Starts(t) <==> t.col == 0 && IsWord(t)
  {
    CodeIsWord(t);
  }

  lemma SplitIs(toks: seq<Tok>)
    ensures var starts, ss := StartsFrom(toks, 0), StatementsOf(toks);
            && ss == StatementsFrom(toks, starts, 0, ".") && |ss| == |starts|
            && (forall j :: 0 <= j < |ss| ==> ss[j].lo == starts[j])
            && (forall j :: 0 <= j < |ss| ==> ss[j].hi == if j + 1 < |starts| then starts[j + 1] else |toks|)
  {
  }

  lemma FirstRuns(toks: seq<Tok>, starts: seq<nat>)
    requires starts == StartsFrom(toks, 0)
    requires forall n: nat :: n < |toks| && Starts(toks[n]) ==> n in starts
    ensures starts != [] ==> RunsIn(toks, starts[0], ".")
  {
    if starts != [] {
      assert forall n: nat :: 0 <= n < starts[0] && n < |toks| ==> !Starts(toks[n]);
      forall k: nat, other: string | k < starts[0] && k < |toks| && toks[k].col == 0 ensures !Switches(toks[k], other) {
        assert !Starts(toks[k]);
      }
    }
  }

  /** CODE. A statement's code is its words, in order, each as it stands. */
  lemma {:induction false} CodeSays(toks: seq<Tok>, lo: nat, hi: nat)
    requires hi <= |toks|
    ensures var c := Significant(toks, lo, hi);
            && (forall k :: lo <= k < hi && IsWord(toks[k]) ==> exists i :: 0 <= i < |c| && c[i].idx == k)
            && (forall i :: 0 <= i < |c| ==>
                  lo <= c[i].idx < hi && c[i].kind == toks[c[i].idx].kind && c[i].text == toks[c[i].idx].text
                  && IsWord(toks[c[i].idx]))
            && (forall i, j :: 0 <= i < j < |c| ==> c[i].idx < c[j].idx)
    decreases hi - lo
  {
    hide *;
    CodeStep(toks, lo, hi);
    if lo < hi {
      CodeSays(toks, lo + 1, hi);
      CodeIsWord(toks[lo]);
      CodeMore(toks, lo, hi, Significant(toks, lo, hi), Significant(toks, lo + 1, hi));
    }
  }

  lemma CodeStep(toks: seq<Tok>, lo: nat, hi: nat)
    requires hi <= |toks|
    ensures Significant(toks, lo, hi) ==
              if lo >= hi then []
              else (if IsCode(toks[lo].kind) then [Sig(toks[lo].kind, toks[lo].text, lo)] else []) +
                   Significant(toks, lo + 1, hi)
  {
    hide IsCode;
  }

  lemma CodeMore(toks: seq<Tok>, lo: nat, hi: nat, c: Code, rest: Code)
    requires lo < hi <= |toks|
    requires c == (if IsWord(toks[lo]) then [Sig(toks[lo].kind, toks[lo].text, lo)] else []) + rest
    requires forall i :: 0 <= i < |rest| ==> lo + 1 <= rest[i].idx < hi && IsWord(toks[rest[i].idx])
    requires forall k :: lo + 1 <= k < hi && IsWord(toks[k]) ==> exists i :: 0 <= i < |rest| && rest[i].idx == k
    ensures forall k :: lo <= k < hi && IsWord(toks[k]) ==> exists i :: 0 <= i < |c| && c[i].idx == k
    ensures forall i :: 0 <= i < |c| ==> lo <= c[i].idx < hi && IsWord(toks[c[i].idx])
  {
    hide IsWord;
    var n := |c| - |rest|;
    assert forall i :: n <= i < |c| ==> c[i] == rest[i - n];
    forall k | lo <= k < hi && IsWord(toks[k]) ensures exists i :: 0 <= i < |c| && c[i].idx == k {
      if k == lo {
        assert c[0].idx == k;
      } else {
        var i :| 0 <= i < |rest| && rest[i].idx == k;
        assert c[n + i] == rest[i];
      }
    }
  }
}
