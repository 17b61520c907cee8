/** The attestation line a commit carries: written by one script, read by another. */
module Trailers {
  import opened Chars
  import opened Options

  /** What a scoped hook ran: everything, or a subset named by its digest. */
  datatype What = All | Subset(digest: string)

  /** What one line says: the hooks that passed, and what two of them ran. */
  datatype Attested = Attested(hooks: set<string>, qTests: What, qCoverage: What)

  const PREFIX := "KDB-X-gates: "
  const HOOKS_KEY := "hooks="
  const Q_TESTS := "q-tests"
  const Q_COVERAGE := "q-coverage"

  // ---- words

  predicate NoSpace(s: string) {
    forall i :: 0 <= i < |s| ==> !IsSpace(s[i])
  }

  function AfterSpaces(s: string): (t: string)
    ensures |t| <= |s| && (t != "" ==> !IsSpace(t[0]))
  {
    s[LeadingSpaces(s)..]
  }

  /** `str.split()`. */
  function Words(s: string): seq<string>
    decreases |s|
  {
    var t := AfterSpaces(s);
    if t == "" then []
    else
      var n := 1 + WordEnd(t[1..]);
      [t[..n]] + Words(t[n..])
  }

  lemma FirstWord(w: string, rest: string)
    requires w != "" && NoSpace(w) && (rest == "" || IsSpace(rest[0]))
    ensures Words(w + rest) == [w] + Words(rest)
  {
    var s := w + rest;
    assert !IsSpace(s[0]);
    assert LeadingSpaces(s) == 0;
    assert s[0..] == s;
    var n := 1 + WordEnd(s[1..]);
    assert forall i :: 0 <= i < |w| ==> s[i] == w[i];
    assert forall i :: 0 < i < n ==> s[i] == s[1..][i - 1];
    assert rest != "" ==> s[|w|] == rest[0];
    assert n == |w|;
    assert s[..n] == w && s[n..] == rest;
  }

  lemma SkipSpace(s: string)
    ensures Words(" " + s) == Words(s)
  {
    assert (" " + s)[1..] == s;
    assert AfterSpaces(" " + s) == AfterSpaces(s);
  }

  /** The first `c`, or the end. */
  function IndexOf(s: string, c: char): (k: nat)
    ensures k <= |s| && (forall i :: 0 <= i < k ==> s[i] != c) && (k < |s| ==> s[k] == c)
  {
    if s == "" || s[0] == c then 0
    else 1 + IndexOf(s[1..], c)
  }

  lemma IndexAfter(a: string, c: char, rest: string)
    requires c !in a
    ensures IndexOf(a + [c] + rest, c) == |a|
  {
    var s := a + [c] + rest;
    assert forall i :: 0 <= i < |a| ==> s[i] == a[i];
    assert s[|a|] == c;
  }

  /** `str.split(c)`. */
  function SplitOn(s: string, c: char): seq<string>
    decreases |s|
  {
    var k := IndexOf(s, c);
    if k == |s| then [s] else [s[..k]] + SplitOn(s[k + 1..], c)
  }

  function Joined(parts: seq<string>, c: char): string {
    if parts == [] then "" else if |parts| == 1 then parts[0] else parts[0] + [c] + Joined(parts[1..], c)
  }

  lemma {:induction false} SplitJoined(parts: seq<string>, c: char)
    requires parts != [] && forall p :: p in parts ==> c !in p
    ensures SplitOn(Joined(parts, c), c) == parts
  {
    if |parts| == 1 {
      assert parts[0] in parts && forall i :: 0 <= i < |parts[0]| ==> parts[0][i] != c;
    } else {
      var rest := Joined(parts[1..], c);
      IndexAfter(parts[0], c, rest);
      var s := parts[0] + [c] + rest;
      assert s[..|parts[0]|] == parts[0] && s[|parts[0]| + 1..] == rest;
      SplitJoined(parts[1..], c);
    }
  }

  lemma NoSpaceJoin(a: string, b: string)
    requires NoSpace(a) && NoSpace(b)
    ensures NoSpace(a + b)
  {
    hide IsSpace;
  }

  lemma {:induction false} JoinedNoSpace(parts: seq<string>)
    requires forall p :: p in parts ==> NoSpace(p)
    ensures NoSpace(Joined(parts, ','))
  {
    if |parts| == 1 {
      assert parts[0] in parts;
    } else if |parts| > 1 {
      assert parts[0] in parts;
      JoinedNoSpace(parts[1..]);
      NoSpaceJoin(parts[0], ",");
      NoSpaceJoin(parts[0] + ",", Joined(parts[1..], ','));
    }
  }

  // ---- reading

  predicate IsDigest(v: string) {
    |v| == 64 && forall i :: 0 <= i < |v| ==> '0' <= v[i] <= '9' || 'a' <= v[i] <= 'f'
  }

  function ReadWhat(v: string): Option<What> {
    if v == "all" then Some(All) else if IsDigest(v) then Some(Subset(v)) else None
  }

  /** One `key=value` field over what the fields before it said. */
  function ReadField(word: string, so: (What, What)): Option<(What, What)> {
    var k := IndexOf(word, '=');
    if k == |word| then None
    else
      var what := ReadWhat(word[k + 1..]);
      if what.None? then None
      else if word[..k] == Q_TESTS then Some((what.value, so.1))
      else if word[..k] == Q_COVERAGE then Some((so.0, what.value))
      else None
  }

  function ReadFields(words: seq<string>, so: (What, What)): Option<(What, What)> {
    if words == [] then Some(so)
    else
      var next := ReadField(words[0], so);
      if next.None? then None else ReadFields(words[1..], next.value)
  }

  function HooksOf(word: string): set<string>
    requires HOOKS_KEY <= word
  {
    set h | h in SplitOn(word[|HOOKS_KEY|..], ',') && h != ""
  }

  /** What `line` attests for `tree`, if it attests anything; `every` is every hook. */
  function ParseTrailer(line: string, tree: string, every: set<string>): Option<Attested> {
    var text := Strip(line);
    if !(PREFIX + tree <= text) then None
    else
      var rest := text[|PREFIX + tree|..];
      if Strip(rest) == "" then Some(Attested(every, All, All))
      else
        var words := Words(rest);
        if rest[0] != ' ' || words == [] || !(HOOKS_KEY <= words[0]) then None
        else
          var ran := ReadFields(words[1..], (All, All));
          if ran.None? then None else Some(Attested(HooksOf(words[0]), ran.value.0, ran.value.1))
  }

  // ---- writing

  function Shown(what: What): string {
    if what.All? then "all" else what.digest
  }

  function Field(key: string, what: Option<What>): string {
    if what.None? then "" else " " + key + "=" + Shown(what.value)
  }

  /** The line a passing run records. */
  function FormatTrailer(tree: string, hooks: seq<string>, qTests: Option<What>, qCoverage: Option<What>): string {
    PREFIX + tree + " " + HOOKS_KEY + Joined(hooks, ',') + Field(Q_TESTS, qTests) + Field(Q_COVERAGE, qCoverage)
  }

  predicate HookName(h: string) {
    h != "" && ',' !in h && NoSpace(h)
  }

  predicate Writable(what: Option<What>) {
    what.Some? && what.value.Subset? ==> IsDigest(what.value.digest)
  }

  function Or(what: Option<What>): What {
    if what.None? then All else what.value
  }

  // ---- the two agree

  lemma StripsToItself(s: string)
    requires s != "" && !IsSpace(s[0]) && !IsSpace(s[|s| - 1])
    ensures Strip(s) == s
  {
  }

  lemma StripHolds(s: string)
    requires s != "" && !IsSpace(s[|s| - 1])
    ensures Strip(s) != ""
  {
    var t := s[LeadingSpaces(s)..];
    assert forall i :: 0 <= i < LeadingSpaces(s) ==> IsSpace(s[i]);
    assert t[|t| - 1] == s[|s| - 1];
    assert TrailingSpaces(t) == 0;
  }

  lemma ShownReads(what: What)
    requires Writable(Some(what))
    ensures NoSpace(Shown(what)) && Shown(what) != "" && ReadWhat(Shown(what)) == Some(what)
  {
    if what.Subset? {
      forall i | 0 <= i < |what.digest| ensures !IsSpace(what.digest[i]) {
      }
      assert |"all"| == 3;
    }
  }

  lemma KeyReads(key: string, value: string, so: (What, What))
    requires key in {Q_TESTS, Q_COVERAGE} && ReadWhat(value).Some?
    ensures ReadField(key + "=" + value, so) == Some(if key == Q_TESTS then (ReadWhat(value).value, so.1)
                                                     else (so.0, ReadWhat(value).value))
  {
    hide IsSpace, ReadWhat;
    var word := key + "=" + value;
    assert word == key + ['='] + value;
    assert '=' !in key;
    IndexAfter(key, '=', value);
    assert word[..|key|] == key && word[|key| + 1..] == value;
    assert Q_TESTS[2] != Q_COVERAGE[2];
  }

  lemma KeyIsText(key: string)
    requires key in {Q_TESTS, Q_COVERAGE}
    ensures NoSpace(key + "=")
  {
  }

  lemma FieldReads(key: string, what: What, so: (What, What))
    requires Writable(Some(what)) && key in {Q_TESTS, Q_COVERAGE}
    ensures var word := key + "=" + Shown(what);
            NoSpace(word) && ReadField(word, so) == Some(if key == Q_TESTS then (what, so.1) else (so.0, what))
  {
    hide IsSpace, ReadWhat, Shown, ReadField, NoSpace;
    ShownReads(what);
    KeyIsText(key);
    NoSpaceJoin(key + "=", Shown(what));
    KeyReads(key, Shown(what), so);
  }

  /** The words of the two fields, each there or not. */
  function FieldWords(qTests: Option<What>, qCoverage: Option<What>): seq<string> {
    (if qTests.None? then [] else [Q_TESTS + "=" + Shown(qTests.value)])
    + (if qCoverage.None? then [] else [Q_COVERAGE + "=" + Shown(qCoverage.value)])
  }

  lemma FieldSplits(key: string, what: Option<What>, rest: string)
    requires Writable(what) && key in {Q_TESTS, Q_COVERAGE} && (rest == "" || IsSpace(rest[0]))
    ensures Words(Field(key, what) + rest) == (if what.None? then [] else [key + "=" + Shown(what.value)]) + Words(rest)
  {
    hide IsSpace, ReadWhat, Shown, ReadField, NoSpace, Words, Writable;
    if what.None? {
      assert "" + rest == rest;
      assert [] + Words(rest) == Words(rest);
    } else {
      FieldReads(key, what.value, (All, All));
      var word := key + "=" + Shown(what.value);
      assert Field(key, what) + rest == " " + (word + rest);
      SkipSpace(word + rest);
      FirstWord(word, rest);
    }
  }

  lemma FieldStarts(key: string, what: Option<What>)
    ensures Field(key, what) == "" || IsSpace(Field(key, what)[0])
  {
  }

  lemma FieldsSplit(qTests: Option<What>, qCoverage: Option<What>)
    requires Writable(qTests) && Writable(qCoverage)
    ensures Words(Field(Q_TESTS, qTests) + Field(Q_COVERAGE, qCoverage)) == FieldWords(qTests, qCoverage)
  {
    assert Words("") == [];
    hide Words, IsSpace, Field, Shown, Writable;
    var second := Field(Q_COVERAGE, qCoverage);
    FieldStarts(Q_COVERAGE, qCoverage);
    FieldSplits(Q_TESTS, qTests, second);
    FieldSplits(Q_COVERAGE, qCoverage, "");
    assert second + "" == second;
  }

  lemma FieldsRead(qTests: Option<What>, qCoverage: Option<What>)
    requires Writable(qTests) && Writable(qCoverage)
    ensures ReadFields(FieldWords(qTests, qCoverage), (All, All)) == Some((Or(qTests), Or(qCoverage)))
  {
    hide ReadField, Shown;
    var second := FieldWords(None, qCoverage);
    if qCoverage.Some? {
      FieldReads(Q_COVERAGE, qCoverage.value, (Or(qTests), All));
      assert second[1..] == [];
    }
    assert ReadFields(second, (Or(qTests), All)) == Some((Or(qTests), Or(qCoverage)));
    var words := FieldWords(qTests, qCoverage);
    if qTests.Some? {
      FieldReads(Q_TESTS, qTests.value, (All, All));
      assert words[1..] == second;
    } else {
      assert words == second;
    }
  }

  lemma EndsInText(hooks: seq<string>, qTests: Option<What>, qCoverage: Option<What>)
    requires Writable(qTests) && Writable(qCoverage) && NoSpace(Joined(hooks, ','))
    ensures var rest := " " + HOOKS_KEY + Joined(hooks, ',') + Field(Q_TESTS, qTests) + Field(Q_COVERAGE, qCoverage);
            rest != "" && !IsSpace(rest[|rest| - 1])
  {
    var first := HOOKS_KEY + Joined(hooks, ',');
    assert NoSpace(HOOKS_KEY);
    assert !IsSpace(first[|first| - 1]);
    if qTests.Some? {
      ShownReads(qTests.value);
    }
    if qCoverage.Some? {
      ShownReads(qCoverage.value);
    }
  }

  /** What follows the tree in a written line. */
  function Tail(hooks: seq<string>, qTests: Option<What>, qCoverage: Option<What>): string {
    " " + (HOOKS_KEY + Joined(hooks, ',') + (Field(Q_TESTS, qTests) + Field(Q_COVERAGE, qCoverage)))
  }

  lemma WrittenIs(tree: string, hooks: seq<string>, qTests: Option<What>, qCoverage: Option<What>)
    ensures FormatTrailer(tree, hooks, qTests, qCoverage) == PREFIX + tree + Tail(hooks, qTests, qCoverage)
    ensures Tail(hooks, qTests, qCoverage)
            == " " + HOOKS_KEY + Joined(hooks, ',') + Field(Q_TESTS, qTests) + Field(Q_COVERAGE, qCoverage)
  {
    hide Joined, Field;
  }

  /** A written line has nothing to strip. */
  lemma WrittenStrips(tree: string, hooks: seq<string>, qTests: Option<What>, qCoverage: Option<What>)
    requires (forall h :: h in hooks ==> HookName(h)) && Writable(qTests) && Writable(qCoverage)
    ensures var line := FormatTrailer(tree, hooks, qTests, qCoverage);
            Strip(line) == line && Strip(Tail(hooks, qTests, qCoverage)) != ""
  {
    var tail := Tail(hooks, qTests, qCoverage);
    WrittenIs(tree, hooks, qTests, qCoverage);
    JoinedNoSpace(hooks);
    EndsInText(hooks, qTests, qCoverage);
    StripHolds(tail);
    var line := PREFIX + tree + tail;
    assert line[0] == 'K' && line[|line| - 1] == tail[|tail| - 1];
    hide Joined, Field;
    StripsToItself(line);
  }

  lemma FirstIsText(hooks: seq<string>)
    requires forall h :: h in hooks ==> HookName(h)
    ensures NoSpace(HOOKS_KEY + Joined(hooks, ','))
  {
    JoinedNoSpace(hooks);
    assert NoSpace(HOOKS_KEY);
    NoSpaceJoin(HOOKS_KEY, Joined(hooks, ','));
  }

  lemma HooksRead(hooks: seq<string>)
    requires hooks != [] && forall h :: h in hooks ==> HookName(h)
    ensures HooksOf(HOOKS_KEY + Joined(hooks, ',')) == (set h | h in hooks)
  {
    SplitJoined(hooks, ',');
    hide SplitOn, Joined, IsSpace, NoSpace;
    var first := HOOKS_KEY + Joined(hooks, ',');
    assert first[|HOOKS_KEY|..] == Joined(hooks, ',');
  }

  lemma TailWords(hooks: seq<string>, qTests: Option<What>, qCoverage: Option<What>)
    requires hooks != [] && (forall h :: h in hooks ==> HookName(h)) && Writable(qTests) && Writable(qCoverage)
    ensures Words(Tail(hooks, qTests, qCoverage)) == [HOOKS_KEY + Joined(hooks, ',')] + FieldWords(qTests, qCoverage)
  {
    hide Words, IsSpace, Field, Joined, FieldWords, Writable, NoSpace, HookName;
    var first := HOOKS_KEY + Joined(hooks, ',');
    var fields := Field(Q_TESTS, qTests) + Field(Q_COVERAGE, qCoverage);
    FirstIsText(hooks);
    FieldStarts(Q_TESTS, qTests);
    FieldStarts(Q_COVERAGE, qCoverage);
    assert fields == "" || IsSpace(fields[0]);
    assert first != "";
    SkipSpace(first + fields);
    FirstWord(first, fields);
    FieldsSplit(qTests, qCoverage);
  }

  /** Reading what was written gives back what was attested. */
  lemma TrailerRoundTrip(tree: string, hooks: seq<string>, qTests: Option<What>, qCoverage: Option<What>,
                         every: set<string>)
    requires hooks != [] && (forall h :: h in hooks ==> HookName(h)) && Writable(qTests) && Writable(qCoverage)
    ensures ParseTrailer(FormatTrailer(tree, hooks, qTests, qCoverage), tree, every)
            == Some(Attested((set h | h in hooks), Or(qTests), Or(qCoverage)))
  {
    hide Words, Strip, HooksOf, FormatTrailer, Tail, Joined, FieldWords, ReadFields, IsSpace, NoSpace, HookName;
    hide Writable, IsDigest;
    WrittenIs(tree, hooks, qTests, qCoverage);
    WrittenStrips(tree, hooks, qTests, qCoverage);
    TailWords(hooks, qTests, qCoverage);
    HooksRead(hooks);
    TailStarts(hooks, qTests, qCoverage);
    FieldsRead(qTests, qCoverage);
    ParsesAs(tree, FormatTrailer(tree, hooks, qTests, qCoverage), Tail(hooks, qTests, qCoverage),
             HOOKS_KEY + Joined(hooks, ','), FieldWords(qTests, qCoverage), every);
  }

  lemma TailStarts(hooks: seq<string>, qTests: Option<What>, qCoverage: Option<What>)
    ensures Tail(hooks, qTests, qCoverage)[..1] == " " && Tail(hooks, qTests, qCoverage)[0] == ' '
  {
  }

  lemma ParsesAs(tree: string, line: string, rest: string, first: string, fields: seq<string>, every: set<string>)
    requires line == PREFIX + tree + rest && Strip(line) == line && Strip(rest) != "" && rest != "" && rest[0] == ' '
    requires Words(rest) == [first] + fields && HOOKS_KEY <= first && ReadFields(fields, (All, All)).Some?
    ensures var so := ReadFields(fields, (All, All)).value;
            ParseTrailer(line, tree, every) == Some(Attested(HooksOf(first), so.0, so.1))
  {
    hide Words, Strip, HooksOf, ReadFields;
    assert line[|PREFIX + tree|..] == rest;
    assert ([first] + fields)[1..] == fields;
  }

  /** A line written for one tree attests nothing about another. */
  lemma TrailerNamesItsTree(tree: string, other: string, hooks: seq<string>, qTests: Option<What>,
                            qCoverage: Option<What>, every: set<string>)
    requires (forall h :: h in hooks ==> HookName(h)) && Writable(qTests) && Writable(qCoverage)
    requires |tree| == |other| && ParseTrailer(FormatTrailer(tree, hooks, qTests, qCoverage), other, every).Some?
    ensures tree == other
  {
    hide Words, Strip, HooksOf, FormatTrailer, Tail, Joined, IsSpace, NoSpace, HookName, Writable, IsDigest, ReadFields;
    WrittenIs(tree, hooks, qTests, qCoverage);
    WrittenStrips(tree, hooks, qTests, qCoverage);
    SamePrefix(tree, other, FormatTrailer(tree, hooks, qTests, qCoverage), Tail(hooks, qTests, qCoverage));
  }

  lemma SamePrefix(tree: string, other: string, line: string, tail: string)
    requires |tree| == |other| && line == PREFIX + tree + tail && PREFIX + other <= line
    ensures tree == other
  {
    assert line[..|PREFIX + other|] == PREFIX + other;
    assert line[..|PREFIX + tree|] == PREFIX + tree;
    assert (PREFIX + tree)[|PREFIX|..] == tree && (PREFIX + other)[|PREFIX|..] == other;
  }

  // ---- the loop

  method ReadTrailer(line: string, tree: string, every: set<string>) returns (r: Option<Attested>)
    ensures r == ParseTrailer(line, tree, every)
  {
    var text := Strip(line);
    if !(PREFIX + tree <= text) {
      return None;
    }
    var rest := text[|PREFIX + tree|..];
    if Strip(rest) == "" {
      return Some(Attested(every, All, All));
    }
    var words := Words(rest);
    if rest[0] != ' ' || words == [] || !(HOOKS_KEY <= words[0]) {
      return None;
    }
    var qTests, qCoverage := All, All;
    for i := 1 to |words|
      invariant ReadFields(words[i..], (qTests, qCoverage)) == ReadFields(words[1..], (All, All))
    {
      assert words[i..][1..] == words[i + 1..];
      var word := words[i];
      var k := IndexOf(word, '=');
      if k == |word| || word[..k] !in {Q_TESTS, Q_COVERAGE} {
        return None;
      }
      var what := ReadWhat(word[k + 1..]);
      if what.None? {
        return None;
      }
      if word[..k] == Q_TESTS {
        qTests := what.value;
      } else {
        qCoverage := what.value;
      }
    }
    r := Some(Attested(HooksOf(words[0]), qTests, qCoverage));
  }
}
