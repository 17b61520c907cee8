/** Where each helper goes: rounds over the symbols until no placement changes. */
module Placement {
  import opened Options
  import opened Sequences
  import Graphs

  /** Who uses a symbol: an area, or another symbol. */
  datatype User = Area(name: string) | Symbol(name: string)

  type Users = map<string, set<User>>

  /** Where every symbol is so far; `None` is nowhere yet. */
  type Place = map<string, Option<string>>

  const COMMON := "common"
  const APP := "app"

  function UsersOf(users: Users, s: string): set<User> {
    if s in users then users[s] else {}
  }

  function Where(u: User, place: Place): Option<string> {
    if u.Area? then Some(u.name) else if u.name in place then place[u.name] else None
  }

  /** Where the symbol's users are. */
  function Consumers(who: set<User>, place: Place): set<string> {
    set u | u in who && Where(u, place).Some? :: Where(u, place).value
  }

  /** With the one place that alone uses it, in `common` when several do or a
      `common` symbol does, in `app` when nothing does. */
  function Rule(who: set<User>, place: Place): string {
    var c := Consumers(who, place);
    if COMMON in c || |c| > 1 then COMMON
    else if c != {} then (Single(c); var x :| x in c; x)
    else APP
  }

  lemma Single(c: set<string>)
    requires |c| <= 1
    ensures forall x, y :: x in c && y in c ==> x == y
  {
    forall x, y | x in c && y in c ensures x == y {
      assert |c - {x}| == 0;
      assert c == {x} + (c - {x});
    }
  }

  /** The rule names a place, and only the placed users matter to it. */
  lemma RuleIs(who: set<User>, place: Place, x: string)
    ensures Consumers(who, place) == {x} ==> Rule(who, place) == x
    ensures COMMON in Consumers(who, place) ==> Rule(who, place) == COMMON
    ensures |Consumers(who, place)| > 1 ==> Rule(who, place) == COMMON
    ensures Consumers(who, place) == {} ==> Rule(who, place) == APP
  {
  }

  lemma SameWheres(who: set<User>, a: Place, b: Place)
    requires forall u :: u in who ==> Where(u, a) == Where(u, b)
    ensures Rule(who, a) == Rule(who, b)
  {
    assert Consumers(who, a) == Consumers(who, b);
  }

  // ---- the rounds

  function Started(symbols: seq<string>, fixed: map<string, string>): Place {
    (map s | s in symbols :: None) + (map s | s in fixed :: Some(fixed[s]))
  }

  /** One symbol's turn. */
  function Turn(s: string, users: Users, fixed: map<string, string>, place: Place): Place {
    if s in fixed then place else place[s := Some(Rule(UsersOf(users, s), place))]
  }

  function Round(symbols: seq<string>, users: Users, fixed: map<string, string>, place: Place): Place {
    if symbols == [] then place else Round(symbols[1..], users, fixed, Turn(symbols[0], users, fixed, place))
  }

  function Rounds(n: nat, symbols: seq<string>, users: Users, fixed: map<string, string>): Place {
    if n == 0 then Started(symbols, fixed) else Round(symbols, users, fixed, Rounds(n - 1, symbols, users, fixed))
  }

  function Result(place: Place): map<string, string> {
    map s | s in place :: if place[s].Some? && place[s].value != "" then place[s].value else APP
  }

  // ---- what one round does

  lemma {:induction false} RoundLeaves(symbols: seq<string>, users: Users, fixed: map<string, string>, place: Place,
                                       s: string)
    requires s !in symbols || s in fixed
    ensures s in Round(symbols, users, fixed, place) <==> s in place
    ensures s in place ==> Round(symbols, users, fixed, place)[s] == place[s]
  {
    if symbols != [] {
      RoundLeaves(symbols[1..], users, fixed, Turn(symbols[0], users, fixed, place), s);
    }
  }

  lemma {:induction false} RoundPlaces(symbols: seq<string>, users: Users, fixed: map<string, string>, place: Place,
                                       s: string)
    ensures s in Round(symbols, users, fixed, place) <==> s in place || (s in symbols && s !in fixed)
  {
    if symbols != [] {
      RoundPlaces(symbols[1..], users, fixed, Turn(symbols[0], users, fixed, place), s);
    }
  }

  /** Every symbol in `among` that is not fixed is where the rule puts it. */
  ghost predicate Settled(among: set<string>, users: Users, fixed: map<string, string>, place: Place) {
    forall s :: s in among && s !in fixed ==> s in place && place[s] == Some(Rule(UsersOf(users, s), place))
  }

  /** Every symbol using one in `among` that is not fixed is in `among` or placed for good. */
  ghost predicate ClosedUnder(among: set<string>, symbols: seq<string>, users: Users, fixed: map<string, string>) {
    forall s, u ::
      s in among && s !in fixed && u in UsersOf(users, s) && u.Symbol? && u.name in symbols && u.name !in fixed
      ==> u.name in among
  }

  /** A round leaves settled symbols, whose users are settled too, where they are. */
  lemma {:induction false} SettledStays(among: set<string>, all: seq<string>, symbols: seq<string>, users: Users,
                                        fixed: map<string, string>, place: Place)
    requires Settled(among, users, fixed, place) && ClosedUnder(among, all, users, fixed)
    requires forall s :: s in symbols ==> s in all
    ensures forall s :: s in among || s !in all || s in fixed ==>
              (s in Round(symbols, users, fixed, place) <==> s in place) &&
                (s in place ==> Round(symbols, users, fixed, place)[s] == place[s])
    ensures Settled(among, users, fixed, Round(symbols, users, fixed, place))
  {
    if symbols != [] {
      var s0 := symbols[0];
      var next := Turn(s0, users, fixed, place);
      forall s | s in among && s !in fixed ensures s in next && next[s] == Some(Rule(UsersOf(users, s), next)) {
        forall u | u in UsersOf(users, s) ensures Where(u, next) == Where(u, place) {
          if u.Symbol? && u.name == s0 && s0 !in fixed {
            assert s0 in all && s0 in among;
          }
        }
        SameWheres(UsersOf(users, s), place, next);
      }
      SettledStays(among, all, symbols[1..], users, fixed, next);
    }
  }

  /** A symbol all of whose users are settled is settled by its turn. */
  lemma {:induction false} TurnSettles(among: set<string>, all: seq<string>, symbols: seq<string>, users: Users,
                                       fixed: map<string, string>, place: Place, s: string)
    requires Settled(among, users, fixed, place) && ClosedUnder(among, all, users, fixed)
    requires forall x :: x in symbols ==> x in all
    requires s in symbols && s !in fixed && ClosedUnder(among + {s}, all, users, fixed)
    requires forall u :: u in UsersOf(users, s) && u.Symbol? && u.name in all && u.name !in fixed ==> u.name in among
    ensures Settled(among + {s}, users, fixed, Round(symbols, users, fixed, place))
  {
    var next := Turn(symbols[0], users, fixed, place);
    SettledStays(among, all, [symbols[0]], users, fixed, place);
    assert Round([symbols[0]], users, fixed, place) == next by {
      assert [symbols[0]][1..] == [];
    }
    if symbols[0] == s && s !in among {
      forall u | u in UsersOf(users, s) ensures Where(u, next) == Where(u, place) {
      }
      SameWheres(UsersOf(users, s), place, next);
      assert Settled(among + {s}, users, fixed, next) by {
        forall x | x in among + {s} && x !in fixed ensures x in next && next[x] == Some(Rule(UsersOf(users, x), next)) {
        }
      }
      SettledStays(among + {s}, all, symbols[1..], users, fixed, next);
    } else if s in among {
      assert among + {s} == among;
      SettledStays(among, all, symbols[1..], users, fixed, next);
    } else {
      TurnSettles(among, all, symbols[1..], users, fixed, next, s);
    }
  }

  // ---- uses without a cycle

  /** An order of the symbols in which the symbols that use one come before it. */
  ghost predicate UsersFirst(order: seq<string>, symbols: seq<string>, users: Users, fixed: map<string, string>) {
    && NoRepeat(order)
    && (forall s :: s in symbols && s !in fixed ==> s in order)
    && (forall s :: s in order ==> s in symbols && s !in fixed)
    && (forall k, u ::
          0 <= k < |order| && u in UsersOf(users, order[k]) && u.Symbol? && u.name in symbols && u.name !in fixed
          ==> u.name in order[..k])
  }

  lemma {:induction false} NamesCounted(s: seq<string>)
    ensures |Names(s)| <= |s| && (NoRepeat(s) ==> |Names(s)| == |s|)
  {
    if s == [] {
      assert Names(s) == {};
    } else {
      var n := |s| - 1;
      NamesCounted(s[..n]);
      assert s == s[..n] + [s[n]];
      assert Names(s) == Names(s[..n]) + {s[n]};
      assert NoRepeat(s) ==> s[n] !in s[..n];
    }
  }

  lemma {:induction false} SubsetSmaller(a: set<string>, b: set<string>)
    requires a <= b
    ensures |a| <= |b|
  {
    if a != {} {
      var x :| x in a;
      SubsetSmaller(a - {x}, b - {x});
    }
  }

  lemma NotLonger(order: seq<string>, symbols: seq<string>, users: Users, fixed: map<string, string>)
    requires UsersFirst(order, symbols, users, fixed)
    ensures |order| <= |symbols|
  {
    NamesCounted(order);
    NamesCounted(symbols);
    SubsetSmaller(Names(order), Names(symbols));
  }

  function Names(order: seq<string>): set<string> {
    set s | s in order
  }

  lemma PrefixClosed(order: seq<string>, symbols: seq<string>, users: Users, fixed: map<string, string>, k: nat)
    requires UsersFirst(order, symbols, users, fixed) && k <= |order|
    ensures ClosedUnder(Names(order[..k]), symbols, users, fixed)
  {
    forall s, u | s in Names(order[..k]) && s !in fixed && u in UsersOf(users, s) && u.Symbol? && u.name in symbols &&
      u.name !in fixed
      ensures u.name in Names(order[..k])
    {
      var j :| 0 <= j < k && order[j] == s;
      assert u.name in order[..j];
      assert order[..j] <= order[..k];
      var i :| 0 <= i < j && order[..j][i] == u.name;
      assert order[..k][i] == u.name;
    }
  }

  /** After `k` rounds the first `k` symbols of the order are settled. */
  lemma {:induction false} RoundsSettle(order: seq<string>, symbols: seq<string>, users: Users,
                                        fixed: map<string, string>, k: nat)
    requires UsersFirst(order, symbols, users, fixed) && k <= |order|
    ensures Settled(Names(order[..k]), users, fixed, Rounds(k, symbols, users, fixed))
  {
    if k > 0 {
      RoundsSettle(order, symbols, users, fixed, k - 1);
      PrefixClosed(order, symbols, users, fixed, k - 1);
      PrefixClosed(order, symbols, users, fixed, k);
      var s := order[k - 1];
      assert order[..k] == order[..k - 1] + [s];
      assert Names(order[..k]) == Names(order[..k - 1]) + {s};
      TurnSettles(Names(order[..k - 1]), symbols, symbols, users, fixed, Rounds(k - 1, symbols, users, fixed), s);
    }
  }

  /** Once all are settled, a round changes nothing. */
  lemma AllSettledStays(symbols: seq<string>, users: Users, fixed: map<string, string>, place: Place)
    requires Settled(Names(symbols), users, fixed, place) && forall s :: s in symbols ==> s in place
    ensures Round(symbols, users, fixed, place) == place
  {
    var among := Names(symbols);
    assert ClosedUnder(among, symbols, users, fixed);
    SettledStays(among, symbols, symbols, users, fixed, place);
    var next := Round(symbols, users, fixed, place);
    forall s ensures (s in next <==> s in place) && (s in place ==> next[s] == place[s]) {
      RoundPlaces(symbols, users, fixed, place, s);
    }
  }

  lemma {:induction false} RoundsKeep(n: nat, symbols: seq<string>, users: Users, fixed: map<string, string>, s: string)
    ensures s in Rounds(n, symbols, users, fixed) <==> s in symbols || s in fixed
    ensures s in fixed ==> Rounds(n, symbols, users, fixed)[s] == Some(fixed[s])
  {
    if n > 0 {
      RoundsKeep(n - 1, symbols, users, fixed, s);
      RoundPlaces(symbols, users, fixed, Rounds(n - 1, symbols, users, fixed), s);
      if s in fixed {
        RoundLeaves(symbols, users, fixed, Rounds(n - 1, symbols, users, fixed), s);
      }
    }
  }

  lemma {:induction false} SettledForGood(order: seq<string>, symbols: seq<string>, users: Users,
                                          fixed: map<string, string>, n: nat)
    requires UsersFirst(order, symbols, users, fixed) && |order| <= n
    ensures Settled(Names(symbols), users, fixed, Rounds(n, symbols, users, fixed))
  {
    if n == |order| {
      RoundsSettle(order, symbols, users, fixed, n);
      assert order[..n] == order;
      assert forall s :: s in Names(symbols) && s !in fixed ==> s in Names(order);
    } else {
      SettledForGood(order, symbols, users, fixed, n - 1);
      forall s | s in symbols ensures s in Rounds(n - 1, symbols, users, fixed) {
        RoundsKeep(n - 1, symbols, users, fixed, s);
      }
      AllSettledStays(symbols, users, fixed, Rounds(n - 1, symbols, users, fixed));
    }
  }

  /** There is one settled placement when the uses have no cycle. */
  lemma {:induction false} OnePlacement(order: seq<string>, symbols: seq<string>, users: Users,
                                        fixed: map<string, string>, a: Place, b: Place, k: nat)
    requires UsersFirst(order, symbols, users, fixed) && k < |order|
    requires Settled(Names(symbols), users, fixed, a) && Settled(Names(symbols), users, fixed, b)
    requires forall s :: s !in symbols || s in fixed ==> (s in a <==> s in b) && (s in a ==> a[s] == b[s])
    ensures a[order[k]] == b[order[k]]
  {
    assert order[k] in order;
    forall u | u in UsersOf(users, order[k]) ensures Where(u, a) == Where(u, b) {
      if u.Symbol? && u.name in symbols && u.name !in fixed {
        assert u.name in order[..k];
        var j :| 0 <= j < k && order[..k][j] == u.name;
        OnePlacement(order, symbols, users, fixed, a, b, j);
        assert u.name in Names(symbols);
      }
    }
    SameWheres(UsersOf(users, order[k]), a, b);
  }

  // ---- one turn at a time

  lemma {:induction false} RoundAppend(a: seq<string>, b: seq<string>, users: Users, fixed: map<string, string>,
                                       place: Place)
    ensures Round(a + b, users, fixed, place) == Round(b, users, fixed, Round(a, users, fixed, place))
  {
    if a == [] {
      assert a + b == b;
    } else {
      assert (a + b)[1..] == a[1..] + b;
      RoundAppend(a[1..], b, users, fixed, Turn(a[0], users, fixed, place));
    }
  }

  lemma TurnOf(symbols: seq<string>, users: Users, fixed: map<string, string>, place: Place, i: nat)
    requires i < |symbols|
    ensures Round(symbols[..i + 1], users, fixed, place)
            == Turn(symbols[i], users, fixed, Round(symbols[..i], users, fixed, place))
  {
    RoundAppend(symbols[..i], [symbols[i]], users, fixed, place);
    assert symbols[..i + 1] == symbols[..i] + [symbols[i]];
    assert [symbols[i]][1..] == [];
  }

  /** A settled placement stays itself turn by turn. */
  lemma SettledUnmoved(symbols: seq<string>, users: Users, fixed: map<string, string>, place: Place, i: nat)
    requires Settled(Names(symbols), users, fixed, place) && i <= |symbols|
    ensures Round(symbols[..i], users, fixed, place) == place
  {
    var among := Names(symbols);
    assert ClosedUnder(among, symbols, users, fixed);
    SettledStays(among, symbols, symbols[..i], users, fixed, place);
    var next := Round(symbols[..i], users, fixed, place);
    forall s ensures (s in next <==> s in place) && (s in place ==> next[s] == place[s]) {
      assert s in among || s !in symbols;
    }
  }

  /** The rounds that end the loop: the placement they start from is settled. */
  ghost predicate Quiet(n: nat, symbols: seq<string>, users: Users, fixed: map<string, string>) {
    Settled(Names(symbols), users, fixed, Rounds(n, symbols, users, fixed))
  }

  // ---- the loop

  /** A turn that changes something, where the placement was not settled. */
  lemma TurnMoves(symbols: seq<string>, users: Users, fixed: map<string, string>, place: Place, i: nat)
    requires i < |symbols| && symbols[i] !in fixed && symbols[i] in Round(symbols[..i], users, fixed, place)
    requires var now := Round(symbols[..i], users, fixed, place);
             now[symbols[i]] != Some(Rule(UsersOf(users, symbols[i]), now))
    ensures !Settled(Names(symbols), users, fixed, place)
  {
    assert symbols[i] in Names(symbols);
    if Settled(Names(symbols), users, fixed, place) {
      SettledUnmoved(symbols, users, fixed, place, i);
    }
  }

  lemma AllAt(symbols: seq<string>, users: Users, fixed: map<string, string>, place: Place)
    requires forall k :: 0 <= k < |symbols| ==> At(symbols[k], users, fixed, place)
    ensures Settled(Names(symbols), users, fixed, place)
  {
  }

  /** One round over the placement, and whether anything moved. */
  method OneRound(symbols: seq<string>, users: Users, fixed: map<string, string>, start: Place) returns (place: Place,
                  changed: bool)
    requires forall s :: s in symbols ==> s in start
    ensures place == Round(symbols, users, fixed, start)
    ensures changed <==> !Settled(Names(symbols), users, fixed, start)
    ensures !changed ==> place == start
  {
    hide Settled, Names, Rule;
    place, changed := start, false;
    for i := 0 to |symbols|
      invariant place == Round(symbols[..i], users, fixed, start)
      invariant !changed ==> place == start && forall k :: 0 <= k < i ==> At(symbols[k], users, fixed, start)
      invariant changed ==> !Settled(Names(symbols), users, fixed, start)
    {
      var s := symbols[i];
      TurnOf(symbols, users, fixed, start, i);
      RoundPlaces(symbols[..i], users, fixed, start, s);
      if s !in fixed {
        var value := Some(Rule(UsersOf(users, s), place));
        if value != place[s] {
          TurnMoves(symbols, users, fixed, start, i);
          place := place[s := value];
          changed := true;
        } else {
          assert place[s := value] == place;
        }
      }
    }
    assert symbols[..|symbols|] == symbols;
    if !changed {
      AllAt(symbols, users, fixed, start);
    }
  }

  /** Ends at the first settled placement, within `|symbols| + 2` rounds, and
      otherwise refuses. */
  method SettleSymbols(symbols: seq<string>, users: Users,
                       fixed: map<string, string>) returns (r: Option<map<string, string>>)
    ensures r.Some? ==> exists n ::
              0 <= n < |symbols| + 2 && Quiet(n, symbols, users, fixed) &&
              r.value == Result(Rounds(n, symbols, users, fixed))
    ensures r.None? <==> forall n :: 0 <= n < |symbols| + 2 ==> !Quiet(n, symbols, users, fixed)
  {
    hide Settled, Round, Result;
    var place := Started(symbols, fixed);
    for round := 0 to |symbols| + 2
      invariant place == Rounds(round, symbols, users, fixed)
      invariant forall n :: 0 <= n < round ==> !Quiet(n, symbols, users, fixed)
    {
      forall s | s in symbols ensures s in place {
        RoundsKeep(round, symbols, users, fixed, s);
      }
      var changed;
      place, changed := OneRound(symbols, users, fixed, place);
      if !changed {
        assert Quiet(round, symbols, users, fixed);
        return Some(Result(place));
      }
    }
    return None;
  }

  /** `s` is where the rule puts it. */
  ghost predicate At(s: string, users: Users, fixed: map<string, string>, place: Place) {
    s !in fixed ==> s in place && place[s] == Some(Rule(UsersOf(users, s), place))
  }

  // ---- the claims

  /** No name is empty. */
  ghost predicate Named(users: Users, fixed: map<string, string>) {
    (forall s, u :: s in users && u in users[s] && u.Area? ==> u.name != "") &&
      (forall s :: s in fixed ==> fixed[s] != "")
  }

  function Placing(r: map<string, string>): Place {
    map s | s in r :: Some(r[s])
  }

  lemma {:induction false} NamedRounds(n: nat, symbols: seq<string>, users: Users, fixed: map<string, string>)
    requires Named(users, fixed)
    ensures forall s :: s in Rounds(n, symbols, users, fixed) ==> Rounds(n, symbols, users, fixed)[s] != Some("")
  {
    if n > 0 {
      NamedRounds(n - 1, symbols, users, fixed);
      NamedRound(symbols, users, fixed, Rounds(n - 1, symbols, users, fixed));
    }
  }

  lemma {:induction false} NamedRound(symbols: seq<string>, users: Users, fixed: map<string, string>, place: Place)
    requires Named(users, fixed) && forall s :: s in place ==> place[s] != Some("")
    ensures forall s :: s in Round(symbols, users, fixed, place) ==> Round(symbols, users, fixed, place)[s] != Some("")
  {
    if symbols != [] {
      NamedRule(UsersOf(users, symbols[0]), place);
      NamedRound(symbols[1..], users, fixed, Turn(symbols[0], users, fixed, place));
    }
  }

  lemma NamedRule(who: set<User>, place: Place)
    requires (forall u :: u in who && u.Area? ==> u.name != "") && forall s :: s in place ==> place[s] != Some("")
    ensures Rule(who, place) != ""
  {
    forall x | x in Consumers(who, place) ensures x != "" {
      var u :| u in who && Where(u, place) == Some(x);
    }
  }

  /** What is returned is a fixed point: every symbol where the rule puts it given
      where the others are, and the fixed ones where they were fixed. */
  lemma ReturnedIsSettled(n: nat, symbols: seq<string>, users: Users, fixed: map<string, string>)
    requires Quiet(n, symbols, users, fixed) && Named(users, fixed)
    ensures var r := Result(Rounds(n, symbols, users, fixed));
            && (forall s :: s in r <==> s in symbols || s in fixed)
            && (forall s :: s in fixed ==> r[s] == fixed[s])
            && (forall s :: s in symbols && s !in fixed ==> r[s] == Rule(UsersOf(users, s), Placing(r)))
  {
    var place := Rounds(n, symbols, users, fixed);
    var r := Result(place);
    NamedRounds(n, symbols, users, fixed);
    forall s ensures s in r <==> s in symbols || s in fixed {
      RoundsKeep(n, symbols, users, fixed, s);
    }
    forall s | s in fixed ensures r[s] == fixed[s] {
      RoundsKeep(n, symbols, users, fixed, s);
    }
    forall s | s in place ensures Placing(r)[s] == place[s] {
      RoundsKeep(n, symbols, users, fixed, s);
      assert s in Names(symbols) || s in fixed;
    }
    forall s | s in symbols && s !in fixed ensures r[s] == Rule(UsersOf(users, s), Placing(r)) {
      assert s in Names(symbols);
      SameWheres(UsersOf(users, s), place, Placing(r));
    }
  }

  /** User `u` of symbol `s` is at `x`: an area where it is, a symbol where it is placed. */
  ghost predicate UserAt(users: Users, place: Place, s: string, u: User, x: string) {
    s in users && u in users[s] &&
    match u
    case Area(name) => x == name
    case Symbol(name) => name in place && place[name] == Some(x)
  }

  ghost predicate UsedAt(users: Users, place: Place, s: string, x: string) { exists u :: UserAt(users, place, s, u, x) }

  /** The symbol belongs in `common` when a user is there or two are in different places,
      with its users when all are in one, and in `app` when none is anywhere. */
  ghost predicate Belongs(users: Users, place: Place, s: string, x: string) {
    if UsedAt(users, place, s, "common") then x == "common"
    else if exists a, b :: a != b && UsedAt(users, place, s, a) && UsedAt(users, place, s, b) then x == "common"
    else if exists a :: UsedAt(users, place, s, a) then UsedAt(users, place, s, x)
    else x == "app"
  }

  lemma RuleSays(users: Users, place: Place, s: string)
    ensures Belongs(users, place, s, Rule(UsersOf(users, s), place))
  {
    var who := UsersOf(users, s);
    var c := Consumers(who, place);
    forall x ensures x in c <==> UsedAt(users, place, s, x) {
      if UsedAt(users, place, s, x) {
        var u :| UserAt(users, place, s, u, x);
        assert u in who && Where(u, place) == Some(x);
      }
      if x in c {
        var u :| u in who && Where(u, place) == Some(x);
        assert UserAt(users, place, s, u, x);
      }
    }
    ManyIs(c);
    hide UsedAt, Where;
  }

  lemma ManyIs(c: set<string>)
    ensures |c| > 1 <==> exists a, b :: a != b && a in c && b in c
  {
    if |c| > 1 {
      var a :| a in c;
      assert |c - {a}| >= 1;
      var b :| b in c - {a};
    } else {
      Single(c);
    }
  }

  /** What is returned, whatever the areas are called: the fixed symbols where they were
      fixed, each other where it belongs, an empty name read as `app`. */
  lemma ReturnedSays(n: nat, symbols: seq<string>, users: Users, fixed: map<string, string>)
    requires Quiet(n, symbols, users, fixed)
    ensures var place, r := Rounds(n, symbols, users, fixed), Result(Rounds(n, symbols, users, fixed));
            && (forall s :: s in r <==> s in symbols || s in fixed)
            && (forall s :: s in r ==>
                  s in place && place[s].Some? && r[s] == if place[s].value == "" then "app" else place[s].value)
            && (forall s :: s in fixed ==> s in place && place[s] == Some(fixed[s]))
            && (forall s :: s in symbols && s !in fixed ==>
                  s in place && place[s].Some? && Belongs(users, place, s, place[s].value))
  {
    hide Rule, Belongs;
    var place := Rounds(n, symbols, users, fixed);
    forall s ensures s in place <==> s in symbols || s in fixed
             ensures s in fixed ==> place[s] == Some(fixed[s])
             ensures s in symbols && s !in fixed ==>
                       place[s].Some? && Belongs(users, place, s, place[s].value) {
      RoundsKeep(n, symbols, users, fixed, s);
      if s in symbols && s !in fixed {
        assert s in Names(symbols);
        RuleSays(users, place, s);
      }
    }
  }

  // ---- from no cycle to an order

  ghost function {:induction false} Listed(names: set<string>): (r: seq<string>)
    ensures forall x :: x in r <==> x in names
  {
    if names == {} then [] else
      var x :| x in names;
      [x] + Listed(names - {x})
  }

  /** The symbols whose place is not fixed. */
  function Free(symbols: seq<string>, fixed: map<string, string>): set<string> {
    set s | s in symbols && s !in fixed
  }

  /** Who uses whom, among the symbols whose place is not fixed. */
  ghost function UseGraph(symbols: seq<string>, users: Users, fixed: map<string, string>): Graphs.Graph {
    map s | s in Free(symbols, fixed) :: Listed(set u | u in UsersOf(users, s) && u.Symbol? &&
                                                u.name in Free(symbols, fixed) :: u.name)
  }

  /** No symbol is used, through others, by itself. */
  ghost predicate NoCycle(symbols: seq<string>, users: Users, fixed: map<string, string>) {
    Graphs.Acyclic(UseGraph(symbols, users, fixed))
  }

  lemma UseEdge(symbols: seq<string>, users: Users, fixed: map<string, string>, s: string, t: string)
    ensures Graphs.Edge(UseGraph(symbols, users, fixed), s, t)
            <==> s in Free(symbols, fixed) && t in Free(symbols, fixed) && Symbol(t) in UsersOf(users, s)
  {
    if Symbol(t) in UsersOf(users, s) { assert Symbol(t).name == t; }
  }

  lemma UsersOrder(symbols: seq<string>, users: Users, fixed: map<string, string>) returns (order: seq<string>)
    requires NoCycle(symbols, users, fixed)
    ensures UsersFirst(order, symbols, users, fixed)
  {
    var g := UseGraph(symbols, users, fixed);
    forall a, b | Graphs.Edge(g, a, b) ensures b in Free(symbols, fixed) { UseEdge(symbols, users, fixed, a, b); }
    order := Graphs.OrderFrom(g, [], Free(symbols, fixed));
    forall k, u | 0 <= k < |order| && u in UsersOf(users, order[k]) && u.Symbol? && u.name in symbols &&
      u.name !in fixed
      ensures u.name in order[..k]
    {
      UseEdge(symbols, users, fixed, order[k], u.name);
      assert order[k] in order && Symbol(u.name) == u;
      assert Graphs.IndexIn(order, order[k]) == k;
      var i := Graphs.IndexIn(order, u.name);
      assert order[..k][i] == u.name;
    }
  }

  /** Uses without a cycle settle in the rounds allowed. */
  lemma AcyclicSettles(symbols: seq<string>, users: Users, fixed: map<string, string>)
    requires NoCycle(symbols, users, fixed)
    ensures exists n :: 0 <= n < |symbols| + 2 && Quiet(n, symbols, users, fixed)
  {
    hide NoCycle, UsersFirst, Quiet;
    var order := UsersOrder(symbols, users, fixed);
    OrderSettles(order, symbols, users, fixed);
  }

  lemma OrderSettles(order: seq<string>, symbols: seq<string>, users: Users, fixed: map<string, string>)
    requires UsersFirst(order, symbols, users, fixed)
    ensures exists n :: 0 <= n < |symbols| + 2 && Quiet(n, symbols, users, fixed)
  {
    NotLonger(order, symbols, users, fixed);
    SettledForGood(order, symbols, users, fixed, |symbols|);
    assert Quiet(|symbols|, symbols, users, fixed);
  }

  /** And to the one placement there is. */
  lemma AcyclicHasOnePlacement(symbols: seq<string>, users: Users, fixed: map<string, string>, n: nat, other: Place)
    requires NoCycle(symbols, users, fixed) && Quiet(n, symbols, users, fixed)
    requires Settled(Names(symbols), users, fixed, other)
    requires forall s :: s in other <==> s in symbols || s in fixed
    requires forall s :: s in fixed ==> other[s] == Some(fixed[s])
    ensures other == Rounds(n, symbols, users, fixed)
  {
    var order := UsersOrder(symbols, users, fixed);
    var place := Rounds(n, symbols, users, fixed);
    hide NoCycle;
    forall s ensures s in place <==> s in other {
      RoundsKeep(n, symbols, users, fixed, s);
    }
    forall s | s in fixed ensures place[s] == other[s] {
      RoundsKeep(n, symbols, users, fixed, s);
    }
    forall s | s in symbols && s !in fixed ensures place[s] == other[s] {
      var k :| 0 <= k < |order| && order[k] == s;
      OnePlacement(order, symbols, users, fixed, place, other, k);
    }
  }

  // ---- uses in a cycle

  /** `c` is used by an area and by `a`, `a` by `b`, `b` by `c`. */
  const RING: Users := map["a" := {Symbol("b")}, "b" := {Symbol("c")}, "c" := {Area("x"), Symbol("a")}]

  function Ring(a: string, b: string, c: string): Place {
    map["a" := Some(a), "b" := Some(b), "c" := Some(c)]
  }

  lemma RingTurns(place: Place)
    ensures Round(["c", "a", "b"], RING, map[], place)
            == Turn("b", RING, map[], Turn("a", RING, map[], Turn("c", RING, map[], place)))
  {
    var s := ["c", "a", "b"];
    assert s[1..] == ["a", "b"] && ["a", "b"][1..] == ["b"] && ["b"][1..] == [];
    var c := Turn("c", RING, map[], place);
    var a := Turn("a", RING, map[], c);
    hide Turn;
    assert Round(s, RING, map[], place) == Round(["a", "b"], RING, map[], c);
    assert Round(["a", "b"], RING, map[], c) == Round(["b"], RING, map[], a);
    assert Round(["b"], RING, map[], a) == Round([], RING, map[], Turn("b", RING, map[], a));
  }

  lemma OneConsumer(u: User, place: Place)
    ensures Consumers({u}, place) == if Where(u, place).Some? then {Where(u, place).value} else {}
  {
  }

  lemma TwoConsumers(u: User, v: User, place: Place)
    requires Where(u, place).Some? && Where(v, place).Some?
    ensures Consumers({u, v}, place) == {Where(u, place).value, Where(v, place).value}
  {
  }

  lemma RingC(a: string, place: Place)
    requires "a" in place && place["a"] == Some(a)
    ensures Turn("c", RING, map[], place) == place["c" := Some(if a == "x" then "x" else COMMON)]
  {
    TwoConsumers(Area("x"), Symbol("a"), place);
    RuleIs(RING["c"], place, "x");
    if a != "x" {
      assert |{"x", a}| == 2;
    }
  }

  lemma RingOne(s: string, u: string, at: string, place: Place)
    requires (s == "a" && u == "b") || (s == "b" && u == "c")
    requires u in place && place[u] == Some(at)
    ensures Turn(s, RING, map[], place) == place[s := Some(at)]
  {
    OneConsumer(Symbol(u), place);
    assert RING[s] == {Symbol(u)};
    RuleIs(RING[s], place, at);
  }

  /** One round moves the ring on: everything follows where `a` and `b` were. */
  lemma RingRound(a: string, b: string, c: string)
    ensures var c' := if a == "x" then "x" else COMMON;
            Round(["c", "a", "b"], RING, map[], Ring(a, b, c)) == Ring(b, c', c')
  {
    var c' := if a == "x" then "x" else COMMON;
    hide Turn, Round, Rule, Consumers, UsersOf, RING;
    RingTurns(Ring(a, b, c));
    RingC(a, Ring(a, b, c));
    assert Ring(a, b, c)["c" := Some(c')] == Ring(a, b, c');
    RingOne("a", "b", b, Ring(a, b, c'));
    assert Ring(a, b, c')["a" := Some(b)] == Ring(b, b, c');
    RingOne("b", "c", c', Ring(b, b, c'));
    assert Ring(b, b, c')["b" := Some(c')] == Ring(b, c', c');
  }

  const NOWHERE: Place := map["a" := None, "b" := None, "c" := None]

  lemma RingFirstC()
    ensures Turn("c", RING, map[], NOWHERE) == NOWHERE["c" := Some("x")]
  {
    assert UsersOf(RING, "c") == {Area("x"), Symbol("a")};
    assert Consumers({Area("x"), Symbol("a")}, NOWHERE) == {"x"} by {
      assert Where(Symbol("a"), NOWHERE) == None;
    }
    RuleIs(UsersOf(RING, "c"), NOWHERE, "x");
  }

  lemma RingFirstA(place: Place)
    requires place == NOWHERE["c" := Some("x")]
    ensures Turn("a", RING, map[], place) == place["a" := Some(APP)]
  {
    OneConsumer(Symbol("b"), place);
    assert UsersOf(RING, "a") == {Symbol("b")};
    RuleIs(UsersOf(RING, "a"), place, APP);
  }

  lemma RingStarts()
    ensures Rounds(1, ["c", "a", "b"], RING, map[]) == Ring(APP, "x", "x")
  {
    hide Turn, Round, Rule, Consumers;
    var s := ["c", "a", "b"];
    assert Started(s, map[]) == NOWHERE;
    assert Rounds(1, s, RING, map[]) == Round(s, RING, map[], Rounds(0, s, RING, map[]));
    RingTurns(NOWHERE);
    RingFirstC();
    var one := NOWHERE["c" := Some("x")];
    RingFirstA(one);
    var two := one["a" := Some(APP)];
    RingOne("b", "c", "x", two);
    assert two["b" := Some("x")] == Ring(APP, "x", "x");
  }

  lemma {:induction false} RingSwings(n: nat)
    requires n >= 1
    ensures Rounds(2 * n, ["c", "a", "b"], RING, map[]) == Ring("x", COMMON, COMMON)
    ensures Rounds(2 * n + 1, ["c", "a", "b"], RING, map[]) == Ring(COMMON, "x", "x")
    decreases n
  {
    var s := ["c", "a", "b"];
    hide Turn, Round, Rule, Consumers, UsersOf, RING, Started;
    if n == 1 {
      RingStarts();
      RingRound(APP, "x", "x");
      assert Rounds(2, s, RING, map[]) == Round(s, RING, map[], Rounds(1, s, RING, map[]));
    } else {
      RingSwings(n - 1);
      RingRound(COMMON, "x", "x");
      assert Rounds(2 * n, s, RING, map[]) == Round(s, RING, map[], Rounds(2 * n - 1, s, RING, map[]));
    }
    RingRound("x", COMMON, COMMON);
    assert Rounds(2 * n + 1, s, RING, map[]) == Round(s, RING, map[], Rounds(2 * n, s, RING, map[]));
  }

  /** `a` is not where the rule puts it. */
  lemma NotSettled(n: nat, b: string, place: Place)
    requires Rounds(n, ["c", "a", "b"], RING, map[]) == place && "b" in place && place["b"] == Some(b)
    requires "a" in place && place["a"] != Some(b)
    ensures !Quiet(n, ["c", "a", "b"], RING, map[])
  {
    var s := ["c", "a", "b"];
    assert "a" in Names(s) by {
      assert s[1] == "a";
    }
    OneConsumer(Symbol("b"), place);
    assert UsersOf(RING, "a") == {Symbol("b")};
    RuleIs(UsersOf(RING, "a"), place, b);
  }

  /** Uses in a cycle need not settle, however many rounds: here the placement
      swings for ever, though one that is settled exists. */
  lemma RingNeverSettles(n: nat)
    ensures !Quiet(n, ["c", "a", "b"], RING, map[])
    ensures Settled({"a", "b", "c"}, RING, map[], Ring("x", "x", "x"))
  {
    hide Settled, Round;
    RingIsSettled();
    if n == 0 {
      RingStartsNowhere();
    } else if n == 1 {
      RingStarts();
      NotSettled(1, "x", Ring(APP, "x", "x"));
    } else {
      RingSwings(n / 2);
      if n % 2 == 0 {
        NotSettled(n, COMMON, Ring("x", COMMON, COMMON));
      } else {
        NotSettled(n, "x", Ring(COMMON, "x", "x"));
      }
    }
  }

  lemma RingStartsNowhere()
    ensures !Quiet(0, ["c", "a", "b"], RING, map[])
  {
    var s := ["c", "a", "b"];
    assert Rounds(0, s, RING, map[]) == Started(s, map[]);
    assert s[1] == "a";
    assert "a" in Names(s) && Started(s, map[])["a"] == None;
  }

  lemma RingIsSettled()
    ensures Settled({"a", "b", "c"}, RING, map[], Ring("x", "x", "x"))
  {
    var place := Ring("x", "x", "x");
    OneConsumer(Symbol("b"), place);
    OneConsumer(Symbol("c"), place);
    TwoConsumers(Area("x"), Symbol("a"), place);
    RuleIs(RING["a"], place, "x");
    RuleIs(RING["b"], place, "x");
    RuleIs(RING["c"], place, "x");
  }
}
