/** The test-suite sharder: modules ordered heaviest first, each put on the least
    loaded shard, proved against any other way to split the same modules. */
module Shards {
  import opened Sequences
  import opened Scheduling

  // ---- the order modules are taken in

  /** Python's order on names: by code point, a prefix first. */
  predicate NameUpTo(a: string, b: string) {
    a == [] || (b != [] && (a[0] < b[0] || (a[0] == b[0] && NameUpTo(a[1..], b[1..]))))
  }

  function Weight(weights: map<string, real>, d: real, name: string): real {
    if name in weights then weights[name] else d
  }

  /** Heavier first, a tie by name. */
  predicate Before(weights: map<string, real>, d: real, a: string, b: string) {
    Weight(weights, d, a) > Weight(weights, d, b) || (Weight(weights, d, a) == Weight(weights, d, b) && NameUpTo(a, b))
  }

  lemma {:induction false} NamesCompare(a: string, b: string)
    ensures NameUpTo(a, b) || NameUpTo(b, a)
    ensures NameUpTo(a, b) && NameUpTo(b, a) ==> a == b
  {
    if a != [] && b != [] && a[0] == b[0] {
      NamesCompare(a[1..], b[1..]);
      assert a == [a[0]] + a[1..] && b == [b[0]] + b[1..];
    }
  }

  lemma {:induction false} NamesChain(a: string, b: string, c: string)
    requires NameUpTo(a, b) && NameUpTo(b, c)
    ensures NameUpTo(a, c)
  {
    if a != [] && a[0] == b[0] == c[0] {
      NamesChain(a[1..], b[1..], c[1..]);
    }
  }

  lemma BeforeChain(weights: map<string, real>, d: real, a: string, b: string, c: string)
    requires Before(weights, d, a, b) && Before(weights, d, b, c)
    ensures Before(weights, d, a, c)
  {
    if NameUpTo(a, b) && NameUpTo(b, c) {
      NamesChain(a, b, c);
    }
  }

  ghost predicate Ordered(weights: map<string, real>, d: real, names: seq<string>) {
    forall i, j :: 0 <= i < j < |names| ==> Before(weights, d, names[i], names[j])
  }

  ghost predicate SameNames(a: seq<string>, b: seq<string>) {
    forall x :: x in a <==> x in b
  }

  function Insert(weights: map<string, real>, d: real, x: string, names: seq<string>): (r: seq<string>) {
    if names == [] || Before(weights, d, x, names[0]) then [x] + names
    else [names[0]] + Insert(weights, d, x, names[1..])
  }

  function Sort(weights: map<string, real>, d: real, names: seq<string>): (r: seq<string>) {
    if names == [] then [] else Insert(weights, d, names[0], Sort(weights, d, names[1..]))
  }

  lemma {:induction false} InsertKeeps(weights: map<string, real>, d: real, x: string, names: seq<string>)
    ensures multiset(Insert(weights, d, x, names)) == multiset(names) + multiset{x}
    ensures |Insert(weights, d, x, names)| == |names| + 1
    ensures Sum(weights, d, Insert(weights, d, x, names)) == Weight(weights, d, x) + Sum(weights, d, names)
  {
    if names == [] || Before(weights, d, x, names[0]) {
      assert ([x] + names)[1..] == names;
    } else {
      InsertKeeps(weights, d, x, names[1..]);
      assert names == [names[0]] + names[1..];
      assert ([names[0]] + Insert(weights, d, x, names[1..]))[1..] == Insert(weights, d, x, names[1..]);
    }
  }

  lemma {:induction false} InsertOrdered(weights: map<string, real>, d: real, x: string, names: seq<string>)
    requires Ordered(weights, d, names)
    ensures Ordered(weights, d, Insert(weights, d, x, names))
  {
    hide NameUpTo, Sum;
    if names == [] {
    } else if Before(weights, d, x, names[0]) {
      forall j | 0 < j < |names| ensures Before(weights, d, x, names[j]) {
        BeforeChain(weights, d, x, names[0], names[j]);
      }
    } else {
      NamesCompare(x, names[0]);
      InsertOrdered(weights, d, x, names[1..]);
      InsertKeeps(weights, d, x, names[1..]);
      var rest := Insert(weights, d, x, names[1..]);
      forall j | 0 <= j < |rest| ensures Before(weights, d, names[0], rest[j]) {
        assert rest[j] in multiset(rest);
        assert rest[j] == x || rest[j] in names[1..];
      }
    }
  }

  lemma {:induction false} SortKeeps(weights: map<string, real>, d: real, names: seq<string>)
    ensures multiset(Sort(weights, d, names)) == multiset(names)
    ensures Sum(weights, d, Sort(weights, d, names)) == Sum(weights, d, names)
    ensures Ordered(weights, d, Sort(weights, d, names))
  {
    if names != [] {
      SortKeeps(weights, d, names[1..]);
      InsertKeeps(weights, d, names[0], Sort(weights, d, names[1..]));
      InsertOrdered(weights, d, names[0], Sort(weights, d, names[1..]));
      assert names == [names[0]] + names[1..];
    }
  }

  lemma PermutedNames(a: seq<string>, b: seq<string>)
    requires multiset(a) == multiset(b)
    ensures SameNames(a, b) && |a| == |b| && (NoRepeat(a) ==> NoRepeat(b))
  {
    assert forall x :: x in a <==> x in multiset(a);
    assert forall x :: x in b <==> x in multiset(b);
    assert |a| == |multiset(a)| == |multiset(b)| == |b|;
    if NoRepeat(a) && !NoRepeat(b) {
      var i, j :| 0 <= i < j < |b| && b[i] == b[j];
      TwiceIn(b, i, j);
      OnceIn(a, b[i]);
    }
  }

  lemma TwiceIn(b: seq<string>, i: nat, j: nat)
    requires i < j < |b| && b[i] == b[j]
    ensures multiset(b)[b[i]] >= 2
  {
    assert b == b[..j] + [b[j]] + b[j + 1..];
    assert b[i] in multiset(b[..j]);
    assert multiset(b) == multiset(b[..j]) + multiset{b[j]} + multiset(b[j + 1..]);
  }

  lemma {:induction false} OnceIn(a: seq<string>, x: string)
    requires NoRepeat(a)
    ensures multiset(a)[x] <= 1
  {
    if a != [] {
      OnceIn(a[1..], x);
      assert a == [a[0]] + a[1..];
      assert a[0] !in a[1..];
    }
  }

  lemma EmptyTogether(a: seq<string>, b: seq<string>)
    requires SameNames(a, b)
    ensures a == [] <==> b == []
  {
    if a != [] {
      assert a[0] in b;
    }
    if b != [] {
      assert b[0] in a;
    }
  }

  /** There is one order only: the split does not depend on how the modules came. */
  lemma {:induction false} OneOrder(weights: map<string, real>, d: real, a: seq<string>, b: seq<string>)
    requires Ordered(weights, d, a) && Ordered(weights, d, b) && NoRepeat(a) && NoRepeat(b) && SameNames(a, b)
    ensures a == b
  {
    EmptyTogether(a, b);
    if a != [] {
      assert b[0] in a && a[0] in b;
      NamesCompare(a[0], b[0]);
      assert a[0] == b[0];
      assert forall x :: x in a[1..] <==> x in a && x != a[0] by {
        assert a == [a[0]] + a[1..];
        assert a[0] !in a[1..];
      }
      assert forall x :: x in b[1..] <==> x in b && x != b[0] by {
        assert b == [b[0]] + b[1..];
        assert b[0] !in b[1..];
      }
      OneOrder(weights, d, a[1..], b[1..]);
      assert a == [a[0]] + a[1..] && b == [b[0]] + b[1..];
    }
  }

  /** The modules without repeats. */
  function Distinct(names: seq<string>): (r: seq<string>)
    ensures NoRepeat(r) && SameNames(names, r)
  {
    if names == [] then []
    else
      var n := |names| - 1;
      var r := Distinct(names[..n]);
      assert names == names[..n] + [names[n]];
      if names[n] in r then r else r + [names[n]]
  }

  function HeaviestFirst(weights: map<string, real>, d: real, modules: seq<string>): seq<string> {
    Sort(weights, d, Distinct(modules))
  }

  // ---- the weight of a module with no record

  function Recorded(weights: map<string, real>, modules: seq<string>): (r: seq<string>)
    ensures forall x :: x in r ==> x in weights
  {
    if modules == [] then []
    else if modules[0] in weights then [modules[0]] + Recorded(weights, modules[1..])
    else Recorded(weights, modules[1..])
  }

  /** The middle recorded weight, the mean of the middle two of an even number. */
  function Median(weights: map<string, real>, known: seq<string>): real
    requires known != []
  {
    var s := Sort(weights, 0.0, known);
    SortKeeps(weights, 0.0, known);
    PermutedNames(s, known);
    var h := |s| / 2;
    if |s| % 2 == 1 then Weight(weights, 0.0, s[h])
    else (Weight(weights, 0.0, s[h - 1]) + Weight(weights, 0.0, s[h])) / 2.0
  }

  function DefaultWeight(weights: map<string, real>, modules: seq<string>): real {
    var known := Recorded(weights, modules);
    if known == [] then 1.0 else Median(weights, known)
  }

  // ---- the split

  function Sum(weights: map<string, real>, d: real, names: seq<string>): real {
    if names == [] then 0.0 else Weight(weights, d, names[0]) + Sum(weights, d, names[1..])
  }

  function WeightsOf(weights: map<string, real>, d: real, names: seq<string>): (w: seq<real>)
    ensures |w| == |names| && forall j :: 0 <= j < |w| ==> w[j] == Weight(weights, d, names[j])
  {
    if names == [] then []
    else WeightsOf(weights, d, names[..|names| - 1]) + [Weight(weights, d, names[|names| - 1])]
  }

  /** The modules put on shard `i`, in the order they were put there. */
  function Members(order: seq<string>, p: seq<nat>, i: nat): seq<string>
    requires |order| == |p|
  {
    if order == [] then []
    else
      var n := |order| - 1;
      Members(order[..n], p[..n], i) + if p[n] == i then [order[n]] else []
  }

  function Shard(order: seq<string>, p: seq<nat>, i: nat): seq<string>
    requires |order| == |p|
  {
    Sort(map[], 0.0, Members(order, p, i))
  }

  /** The shards the modules are split into. */
  function Split(weights: map<string, real>, d: real, modules: seq<string>, count: nat): (shards: seq<seq<string>>)
    requires count > 0
    ensures |shards| == count
  {
    var order := HeaviestFirst(weights, d, modules);
    var p := Greedy(WeightsOf(weights, d, order), count);
    seq(count, i requires 0 <= i < count => Shard(order, p, i))
  }

  ghost predicate Housed(shards: seq<seq<string>>, x: string) {
    exists i :: 0 <= i < |shards| && x in shards[i]
  }

  /** Every module in exactly one of the `count` shards, once. */
  ghost predicate IsSplit(shards: seq<seq<string>>, modules: seq<string>, count: nat) {
    && |shards| == count
    && (forall i :: 0 <= i < count ==> NoRepeat(shards[i]))
    && (forall x, i :: 0 <= i < count && x in shards[i] ==> x in modules)
    && (forall x :: x in modules ==> Housed(shards, x))
    && (forall x, i, j :: 0 <= i < count && 0 <= j < count && x in shards[i] && x in shards[j] ==> i == j)
  }

  // ---- the median is in the middle

  /** How many of `names` weigh at most `x` (`below`), or at least `x`. */
  function Count(weights: map<string, real>, names: seq<string>, x: real, below: bool): nat {
    if names == [] then 0
    else
      var v := Weight(weights, 0.0, names[0]);
      (if (if below then v <= x else v >= x) then 1 else 0) + Count(weights, names[1..], x, below)
  }

  lemma {:induction false} CountInserted(weights: map<string, real>, y: string, names: seq<string>, x: real,
                                         below: bool)
    ensures Count(weights, Insert(weights, 0.0, y, names), x, below) == Count(weights, [y] + names, x, below)
  {
    assert ([y] + names)[1..] == names;
    if names != [] && !Before(weights, 0.0, y, names[0]) {
      CountInserted(weights, y, names[1..], x, below);
      assert ([y] + names[1..])[1..] == names[1..];
    }
  }

  lemma {:induction false} CountSorted(weights: map<string, real>, names: seq<string>, x: real, below: bool)
    ensures Count(weights, Sort(weights, 0.0, names), x, below) == Count(weights, names, x, below)
  {
    if names != [] {
      CountSorted(weights, names[1..], x, below);
      CountInserted(weights, names[0], Sort(weights, 0.0, names[1..]), x, below);
    }
  }

  lemma {:induction false} CountRun(weights: map<string, real>, names: seq<string>, x: real, below: bool, lo: nat,
                                    hi: nat)
    requires lo <= hi <= |names|
    requires forall k :: lo <= k < hi ==>
               if below then Weight(weights, 0.0, names[k]) <= x else Weight(weights, 0.0, names[k]) >= x
    ensures Count(weights, names, x, below) >= hi - lo
  {
    if names != [] && lo < hi {
      CountRun(weights, names[1..], x, below, if lo == 0 then 0 else lo - 1, hi - 1);
    }
  }

  /** A module with no record weighs what at least half the recorded ones weigh
      at most, and at least half weigh at least. */
  lemma MedianIsMiddle(weights: map<string, real>, known: seq<string>)
    requires known != []
    ensures 2 * Count(weights, known, Median(weights, known), true) >= |known|
    ensures 2 * Count(weights, known, Median(weights, known), false) >= |known|
  {
    var s := Sort(weights, 0.0, known);
    SortKeeps(weights, 0.0, known);
    PermutedNames(s, known);
    MedianOfOrdered(weights, s, Median(weights, known));
    CountSorted(weights, known, Median(weights, known), true);
    CountSorted(weights, known, Median(weights, known), false);
  }

  lemma Lighter(weights: map<string, real>, s: seq<string>, i: nat, j: nat)
    requires Ordered(weights, 0.0, s) && i <= j < |s|
    ensures Weight(weights, 0.0, s[i]) >= Weight(weights, 0.0, s[j])
  {
  }

  lemma MedianOfOrdered(weights: map<string, real>, s: seq<string>, x: real)
    requires s != [] && Ordered(weights, 0.0, s)
    requires var h := |s| / 2;
             x == if |s| % 2 == 1 then Weight(weights, 0.0, s[h])
               else (Weight(weights, 0.0, s[h - 1]) + Weight(weights, 0.0, s[h])) / 2.0
    ensures 2 * Count(weights, s, x, true) >= |s| && 2 * Count(weights, s, x, false) >= |s|
  {
    hide Count, Ordered, Weight;
    var h := |s| / 2;
    var top := if |s| % 2 == 1 then h + 1 else h;
    Lighter(weights, s, top - 1, h);
    forall k | h <= k < |s| ensures Weight(weights, 0.0, s[k]) <= x {
      Lighter(weights, s, h, k);
    }
    forall k | 0 <= k < top ensures Weight(weights, 0.0, s[k]) >= x {
      Lighter(weights, s, k, top - 1);
    }
    CountRun(weights, s, x, true, h, |s|);
    CountRun(weights, s, x, false, 0, top);
  }

  // ---- what the shards hold

  lemma {:induction false} MembersAre(order: seq<string>, p: seq<nat>, i: nat)
    requires |order| == |p|
    ensures forall x :: x in Members(order, p, i) <==> exists j :: 0 <= j < |order| && order[j] == x && p[j] == i
    ensures NoRepeat(order) ==> NoRepeat(Members(order, p, i))
  {
    if order != [] {
      var n := |order| - 1;
      MembersAre(order[..n], p[..n], i);
      var before := Members(order[..n], p[..n], i);
      forall x ensures x in Members(order, p, i) <==> exists j :: 0 <= j < |order| && order[j] == x && p[j] == i {
        if x in before {
          var j :| 0 <= j < n && order[..n][j] == x && p[..n][j] == i;
          assert order[j] == x && p[j] == i;
        }
        if j :| 0 <= j < |order| && order[j] == x && p[j] == i {
          if j < n {
            assert order[..n][j] == x && p[..n][j] == i;
          }
        }
      }
      assert NoRepeat(order) ==> order[n] !in before;
    }
  }

  lemma {:induction false} SumAppend(weights: map<string, real>, d: real, a: seq<string>, x: string)
    ensures Sum(weights, d, a + [x]) == Sum(weights, d, a) + Weight(weights, d, x)
  {
    if a == [] {
      assert [x][1..] == [];
    } else {
      SumAppend(weights, d, a[1..], x);
      assert (a + [x])[1..] == a[1..] + [x];
    }
  }

  lemma {:induction false} MembersWeigh(weights: map<string, real>, d: real, order: seq<string>, p: seq<nat>, i: nat)
    requires |order| == |p|
    ensures Sum(weights, d, Members(order, p, i)) == Load(WeightsOf(weights, d, order), p, i)
  {
    if order != [] {
      var n := |order| - 1;
      MembersWeigh(weights, d, order[..n], p[..n], i);
      SumAppend(weights, d, Members(order[..n], p[..n], i), order[n]);
      assert WeightsOf(weights, d, order)[..n] == WeightsOf(weights, d, order[..n]);
      assert Members(order[..n], p[..n], i) + [] == Members(order[..n], p[..n], i);
    }
  }

  lemma {:induction false} SumSplitsAt(weights: map<string, real>, d: real, a: seq<string>, k: nat)
    requires k < |a|
    ensures Sum(weights, d, a) == Sum(weights, d, a[..k] + a[k + 1..]) + Weight(weights, d, a[k])
  {
    if k == 0 {
      assert a[..0] + a[1..] == a[1..];
    } else {
      SumSplitsAt(weights, d, a[1..], k - 1);
      assert (a[..k] + a[k + 1..])[1..] == a[1..][..k - 1] + a[1..][k..];
    }
  }

  lemma WithoutOne(b: seq<string>, k: nat)
    requires NoRepeat(b) && k < |b|
    ensures var rest := b[..k] + b[k + 1..];
            NoRepeat(rest) && forall x :: x in rest <==> x in b && x != b[k]
  {
    var rest := b[..k] + b[k + 1..];
    forall j | 0 <= j < |rest| ensures rest[j] in b && rest[j] != b[k] {
      assert rest[j] == if j < k then b[j] else b[j + 1];
    }
    forall x | x in b && x != b[k] ensures x in rest {
      var j :| 0 <= j < |b| && b[j] == x;
      assert rest[if j < k then j else j - 1] == x;
    }
  }

  /** The weight of a shard does not depend on its order. */
  lemma {:induction false} SameNamesSameSum(weights: map<string, real>, d: real, a: seq<string>, b: seq<string>)
    requires NoRepeat(a) && NoRepeat(b) && SameNames(a, b)
    ensures Sum(weights, d, a) == Sum(weights, d, b)
    decreases |a|
  {
    EmptyTogether(a, b);
    if a != [] {
      assert a[0] in b;
      var k :| 0 <= k < |b| && b[k] == a[0];
      var rest := b[..k] + b[k + 1..];
      WithoutOne(a, 0);
      WithoutOne(b, k);
      assert a[..0] + a[1..] == a[1..];
      SameNamesSameSum(weights, d, a[1..], rest);
      SumSplitsAt(weights, d, b, k);
    }
  }

  lemma OrderIsModules(weights: map<string, real>, d: real, modules: seq<string>)
    ensures var order := HeaviestFirst(weights, d, modules);
            NoRepeat(order) && SameNames(modules, order) && Ordered(weights, d, order)
  {
    SortKeeps(weights, d, Distinct(modules));
    PermutedNames(Distinct(modules), HeaviestFirst(weights, d, modules));
  }

  lemma ShardHolds(order: seq<string>, p: seq<nat>, i: nat)
    requires |order| == |p| && NoRepeat(order)
    ensures NoRepeat(Shard(order, p, i)) && SameNames(Members(order, p, i), Shard(order, p, i))
  {
    MembersAre(order, p, i);
    SortKeeps(map[], 0.0, Members(order, p, i));
    PermutedNames(Members(order, p, i), Shard(order, p, i));
  }

  // ---- the claims

  /** Every collected module lands in exactly one shard, whatever the record says. */
  lemma SplitCoversOnce(weights: map<string, real>, d: real, modules: seq<string>, count: nat)
    requires count > 0
    ensures IsSplit(Split(weights, d, modules, count), modules, count)
  {
    var order := HeaviestFirst(weights, d, modules);
    var p := Greedy(WeightsOf(weights, d, order), count);
    var shards := Split(weights, d, modules, count);
    OrderIsModules(weights, d, modules);
    forall i | 0 <= i < count
      ensures NoRepeat(shards[i])
      ensures forall x :: x in shards[i] <==> exists j :: 0 <= j < |order| && order[j] == x && p[j] == i
    {
      ShardHolds(order, p, i);
      MembersAre(order, p, i);
    }
    forall x | x in modules ensures Housed(shards, x) {
      assert x in order;
      var j :| 0 <= j < |order| && order[j] == x;
      assert x in shards[p[j]];
    }
  }

  lemma ShardWeighs(weights: map<string, real>, d: real, modules: seq<string>, count: nat, i: nat)
    requires i < count
    ensures var order := HeaviestFirst(weights, d, modules);
            var w := WeightsOf(weights, d, order);
            Sum(weights, d, Split(weights, d, modules, count)[i]) == Load(w, Greedy(w, count), i)
  {
    var order := HeaviestFirst(weights, d, modules);
    var p := Greedy(WeightsOf(weights, d, order), count);
    OrderIsModules(weights, d, modules);
    MembersAre(order, p, i);
    ShardHolds(order, p, i);
    SameNamesSameSum(weights, d, Members(order, p, i), Shard(order, p, i));
    MembersWeigh(weights, d, order, p, i);
  }

  /** The shard a module is in. */
  ghost function HomeIn(shards: seq<seq<string>>, x: string): (i: nat)
    requires Housed(shards, x)
    ensures i < |shards| && x in shards[i]
  {
    var i :| 0 <= i < |shards| && x in shards[i];
    i
  }

  /** Any split, as a schedule of the modules in the order they are taken. */
  ghost function ScheduleOf(shards: seq<seq<string>>, order: seq<string>): (q: seq<nat>)
    requires forall x :: x in order ==> Housed(shards, x)
    ensures |q| == |order| && forall j :: 0 <= j < |q| ==> q[j] < |shards| && order[j] in shards[q[j]]
  {
    seq(|order|, j requires 0 <= j < |order| => HomeIn(shards, order[j]))
  }

  lemma OtherWeighs(weights: map<string, real>, d: real, order: seq<string>, modules: seq<string>,
                    other: seq<seq<string>>, count: nat, i: nat)
    requires i < count && IsSplit(other, modules, count) && NoRepeat(order) && SameNames(modules, order)
    ensures Load(WeightsOf(weights, d, order), ScheduleOf(other, order), i) == Sum(weights, d, other[i])
  {
    var q := ScheduleOf(other, order);
    MembersAre(order, q, i);
    forall x ensures x in Members(order, q, i) <==> x in other[i] {
      if x in other[i] {
        assert x in order;
        var j :| 0 <= j < |order| && order[j] == x;
        assert q[j] == i;
      }
    }
    SameNamesSameSum(weights, d, Members(order, q, i), other[i]);
    MembersWeigh(weights, d, order, q, i);
  }

  ghost predicate WeighsNothingBelowZero(weights: map<string, real>, d: real, modules: seq<string>) {
    forall x :: x in modules ==> Weight(weights, d, x) >= 0.0
  }

  /** The other split's schedule, ready for the bounds. */
  lemma OtherWithin(weights: map<string, real>, d: real, modules: seq<string>, count: nat, other: seq<seq<string>>,
                    limit: real)
    requires IsSplit(other, modules, count) && WeighsNothingBelowZero(weights, d, modules)
    requires forall i :: 0 <= i < count ==> Sum(weights, d, other[i]) <= limit
    ensures var order := HeaviestFirst(weights, d, modules);
            var w := WeightsOf(weights, d, order);
            && SameNames(modules, order) && NonNegative(w) && Descending(w)
            && OnMachines(ScheduleOf(other, order), count) && Within(w, ScheduleOf(other, order), count, limit)
  {
    var order := HeaviestFirst(weights, d, modules);
    OrderIsModules(weights, d, modules);
    var w := WeightsOf(weights, d, order);
    forall i | 0 <= i < count ensures Load(w, ScheduleOf(other, order), i) <= limit {
      OtherWeighs(weights, d, order, modules, other, count, i);
    }
  }

  lemma NearBest(weights: map<string, real>, d: real, modules: seq<string>, count: nat, other: seq<seq<string>>,
                 limit: real, i: nat)
    requires i < count && IsSplit(other, modules, count) && WeighsNothingBelowZero(weights, d, modules)
    requires forall k :: 0 <= k < count ==> Sum(weights, d, other[k]) <= limit
    ensures var load := Sum(weights, d, Split(weights, d, modules, count)[i]);
            WithinAThird(count, load, limit) && WithinTwice(count, load, limit)
  {
    hide WithinAThird, WithinTwice, Split, Sum, HeaviestFirst, IsSplit, Load, Greedy;
    var order := HeaviestFirst(weights, d, modules);
    var w := WeightsOf(weights, d, order);
    OtherWithin(weights, d, modules, count, other, limit);
    LargestFirstBound(w, count, ScheduleOf(other, order), limit, i);
    TwiceBound(w, count, ScheduleOf(other, order), limit, i);
    ShardWeighs(weights, d, modules, count, i);
  }

  lemma Spelled(count: nat, load: real, limit: real)
    requires count > 0 && WithinAThird(count, load, limit) && WithinTwice(count, load, limit)
    ensures 3.0 * (count as real * load) <= (4 * count - 1) as real * limit
    ensures count as real * load <= (2 * count - 1) as real * limit
  {
  }

  /** The heaviest shard is at most (4/3 - 1/(3 count)) times the heaviest shard
      of any other split of the same modules. */
  lemma SplitNearBest(weights: map<string, real>, d: real, modules: seq<string>, count: nat, other: seq<seq<string>>,
                      limit: real, i: nat)
    requires i < count && IsSplit(other, modules, count) && WeighsNothingBelowZero(weights, d, modules)
    requires forall k :: 0 <= k < count ==> Sum(weights, d, other[k]) <= limit
    ensures 3.0 * (count as real * Sum(weights, d, Split(weights, d, modules, count)[i]))
            <= (4 * count - 1) as real * limit
    ensures count as real * Sum(weights, d, Split(weights, d, modules, count)[i]) <= (2 * count - 1) as real * limit
  {
    hide WithinAThird, WithinTwice, Sum, Split, IsSplit;
    NearBest(weights, d, modules, count, other, limit, i);
    Spelled(count, Sum(weights, d, Split(weights, d, modules, count)[i]), limit);
  }

  /** No two shards differ by more than the heaviest module. */
  lemma SplitIsEven(weights: map<string, real>, d: real, modules: seq<string>, count: nat, heaviest: real, i: nat,
                    j: nat)
    requires i < count && j < count && heaviest >= 0.0
    requires forall x :: x in modules ==> 0.0 <= Weight(weights, d, x) <= heaviest
    ensures Sum(weights, d, Split(weights, d, modules, count)[i])
            <= Sum(weights, d, Split(weights, d, modules, count)[j]) + heaviest
  {
    var order := HeaviestFirst(weights, d, modules);
    OrderIsModules(weights, d, modules);
    GapBound(WeightsOf(weights, d, order), count, heaviest, i, j);
    ShardWeighs(weights, d, modules, count, i);
    ShardWeighs(weights, d, modules, count, j);
  }

  /** The split depends on which modules there are, not on how they are listed. */
  lemma SplitIgnoresListing(weights: map<string, real>, d: real, modules: seq<string>, others: seq<string>, count: nat)
    requires count > 0 && SameNames(modules, others)
    ensures Split(weights, d, modules, count) == Split(weights, d, others, count)
  {
    OrderIsModules(weights, d, modules);
    OrderIsModules(weights, d, others);
    OneOrder(weights, d, HeaviestFirst(weights, d, modules), HeaviestFirst(weights, d, others));
  }

  // ---- the loops

  /** The index of the least load, the lowest on a tie. */
  method LeastLoaded(load: array<real>) returns (target: nat)
    requires load.Length > 0
    ensures target < load.Length && forall i :: 0 <= i < load.Length ==> load[target] <= load[i]
    ensures forall i :: 0 <= i < target ==> load[target] < load[i]
  {
    target := 0;
    for k := 1 to load.Length
      invariant target < k && forall i :: 0 <= i < k ==> load[target] <= load[i]
      invariant forall i :: 0 <= i < target ==> load[target] < load[i]
    {
      if load[k] < load[target] {
        target := k;
      }
    }
  }

  /** What the arrays hold once the modules of `order` are placed as `p` says. */
  ghost predicate Placed(w: seq<real>, order: seq<string>, p: seq<nat>, load: seq<real>, shards: seq<seq<string>>)
    requires |w| == |order| == |p|
  {
    && |load| == |shards|
    && (forall i :: 0 <= i < |load| ==> load[i] == Load(w, p, i))
    && (forall i :: 0 <= i < |load| ==> shards[i] == Members(order, p, i))
  }

  lemma PlacedNext(w: seq<real>, order: seq<string>, p: seq<nat>, load: seq<real>, shards: seq<seq<string>>,
                   target: nat)
    requires |w| == |order| == |p| + 1 && target < |load| == |shards|
    requires Placed(w[..|p|], order[..|p|], p, load, shards)
    ensures Placed(w, order, p + [target], load[target := load[target] + w[|p|]],
                   shards[target := shards[target] + [order[|p|]]])
  {
    hide Members, Load;
    var n := |p|;
    forall i | 0 <= i < |load|
      ensures load[target := load[target] + w[n]][i] == Load(w, p + [target], i)
      ensures shards[target := shards[target] + [order[n]]][i] == Members(order, p + [target], i)
    {
      OneMore(w, order, p, target, i);
    }
  }

  lemma GreedyNext(w: seq<real>, order: seq<string>, load: seq<real>, shards: seq<seq<string>>, target: nat)
    requires |w| == |order| > 0 && target < |load|
    requires Placed(w[..|w| - 1], order[..|w| - 1], Greedy(w[..|w| - 1], |load|), load, shards)
    requires forall i :: 0 <= i < |load| ==> load[target] <= load[i]
    requires forall i :: 0 <= i < target ==> load[target] < load[i]
    ensures Greedy(w, |load|) == Greedy(w[..|w| - 1], |load|) + [target]
  {
    LeastIs(w[..|w| - 1], Greedy(w[..|w| - 1], |load|), load, target);
  }

  lemma OneMore(w: seq<real>, order: seq<string>, p: seq<nat>, target: nat, i: nat)
    requires |w| == |order| == |p| + 1
    ensures var n := |p|;
            && Load(w, p + [target], i) == Load(w[..n], p, i) + (if i == target then w[n] else 0.0)
            && Members(order, p + [target], i) == Members(order[..n], p, i) + (if i == target then [order[n]] else [])
  {
    assert (p + [target])[..|p|] == p;
  }

  lemma LeastIs(w: seq<real>, p: seq<nat>, load: seq<real>, target: nat)
    requires |w| == |p| && target < |load|
    requires forall i :: 0 <= i < |load| ==> load[i] == Load(w, p, i)
    requires forall i :: 0 <= i < |load| ==> load[target] <= load[i]
    requires forall i :: 0 <= i < target ==> load[target] < load[i]
    ensures Least(w, p, |load|) == target
  {
    hide Load;
    var t := Least(w, p, |load|);
    assert load[t] == Load(w, p, t) && load[target] == Load(w, p, target);
  }

  method Spread(modules: seq<string>, weights: map<string, real>, d: real, count: nat) returns (split: seq<seq<string>>)
    requires count > 0
    ensures split == Split(weights, d, modules, count)
  {
    hide Placed, Sort, Greedy, WeightsOf, HeaviestFirst, Members;
    var load := new real[count](_ => 0.0);
    var shards := new seq<string>[count](_ => []);
    var order := HeaviestFirst(weights, d, modules);
    ghost var w := WeightsOf(weights, d, order);
    NothingPlaced(w, order, count, load[..], shards[..]);
    for k := 0 to |order|
      invariant Placed(w[..k], order[..k], Greedy(w[..k], count), load[..], shards[..])
    {
      var target := LeastLoaded(load);
      assert order[..k + 1][..k] == order[..k] && w[..k + 1][..k] == w[..k];
      GreedyNext(w[..k + 1], order[..k + 1], load[..], shards[..], target);
      PlacedNext(w[..k + 1], order[..k + 1], Greedy(w[..k], count), load[..], shards[..], target);
      ghost var l, s := load[..], shards[..];
      shards[target] := shards[target] + [order[k]];
      load[target] := load[target] + Weight(weights, d, order[k]);
      assert shards[..] == s[target := s[target] + [order[k]]];
      assert load[..] == l[target := l[target] + w[k]];
    }
    assert order[..|order|] == order && w[..|order|] == w;
    split := [];
    PlacedIs(w, order, Greedy(w, count), load[..], shards[..]);
    for i := 0 to count
      invariant split == Split(weights, d, modules, count)[..i]
    {
      split := split + [Sort(map[], 0.0, shards[i])];
    }
  }

  lemma NothingPlaced(w: seq<real>, order: seq<string>, count: nat, load: seq<real>, shards: seq<seq<string>>)
    requires |w| == |order| && |load| == |shards| == count > 0
    requires forall i :: 0 <= i < count ==> load[i] == 0.0 && shards[i] == []
    ensures Placed(w[..0], order[..0], Greedy(w[..0], count), load, shards)
  {
  }

  lemma PlacedIs(w: seq<real>, order: seq<string>, p: seq<nat>, load: seq<real>, shards: seq<seq<string>>)
    requires |w| == |order| == |p| && Placed(w, order, p, load, shards)
    ensures forall i :: 0 <= i < |shards| ==> shards[i] == Members(order, p, i)
  {
  }

  /** The test modules of one run over `count` runners. */
  method AssignModules(modules: seq<string>, weights: map<string, real>, count: nat) returns (split: seq<seq<string>>)
    requires count > 0
    ensures split == Split(weights, DefaultWeight(weights, modules), modules, count)
    ensures IsSplit(split, modules, count)
  {
    var d := DefaultWeight(weights, modules);
    split := Spread(modules, weights, d, count);
    SplitCoversOnce(weights, d, modules, count);
  }

  /** The q suite's files over `count` processes: a file with no record weighs 1. */
  method AssignFiles(files: seq<string>, weights: map<string, real>, count: nat) returns (split: seq<seq<string>>)
    requires count > 0
    ensures split == Split(weights, 1.0, files, count)
    ensures IsSplit(split, files, count)
  {
    split := Spread(files, weights, 1.0, count);
    SplitCoversOnce(weights, 1.0, files, count);
  }
}
