/** What a module weighs, in which order modules are taken, and how each shard lists them. */
module ShardSays {
  import opened Sequences
  import opened Scheduling
  import opened Shards

  // ---- names

  /** By the first character that differs, a name before those it begins. */
  ghost predicate Precedes(a: string, b: string) {
    exists k: nat :: AgreeTo(a, b, k) && (k == |a| || (k < |b| && a[k] < b[k]))
  }

  predicate AgreeTo(a: string, b: string, k: nat) { k <= |a| && k <= |b| && a[..k] == b[..k] }

  lemma {:induction false} NameOrderIff(a: string, b: string)
    ensures NameUpTo(a, b) <==> Precedes(a, b)
    decreases |a|
  {
    if a == [] {
      assert AgreeTo(a, b, 0);
    } else if b == [] {
      NothingBefore(a, b);
    } else if a[0] == b[0] {
      NameOrderIff(a[1..], b[1..]);
      if k: nat :| AgreeTo(a[1..], b[1..], k) && (k == |a[1..]| || (k < |b[1..]| && a[1..][k] < b[1..][k])) {
        assert a[..k + 1] == [a[0]] + a[1..][..k] && b[..k + 1] == [b[0]] + b[1..][..k];
        assert AgreeTo(a, b, k + 1);
      }
      if k: nat :| AgreeTo(a, b, k) && (k == |a| || (k < |b| && a[k] < b[k])) {
        if k > 0 {
          assert a[1..][..k - 1] == a[..k][1..] && b[1..][..k - 1] == b[..k][1..];
          assert AgreeTo(a[1..], b[1..], k - 1);
        }
      }
    } else {
      FirstDiffers(a, b);
    }
  }

  lemma NothingBefore(a: string, b: string)
    requires a != [] && b == []
    ensures !Precedes(a, b)
  {
  }

  lemma FirstDiffers(a: string, b: string)
    requires a != [] && b != [] && a[0] != b[0]
    ensures Precedes(a, b) <==> a[0] < b[0]
  {
    if a[0] < b[0] { assert AgreeTo(a, b, 0); }
    if k: nat :| AgreeTo(a, b, k) && (k == |a| || (k < |b| && a[k] < b[k])) {
      if k > 0 { SameFirst(a, b, k); }
    }
  }

  lemma SameFirst(a: string, b: string, k: nat)
    requires AgreeTo(a, b, k) && k > 0
    ensures a != [] && b != [] && a[0] == b[0]
  {
    assert a[..k][0] == a[0] && b[..k][0] == b[0];
  }

  // ---- weights

  /** The recorded weights of those named, in turn. */
  function RecordsOf(weights: map<string, real>, names: seq<string>): seq<real> {
    if names == [] then []
    else
      var n := |names| - 1;
      RecordsOf(weights, names[..n]) + if names[n] in weights then [weights[names[n]]] else []
  }

  /** What a shard weighs: its modules' recorded weights, and the default for each of the others. */
  lemma {:induction false} SumSays(weights: map<string, real>, d: real, names: seq<string>)
    ensures |RecordsOf(weights, names)| <= |names|
    ensures Sum(weights, d, names) ==
              Total(RecordsOf(weights, names)) + Times(|names| - |RecordsOf(weights, names)|, d)
    decreases |names|
  {
    hide *;
    if names == [] {
      NothingWeighs(weights, d);
    } else {
      var n := |names| - 1;
      SumSays(weights, d, names[..n]);
      SumLast(weights, d, names);
      LastRecord(weights, d, names);
      OneMoreTimes(n - |RecordsOf(weights, names[..n])|, d);
    }
  }

  lemma NothingWeighs(weights: map<string, real>, d: real)
    ensures RecordsOf(weights, []) == [] && Sum(weights, d, []) == 0.0 && Total([]) == 0.0 && Times(0, d) == 0.0
  {
  }

  lemma OneMoreTimes(k: nat, d: real)
    ensures Times(k + 1, d) == Times(k, d) + d
  {
  }

  lemma LastRecord(weights: map<string, real>, d: real, names: seq<string>)
    requires names != []
    ensures var n := |names| - 1;
            var before, after := RecordsOf(weights, names[..n]), RecordsOf(weights, names);
            if names[n] in weights then
              |after| == |before| + 1 && Total(after) == Total(before) + Weight(weights, d, names[n])
            else after == before && Weight(weights, d, names[n]) == d
  {
    var n := |names| - 1;
    var before, after := RecordsOf(weights, names[..n]), RecordsOf(weights, names);
    if names[n] in weights { assert after[..|before|] == before; }
  }

  lemma {:induction false} SumLast(weights: map<string, real>, d: real, names: seq<string>)
    requires names != []
    ensures var n := |names| - 1; Sum(weights, d, names) == Sum(weights, d, names[..n]) + Weight(weights, d, names[n])
    decreases |names|
  {
    var n := |names| - 1;
    if n > 0 {
      SumLast(weights, d, names[1..]);
      assert names[1..][..n - 1] == names[..n][1..];
    }
  }

  // ---- the default

  ghost predicate Falling(s: seq<real>) { forall i, j :: 0 <= i < j < |s| ==> s[i] >= s[j] }

  /** The middle one, or the mean of the middle two. */
  predicate InMiddle(s: seq<real>, x: real) {
    s != [] && x == if |s| % 2 == 1 then s[|s| / 2] else (s[|s| / 2 - 1] + s[|s| / 2]) / 2.0
  }

  /** The weights of names that are all recorded. */
  function Values(weights: map<string, real>, names: seq<string>): (s: seq<real>)
    ensures |s| == |names|
    ensures forall i :: 0 <= i < |s| ==> s[i] == Weight(weights, 0.0, names[i])
  {
    if names == [] then [] else [Weight(weights, 0.0, names[0])] + Values(weights, names[1..])
  }

  lemma ValuesFirst(weights: map<string, real>, x: string, names: seq<string>)
    ensures Values(weights, [x] + names) == [Weight(weights, 0.0, x)] + Values(weights, names)
  {
    assert ([x] + names)[1..] == names;
  }

  lemma {:induction false} InsertValues(weights: map<string, real>, x: string, names: seq<string>)
    ensures multiset(Values(weights, Insert(weights, 0.0, x, names)))
            == multiset{Weight(weights, 0.0, x)} + multiset(Values(weights, names))
    decreases |names|
  {
    hide NameUpTo, Weight, Before, Values;
    if names == [] || Before(weights, 0.0, x, names[0]) {
      ValuesFirst(weights, x, names);
    } else {
      InsertValues(weights, x, names[1..]);
      ValuesFirst(weights, names[0], names[1..]);
      ValuesFirst(weights, names[0], Insert(weights, 0.0, x, names[1..]));
      assert names == [names[0]] + names[1..];
    }
  }

  lemma {:induction false} SortValues(weights: map<string, real>, names: seq<string>)
    ensures multiset(Values(weights, Sort(weights, 0.0, names))) == multiset(Values(weights, names))
  {
    hide Insert, Weight, Values;
    if names != [] {
      SortValues(weights, names[1..]);
      InsertValues(weights, names[0], Sort(weights, 0.0, names[1..]));
      ValuesFirst(weights, names[0], names[1..]);
      assert names == [names[0]] + names[1..];
    }
  }

  lemma {:induction false} RecordsJoin(weights: map<string, real>, a: seq<string>, b: seq<string>)
    ensures RecordsOf(weights, a + b) == RecordsOf(weights, a) + RecordsOf(weights, b)
    decreases |b|
  {
    if b == [] {
      assert a + b == a;
    } else {
      var n := |b| - 1;
      RecordsJoin(weights, a, b[..n]);
      assert (a + b)[..|a + b| - 1] == a + b[..n];
    }
  }

  /** The known weights are the recorded ones, in the order the modules are listed. */
  lemma {:induction false} KnownAre(weights: map<string, real>, modules: seq<string>)
    ensures Values(weights, Recorded(weights, modules)) == RecordsOf(weights, modules)
  {
    hide Weight, Values, RecordsOf;
    if modules == [] {
      NoRecords(weights);
    } else {
      KnownAre(weights, modules[1..]);
      RecordsJoin(weights, [modules[0]], modules[1..]);
      OneRecord(weights, modules[0]);
      assert modules == [modules[0]] + modules[1..];
      ValuesFirst(weights, modules[0], Recorded(weights, modules[1..]));
    }
  }

  lemma NoRecords(weights: map<string, real>)
    ensures Values(weights, []) == [] && RecordsOf(weights, []) == []
  {
  }

  lemma OneRecord(weights: map<string, real>, name: string)
    ensures RecordsOf(weights, [name]) == if name in weights then [Weight(weights, 0.0, name)] else []
  {
    assert [name][..0] == [];
  }

  /** DEFAULT. A module without a record weighs 1 when none is recorded, else the
      median of those recorded. */
  lemma DefaultSays(weights: map<string, real>, modules: seq<string>)
    ensures (forall m :: m in modules ==> m !in weights) ==> DefaultWeight(weights, modules) == 1.0
    ensures (exists m :: m in modules && m in weights) ==>
              exists s :: Falling(s) && multiset(s) == multiset(RecordsOf(weights, modules)) &&
                InMiddle(s, DefaultWeight(weights, modules))
  {
    hide Values, Recorded, RecordsOf, Median, InMiddle, Falling;
    var known := Recorded(weights, modules);
    SomeRecorded(weights, modules);
    KnownAre(weights, modules);
    if known != [] { var s := MedianSays(weights, known); }
  }

  lemma MedianSays(weights: map<string, real>, known: seq<string>) returns (s: seq<real>)
    requires known != []
    ensures Falling(s) && multiset(s) == multiset(Values(weights, known)) && InMiddle(s, Median(weights, known))
  {
    hide *;
    var sorted := Sort(weights, 0.0, known);
    SortKeeps(weights, 0.0, known);
    PermutedNames(sorted, known);
    SortValues(weights, known);
    s := Values(weights, sorted);
    HeavierFirst(weights, sorted, s);
    MedianMiddle(weights, known, s);
  }

  lemma HeavierFirst(weights: map<string, real>, names: seq<string>, s: seq<real>)
    requires Ordered(weights, 0.0, names) && s == Values(weights, names)
    ensures Falling(s)
  {
    hide NameUpTo, Values;
    forall i, j | 0 <= i < j < |s| ensures s[i] >= s[j] { assert Before(weights, 0.0, names[i], names[j]); }
  }

  lemma MedianMiddle(weights: map<string, real>, known: seq<string>, s: seq<real>)
    requires known != [] && s == Values(weights, Sort(weights, 0.0, known)) && |Sort(weights, 0.0, known)| == |known|
    ensures InMiddle(s, Median(weights, known))
  {
    hide Sort, NameUpTo, Weight;
  }

  lemma {:induction false} SomeRecorded(weights: map<string, real>, modules: seq<string>)
    ensures Recorded(weights, modules) == [] <==> forall m :: m in modules ==> m !in weights
  {
    if modules != [] {
      SomeRecorded(weights, modules[1..]);
      assert modules == [modules[0]] + modules[1..];
    }
  }

  // ---- the order, and the shards

  function WeightOf(weights: map<string, real>, d: real, name: string): real {
    if name !in weights then d else weights[name]
  }

  /** ORDER. Each module is taken once, the heavier before the lighter, and those of
      one weight by name. */
  lemma OrderSays(weights: map<string, real>, d: real, modules: seq<string>)
    ensures var order := HeaviestFirst(weights, d, modules);
            && NoRepeat(order) && SameNames(modules, order)
            && forall i, j :: 0 <= i < j < |order| ==>
                 var a, b := WeightOf(weights, d, order[i]), WeightOf(weights, d, order[j]);
                 a > b || (a == b && Precedes(order[i], order[j]))
  {
    OrderIsModules(weights, d, modules);
    var order := HeaviestFirst(weights, d, modules);
    forall i, j | 0 <= i < j < |order|
      ensures var a, b := WeightOf(weights, d, order[i]), WeightOf(weights, d, order[j]);
              a > b || (a == b && Precedes(order[i], order[j])) {
      assert Before(weights, d, order[i], order[j]);
      NameOrderIff(order[i], order[j]);
    }
  }

  /** Each shard lists its modules by name. */
  lemma ShardsByName(weights: map<string, real>, d: real, modules: seq<string>, count: nat, k: nat)
    requires k < count
    ensures var shard := Split(weights, d, modules, count)[k];
            forall i, j :: 0 <= i < j < |shard| ==> Precedes(shard[i], shard[j])
  {
    var order := HeaviestFirst(weights, d, modules);
    var p := Greedy(WeightsOf(weights, d, order), count);
    var shard := Shard(order, p, k);
    SortKeeps(map[], 0.0, Members(order, p, k));
    forall i, j | 0 <= i < j < |shard| ensures Precedes(shard[i], shard[j]) {
      assert Before(map[], 0.0, shard[i], shard[j]);
      NameOrderIff(shard[i], shard[j]);
    }
  }
}
