/** Runs of the cache's protocol from an empty start: what they keep, and exactly when they keep it. */
module CacheRaces {
  import opened Options
  import opened Cache

  // ---- what can be reached

  ghost predicate Asks(actions: seq<Action>, requests: iset<Manifest>) {
    forall k :: 0 <= k < |actions| && actions[k].Start? ==> actions[k].want in requests
  }

  /** Steps of runs that ask only for `requests` lead from `s` to `t`. */
  ghost predicate Steps(c: Config, requests: iset<Manifest>, s: State, t: State) {
    exists actions :: Asks(actions, requests) && RunAll(c, s, actions) == Some(t)
  }

  ghost predicate Reached(c: Config, requests: iset<Manifest>, first: map<Name, Dir>, s: State) {
    exists s0 :: Initial(s0, first) && Steps(c, requests, s0, s)
  }

  /** Requests with one entry name are one request. */
  ghost predicate AgreedOn(c: Config, requests: iset<Manifest>) {
    forall a, b :: a in requests && b in requests && NameOf(c, a) == NameOf(c, b) ==> a == b
  }

  // ---- what is promised of every run

  /** What run `p` returned names an entry with the manifest asked for and a
      binary that says it is PeachQ. */
  ghost predicate ReturnedWhole(c: Config, s: State, p: nat)
    requires p in s.procs
  {
    var n := NameOf(c, s.procs[p].want);
    n in s.entries && ValidEntry(s.entries[n], s.procs[p].want)
  }

  ghost predicate KeepsReturned(c: Config, requests: iset<Manifest>) {
    forall first, s, p :: Reached(c, requests, first, s) && p in s.procs && s.procs[p].at == Returned ==>
        ReturnedWhole(c, s, p)
  }

  /** The entry is what is left of one that was there at first, or a whole build
      of something asked for, from the commit asked for. */
  ghost predicate WholeOrOld(c: Config, requests: iset<Manifest>, first: map<Name, Dir>, n: Name, d: Dir) {
    || (n in first && LeftOf(d, first[n]))
    || exists want :: want in requests && NameOf(c, want) == n && ValidEntry(d, want) && BuiltFrom(d, want.commit)
  }

  ghost predicate KeepsWhole(c: Config, requests: iset<Manifest>) {
    forall first, s, n :: Reached(c, requests, first, s) && n in s.entries ==>
        WholeOrOld(c, requests, first, n, s.entries[n])
  }

  ghost predicate PublishesOnce(c: Config, requests: iset<Manifest>) {
    forall first, s, n :: Reached(c, requests, first, s) && n in s.published ==> s.published[n] == 1
  }

  /** The entry is usable by a run that asks for `want`. */
  ghost predicate UsableBy(c: Config, s: State, want: Manifest) {
    NameOf(c, want) in s.entries && ValidEntry(s.entries[NameOf(c, want)], want)
  }

  ghost predicate KeepsUsable(c: Config, requests: iset<Manifest>) {
    forall first, s, want, t ::
      Reached(c, requests, first, s) && want in requests && UsableBy(c, s, want) && Steps(c, requests, s, t) ==>
        NameOf(c, want) in t.entries && t.entries[NameOf(c, want)] == s.entries[NameOf(c, want)]
  }

  // ---- where runs agree

  /** `c` says of each entry name what the requests ask for under it. */
  ghost predicate Answers(c: Config, requests: iset<Manifest>) {
    forall want :: want in requests ==> c.asked(NameOf(c, want)) == want
  }

  ghost function Wanted(c: Config, requests: iset<Manifest>, n: Name): Manifest {
    if exists want :: want in requests && NameOf(c, want) == n then
      var want :| want in requests && NameOf(c, want) == n;
      want
    else Manifest("", "", "", "", map[])
  }

  ghost function Informed(c: Config, requests: iset<Manifest>): Config {
    Config(c.digest, n => Wanted(c, requests, n))
  }

  lemma InformedAnswers(c: Config, requests: iset<Manifest>)
    requires AgreedOn(c, requests)
    ensures Answers(Informed(c, requests), requests)
  {
    var d := Informed(c, requests);
    forall want | want in requests ensures d.asked(NameOf(d, want)) == want {
      assert NameOf(d, want) == NameOf(c, want);
    }
  }

  /** What requests ask for decides no step. */
  lemma SameStep(c: Config, d: Config, s: State, a: Action)
    requires c.digest == d.digest
    ensures Apply(c, s, a) == Apply(d, s, a)
  {
    assert forall m :: NameOf(c, m) == NameOf(d, m);
    hide NameOf, Checked, Acquire, Release, Discarded, Make, Work1, Publish, To, Crashed, Removed, Holds, WorkAt;
  }

  lemma {:induction false} SameRun(c: Config, d: Config, s: State, actions: seq<Action>)
    requires c.digest == d.digest
    ensures RunAll(c, s, actions) == RunAll(d, s, actions)
    decreases |actions|
  {
    hide Apply;
    if actions != [] {
      var before := actions[..|actions| - 1];
      SameRun(c, d, s, before);
      if RunAll(c, s, before).Some? { SameStep(c, d, RunAll(c, s, before).value, actions[|actions| - 1]); }
    }
  }

  lemma StepAsks(c: Config, requests: iset<Manifest>, s: State, a: Action)
    requires Answers(c, requests) && Agreed(c, s) && Apply(c, s, a).Some? && (a.Start? ==> a.want in requests)
    ensures Agreed(c, Apply(c, s, a).value)
  {
    var s' := Apply(c, s, a).value;
    forall p | p in s'.procs
      ensures if a.Start? && p == a.p then s'.procs[p].want == a.want
              else p in s.procs && s'.procs[p].want == s.procs[p].want
    {
      StepWants(c, s, a, p);
    }
  }

  /** A run asks for what it asked for when it started. */
  lemma StepWants(c: Config, s: State, a: Action, p: nat)
    requires Apply(c, s, a).Some? && p in Apply(c, s, a).value.procs
    ensures var s' := Apply(c, s, a).value;
            if a.Start? && p == a.p then s'.procs[p].want == a.want
              else p in s.procs && s'.procs[p].want == s.procs[p].want
  {
    if a.Go? {
      hide NameOf, Go1;
      GoWants(c, s, a.p, p);
    } else {
      hide NameOf, Go1, Holds, WorkAt;
    }
  }

  /** The machine changes run `p`'s place and nothing else of any run. */
  ghost predicate OnlyMoves(s: State, p: nat, t: State)
    requires p in s.procs
  {
    p in t.procs && t.procs == s.procs[p := s.procs[p].(at := t.procs[p].at)]
  }

  lemma OutputMoves(s: State, p: nat)
    requires p in s.procs && (s.procs[p].at.Copying? || s.procs[p].at.Asking? || s.procs[p].at.Noting?)
    ensures Work1(s, p).Some? ==> OnlyMoves(s, p, Work1(s, p).value)
  {
    hide Output;
  }

  lemma PublishMoves(n: Name, s: State, p: nat)
    requires p in s.procs && s.procs[p].at.Publishing?
    ensures Publish(n, s, p).Some? ==> OnlyMoves(s, p, Publish(n, s, p).value)
  {
  }

  lemma LockMoves(n: Name, s: State, p: nat)
    requires p in s.procs
    ensures Acquire(n, s, p).Some? ==> OnlyMoves(s, p, Acquire(n, s, p).value)
    ensures Discarded(n, s, p).Some? ==> OnlyMoves(s, p, Discarded(n, s, p).value)
    ensures OnlyMoves(s, p, Make(n, s, p))
    ensures s.procs[p].at.Unlocking? ==> OnlyMoves(s, p, Release(n, s, p))
  {
  }

  lemma ToMoves(s: State, p: nat, at: Point, works: map<nat, Work>)
    requires p in s.procs
    ensures OnlyMoves(s, p, To(s, p, at)) && OnlyMoves(s, p, To(s, p, at).(works := works))
  {
  }

  lemma GoMoves(c: Config, s: State, p: nat)
    requires p in s.procs && Go1(c, s, p).Some?
    ensures OnlyMoves(s, p, Go1(c, s, p).value)
  {
    var at := s.procs[p].at;
    var n := NameOf(c, s.procs[p].want);
    hide NameOf, Checked, Work1, Publish, Acquire, Discarded, Make, Release, To, OnlyMoves;
    if at.Look? || at.LookRuns? || at.LookAnswer? {
      ToMoves(s, p, Checked(n, s.procs[p], s.entries), s.works);
    } else if at.Sweeping? {
      ToMoves(s, p, Making, s.works);
    } else if at.Tidying? {
      ToMoves(s, p, Unlocking(at.done), s.works - {at.work});
    } else if at.Copying? || at.Asking? || at.Noting? {
      OutputMoves(s, p);
    } else if at.Publishing? {
      PublishMoves(n, s, p);
    } else {
      LockMoves(n, s, p);
    }
  }

  lemma GoWants(c: Config, s: State, p: nat, q: nat)
    requires p in s.procs && Go1(c, s, p).Some? && q in Go1(c, s, p).value.procs
    ensures q in s.procs && Go1(c, s, p).value.procs[q].want == s.procs[q].want
  {
    hide Go1;
    GoMoves(c, s, p);
  }

  lemma {:induction false} RunKeepsInv(c: Config, requests: iset<Manifest>, s0: State, actions: seq<Action>, s: State,
                                       first: map<Name, Dir>)
    requires Answers(c, requests) && Inv(c, s0, first) && Asks(actions, requests) && RunAll(c, s0, actions) == Some(s)
    ensures Inv(c, s, first)
    decreases |actions|
  {
    if actions != [] {
      var before, a := actions[..|actions| - 1], actions[|actions| - 1];
      var mid := RunAll(c, s0, before).value;
      assert Apply(c, mid, a) == Some(s) && Asks(before, requests) && (a.Start? ==> a.want in requests);
      hide Inv, Apply, RunAll, Answers, Asks;
      RunKeepsInv(c, requests, s0, before, mid, first);
      InvAgrees(c, mid, first);
      StepAsks(c, requests, mid, a);
      StepKeepsInv(c, mid, first, a);
    }
  }

  lemma InvAgrees(c: Config, s: State, first: map<Name, Dir>)
    requires Inv(c, s, first)
    ensures Agreed(c, s)
  {
  }

  lemma InitialInv(c: Config, s: State, first: map<Name, Dir>)
    requires Initial(s, first)
    ensures Inv(c, s, first)
  {
  }

  /** Where requests agree, the invariant holds in all that is reached. */
  lemma ReachedInv(c: Config, requests: iset<Manifest>, first: map<Name, Dir>, s: State)
    requires AgreedOn(c, requests) && Reached(c, requests, first, s)
    ensures Answers(Informed(c, requests), requests) && Inv(Informed(c, requests), s, first)
  {
    hide RunAll, Inv, Answers, Asks, Wanted;
    var d := Informed(c, requests);
    var s0 :| Initial(s0, first) && Steps(c, requests, s0, s);
    var actions :| Asks(actions, requests) && RunAll(c, s0, actions) == Some(s);
    InformedAnswers(c, requests);
    SameRun(c, d, s0, actions);
    InitialInv(d, s0, first);
    RunKeepsInv(d, requests, s0, actions, s, first);
  }

  lemma {:induction false} UsableStays(c: Config, requests: iset<Manifest>, s: State, actions: seq<Action>, t: State,
                                       first: map<Name, Dir>, n: Name)
    requires Answers(c, requests) && Inv(c, s, first) && Asks(actions, requests) && RunAll(c, s, actions) == Some(t)
    requires n in s.entries && ValidEntry(s.entries[n], c.asked(n))
    ensures n in t.entries && t.entries[n] == s.entries[n]
    decreases |actions|
  {
    if actions != [] {
      var before, a := actions[..|actions| - 1], actions[|actions| - 1];
      var mid := RunAll(c, s, before).value;
      assert Apply(c, mid, a) == Some(t) && Asks(before, requests);
      hide Inv, Apply, RunAll, Answers, Asks, ValidEntry;
      UsableStays(c, requests, s, before, mid, first, n);
      RunKeepsInv(c, requests, s, before, mid, first);
      ValidEntryStays(c, mid, first, a, n);
    }
  }

  lemma AgreedKeepsReturned(c: Config, requests: iset<Manifest>)
    requires AgreedOn(c, requests)
    ensures KeepsReturned(c, requests)
  {
    hide AgreedOn, Reached, Inv, ReturnedWhole, Answers, Informed;
    forall first, s, p | Reached(c, requests, first, s) && p in s.procs && s.procs[p].at == Returned
      ensures ReturnedWhole(c, s, p)
    {
      ReachedInv(c, requests, first, s);
      InformedDigest(c, requests);
      InvReturned(c, Informed(c, requests), s, first, p);
    }
  }

  lemma InformedDigest(c: Config, requests: iset<Manifest>)
    ensures Informed(c, requests).digest == c.digest
  {
  }

  lemma InvReturned(c: Config, d: Config, s: State, first: map<Name, Dir>, p: nat)
    requires Inv(d, s, first) && p in s.procs && s.procs[p].at == Returned && c.digest == d.digest
    ensures ReturnedWhole(c, s, p)
  {
    hide Inv;
    KnowsOf(d, s, first, p);
  }

  lemma AgreedPublishes(c: Config, requests: iset<Manifest>)
    requires AgreedOn(c, requests)
    ensures PublishesOnce(c, requests)
  {
    forall first, s, n | Reached(c, requests, first, s) && n in s.published ensures s.published[n] == 1 {
      hide AgreedOn, Reached, Answers, Informed;
      ReachedInv(c, requests, first, s);
    }
  }

  lemma AgreedKeepsUsable(c: Config, requests: iset<Manifest>)
    requires AgreedOn(c, requests)
    ensures KeepsUsable(c, requests)
  {
    hide AgreedOn, Reached, Inv, Answers, Informed, RunAll, Asks, ValidEntry;
    forall first, s, want, t | Reached(c, requests, first, s) && want in requests && UsableBy(c, s, want) &&
      Steps(c, requests, s, t)
      ensures NameOf(c, want) in t.entries && t.entries[NameOf(c, want)] == s.entries[NameOf(c, want)]
    {
      var d := Informed(c, requests);
      var actions :| Asks(actions, requests) && RunAll(c, s, actions) == Some(t);
      ReachedInv(c, requests, first, s);
      InformedDigest(c, requests);
      SameRun(c, d, s, actions);
      AnswersOf(d, requests, want);
      assert NameOf(d, want) == NameOf(c, want);
      UsableStays(d, requests, s, actions, t, first, NameOf(c, want));
    }
  }

  lemma AnswersOf(c: Config, requests: iset<Manifest>, want: Manifest)
    requires Answers(c, requests) && want in requests
    ensures c.asked(NameOf(c, want)) == want
  {
  }

  // ---- the witness: two requests with one name

  lemma {:induction false} Chained(c: Config, s: State, actions: seq<Action>, s1: State, more: seq<Action>, s2: State)
    requires RunAll(c, s, actions) == Some(s1) && RunAll(c, s1, more) == Some(s2)
    ensures RunAll(c, s, actions + more) == Some(s2)
    decreases |more|
  {
    hide Apply;
    if more == [] {
      assert actions + more == actions;
    } else {
      var before, a := more[..|more| - 1], more[|more| - 1];
      assert RunAll(c, s1, before).Some?;
      Chained(c, s, actions, s1, before, RunAll(c, s1, before).value);
      assert actions + more == actions + before + [a];
      OneMore(c, s, actions + before, a);
    }
  }

  lemma StepsOn(c: Config, requests: iset<Manifest>, s: State, t: State, u: State)
    requires Steps(c, requests, s, t) && Steps(c, requests, t, u)
    ensures Steps(c, requests, s, u)
  {
    var actions :| Asks(actions, requests) && RunAll(c, s, actions) == Some(t);
    var more :| Asks(more, requests) && RunAll(c, t, more) == Some(u);
    hide RunAll;
    Chained(c, s, actions, t, more, u);
    assert Asks(actions + more, requests);
  }

  lemma Stepped(c: Config, requests: iset<Manifest>, s: State, t: State, a: Action, u: State)
    requires Steps(c, requests, s, t) && Apply(c, t, a) == Some(u) && (a.Start? ==> a.want in requests)
    ensures Steps(c, requests, s, u)
  {
    hide Apply;
    OneMore(c, t, [], a);
    assert [] + [a] == [a];
    assert Asks([a], requests) && RunAll(c, t, [a]) == Some(u);
    hide Steps;
    assert Steps(c, requests, t, u) by { AStep(c, requests, t, [a], u); }
    StepsOn(c, requests, s, t, u);
  }

  lemma AStep(c: Config, requests: iset<Manifest>, s: State, actions: seq<Action>, t: State)
    requires Asks(actions, requests) && RunAll(c, s, actions) == Some(t)
    ensures Steps(c, requests, s, t)
  {
  }

  lemma NoStep(c: Config, requests: iset<Manifest>, s: State)
    ensures Steps(c, requests, s, s)
  {
    AStep(c, requests, s, [], s);
  }

  const EMPTY: State := State(map[], map[], 0, map[], map[], map[])

  /** A whole build of `want`. */
  function Whole(want: Manifest): Dir {
    Dir(Some(Recorded(want, false)), Some(Binary(true, "peachq", want.commit)))
  }

  function Asker(want: Manifest, at: Point): Proc { Proc(want, false, at) }

  lemma MovesTo(s: State, p: nat, me: Proc, at: Point)
    requires p in s.procs && s.procs[p] == me
    ensures To(s, p, at).procs == s.procs[p := me.(at := at)]
  {
  }

  /** A run whose entry does not match comes to hold the lock, about to look again. */
  lemma ComesToLock(c: Config, requests: iset<Manifest>, s0: State, s: State, p: nat, want: Manifest) returns (t: State)
    requires Steps(c, requests, s0, s) && want in requests && p !in s.procs && NameOf(c, want) !in s.locks
    requires NameOf(c, want) in s.entries ==> !Matches(s.entries[NameOf(c, want)], want)
    ensures Steps(c, requests, s0, t)
    ensures t == s.(procs := s.procs[p := Asker(want, Look(true))], locks := s.locks[NameOf(c, want) := p])
  {
    hide Steps, Matches;
    var n := NameOf(c, want);
    var s1 := s.(procs := s.procs[p := Asker(want, Look(false))]);
    Stepped(c, requests, s0, s, Start(p, want, false), s1);
    var s2 := s.(procs := s.procs[p := Asker(want, Waiting)]);
    assert s1.procs[p := Asker(want, Waiting)] == s2.procs;
    assert Apply(c, s1, Go(p)) == Some(s2);
    Stepped(c, requests, s0, s1, Go(p), s2);
    t := s.(procs := s.procs[p := Asker(want, Look(true))], locks := s.locks[n := p]);
    assert s2.procs[p := Asker(want, Look(true))] == t.procs;
    assert Apply(c, s2, Go(p)) == Some(t);
    Stepped(c, requests, s0, s2, Go(p), t);
  }

  /** Where run `p` goes to by itself, its entry's lock and everything else staying as they are. */
  lemma Goes(c: Config, requests: iset<Manifest>, s0: State, s: State, p: nat, at: Point) returns (t: State)
    requires Steps(c, requests, s0, s) && p in s.procs && Go1(c, s, p) == Some(To(s, p, at))
    ensures Steps(c, requests, s0, t) && t == s.(procs := s.procs[p := s.procs[p].(at := at)])
  {
    hide Steps, Go1;
    t := To(s, p, at);
    Stepped(c, requests, s0, s, Go(p), t);
  }

  /** Inside the lock it looks again, finds no match, and discards what is there, manifest first. */
  lemma Discards(c: Config, requests: iset<Manifest>, s0: State, s: State, p: nat, want: Manifest) returns (half: State,
                 t: State)
    requires Steps(c, requests, s0, s) && p in s.procs && s.procs[p] == Asker(want, Look(true))
    requires NameOf(c, want) in s.entries && !Matches(s.entries[NameOf(c, want)], want)
    ensures var n := NameOf(c, want);
            && Steps(c, requests, s0, half) && Steps(c, requests, s, half) && Steps(c, requests, s0, t)
            && half == s.(procs := half.procs, entries := s.entries[n := s.entries[n].(manifest := None)])
            && t == s.(procs := half.procs, entries := s.entries[n := Dir(None, None)])
            && half.procs == s.procs[p := Asker(want, Discarding)]
  {
    hide Steps, Matches;
    var n := NameOf(c, want);
    NoStep(c, requests, s);
    var s1 := Goes(c, requests, s, s, p, Discarding);
    half := s1.(entries := s.entries[n := s.entries[n].(manifest := None)]);
    Stepped(c, requests, s, s1, RemoveFile(p, true), half);
    StepsOn(c, requests, s0, s, half);
    t := s1.(entries := s.entries[n := Dir(None, None)]);
    assert half.entries[n := Dir(None, None)] == t.entries;
    Stepped(c, requests, s0, half, RemoveFile(p, false), t);
  }

  /** From discarding it comes to its own build directory, and copies a binary of the commit asked for. */
  lemma Prepares(c: Config, requests: iset<Manifest>, s0: State, s: State, p: nat, want: Manifest) returns (t: State)
    requires Steps(c, requests, s0, s) && p in s.procs && s.procs[p] == Asker(want, Discarding)
    requires NameOf(c, want) in s.entries ==> s.entries[NameOf(c, want)] == Dir(None, None)
    ensures var n := NameOf(c, want);
            && Steps(c, requests, s0, t)
            && t == State(s.entries - {n}, s.works[s.next := Work(n, None)], s.next + 1, s.locks,
                          s.procs[p := Asker(want, Building(s.next))], s.published)
  {
    hide Steps;
    var n := NameOf(c, want);
    var s1 := s.(entries := s.entries - {n}, procs := s.procs[p := Asker(want, Sweeping)]);
    Stepped(c, requests, s0, s, Go(p), s1);
    var s2 := Goes(c, requests, s0, s1, p, Making);
    var s3 := Make(n, s2, p);
    Stepped(c, requests, s0, s2, Go(p), s3);
    t := To(s3, p, Building(s.next));
    Stepped(c, requests, s0, s3, Fetched(p, want.commit), t);
    assert t.procs == s.procs[p := Asker(want, Building(s.next))];
  }

  /** It builds, asks the binary what it is, and writes the manifest. */
  lemma Finishes(c: Config, requests: iset<Manifest>, s0: State, s: State, p: nat, want: Manifest,
                 w: nat) returns (t: State)
    requires Steps(c, requests, s0, s) && p in s.procs && s.procs[p] == Asker(want, Building(w))
    requires w in s.works && s.works[w] == Work(NameOf(c, want), None)
    ensures Steps(c, requests, s0, t)
    ensures t == s.(procs := s.procs[p := Asker(want, Publishing(w))],
                    works := s.works[w := Work(NameOf(c, want), Some(Whole(want)))])
  {
    hide Steps;
    var n := NameOf(c, want);
    var b := Binary(true, "peachq", want.commit);
    var s1 := To(s, p, Copying(w, b));
    Stepped(c, requests, s0, s, Built(p, b), s1);
    var s2 := s.(procs := s.procs[p := Asker(want, Point.Asking(w))],
                 works := s.works[w := Work(n, Some(Dir(None, Some(b))))]);
    assert s1.procs[p := Asker(want, Point.Asking(w))] == s2.procs;
    Stepped(c, requests, s0, s1, Go(p), s2);
    var s3 := s2.(procs := s.procs[p := Asker(want, Noting(w))]);
    assert s2.procs[p := Asker(want, Noting(w))] == s3.procs && s2.works[w := s2.works[w]] == s2.works;
    Stepped(c, requests, s0, s2, Go(p), s3);
    t := s.(procs := s.procs[p := Asker(want, Publishing(w))], works := s.works[w := Work(n, Some(Whole(want)))]);
    assert s3.procs[p := Asker(want, Publishing(w))] == t.procs && s3.works[w := Work(n, Some(Whole(want)))] == t.works;
    Stepped(c, requests, s0, s3, Go(p), t);
  }

  /** It publishes, tidies up, unlocks and returns. */
  lemma Publishes(c: Config, requests: iset<Manifest>, s0: State, s: State, p: nat, want: Manifest,
                  w: nat) returns (t: State)
    requires Steps(c, requests, s0, s) && p in s.procs && s.procs[p] == Asker(want, Publishing(w))
    requires w in s.works && s.works[w] == Work(NameOf(c, want), Some(Whole(want))) && NameOf(c, want) !in s.entries
    ensures var n := NameOf(c, want);
            && Steps(c, requests, s0, t)
            && t.procs == s.procs[p := Asker(want, Returned)] && t.locks == s.locks - {n}
            && t.entries == s.entries[n := Whole(want)]
            && t.published == s.published[n := 1 + if n in s.published then s.published[n] else 0]
  {
    hide Steps;
    var n := NameOf(c, want);
    var s1 := Publish(n, s, p).value;
    Stepped(c, requests, s0, s, Go(p), s1);
    var s2 := To(s1, p, Unlocking(true)).(works := s1.works - {w});
    Stepped(c, requests, s0, s1, Go(p), s2);
    t := Release(n, s2, p);
    Stepped(c, requests, s0, s2, Go(p), t);
    assert t.procs == s.procs[p := Asker(want, Returned)];
  }

  /** From discarding what is left of an entry, a run whose fetch and build succeed publishes its own and returns. */
  lemma BuildsAnew(c: Config, requests: iset<Manifest>, s0: State, s: State, p: nat, want: Manifest) returns (t: State)
    requires Steps(c, requests, s0, s) && p in s.procs && s.procs[p] == Asker(want, Discarding)
    requires NameOf(c, want) in s.entries ==> s.entries[NameOf(c, want)] == Dir(None, None)
    ensures var n := NameOf(c, want);
            && Steps(c, requests, s0, t)
            && t.procs == s.procs[p := Asker(want, Returned)] && t.locks == s.locks - {n}
            && t.entries == s.entries[n := Whole(want)]
            && t.published == s.published[n := 1 + if n in s.published then s.published[n] else 0]
  {
    hide Steps;
    var s1 := Prepares(c, requests, s0, s, p, want);
    var s2 := Finishes(c, requests, s0, s1, p, want, s.next);
    t := Publishes(c, requests, s0, s2, p, want, s.next);
    assert t.entries == s.entries[NameOf(c, want) := Whole(want)];
    assert t.procs == s.procs[p := Asker(want, Returned)];
  }

  /** A run's first build, where there is nothing yet. */
  lemma BuildsFirst(c: Config, requests: iset<Manifest>, want: Manifest) returns (t: State)
    requires want in requests
    ensures var n := NameOf(c, want);
            && Steps(c, requests, EMPTY, t)
            && t.procs == map[0 := Asker(want, Returned)] && t.locks == map[]
            && t.entries == map[n := Whole(want)] && t.published == map[n := 1]
  {
    hide Steps, NameOf;
    var n := NameOf(c, want);
    NoStep(c, requests, EMPTY);
    var s1 := ComesToLock(c, requests, EMPTY, EMPTY, 0, want);
    assert Go1(c, s1, 0) == Some(To(s1, 0, Discarding));
    var s2 := Goes(c, requests, EMPTY, s1, 0, Discarding);
    t := BuildsAnew(c, requests, EMPTY, s2, 0, want);
    assert t.procs == map[0 := Asker(want, Returned)];
    assert t.locks == map[];
  }

  /** WHERE TWO REQUESTS SHARE A NAME. One run builds, publishes and returns; a
      second, asking for the other under the same name, finds no match, starts
      removing what the first returned, and in the end publishes there again. */
  lemma OthersEntryIsDiscarded(c: Config, requests: iset<Manifest>, a: Manifest, b: Manifest)
    returns (built: State, half: State, again: State)
    requires a in requests && b in requests && NameOf(c, a) == NameOf(c, b) && a != b
    ensures Steps(c, requests, EMPTY, built) && Steps(c, requests, built, half) && Steps(c, requests, EMPTY, half)
    ensures Steps(c, requests, EMPTY, again)
    ensures var n := NameOf(c, a);
            && 0 in built.procs && built.procs[0] == Asker(a, Returned) && n in built.entries &&
              built.entries[n] == Whole(a)
            && 0 in half.procs && half.procs[0] == Asker(a, Returned) && n in half.entries &&
              half.entries[n].manifest.None?
            && n in again.published && again.published[n] == 2
  {
    hide Steps, NameOf;
    var n := NameOf(c, a);
    built := BuildsFirst(c, requests, a);
    NoStep(c, requests, built);
    var s1 := ComesToLock(c, requests, built, built, 1, b);
    var h, s2 := Discards(c, requests, built, s1, 1, b);
    half := h;
    StepsOn(c, requests, EMPTY, built, half);
    again := BuildsAnew(c, requests, built, s2, 1, b);
    StepsOn(c, requests, EMPTY, built, again);
  }

  // ---- exactly when each promise is kept

  lemma FromEmpty(c: Config, requests: iset<Manifest>, s: State)
    requires Steps(c, requests, EMPTY, s)
    ensures Reached(c, requests, map[], s)
  {
    hide Steps;
    assert Initial(EMPTY, map[]);
  }

  /** Whatever runs beside it and whatever crashes, the path a run returned names
      an entry with the manifest it asked for and a binary that says it is
      PeachQ, now and from then on - if and only if no two requests share a name. */
  lemma ReturnedIsWhole(c: Config, requests: iset<Manifest>)
    ensures KeepsReturned(c, requests) <==> AgreedOn(c, requests)
  {
    if AgreedOn(c, requests) {
      AgreedKeepsReturned(c, requests);
    } else {
      var a, b :| a in requests && b in requests && NameOf(c, a) == NameOf(c, b) && a != b;
      var built, half, again := OthersEntryIsDiscarded(c, requests, a, b);
      FromEmpty(c, requests, half);
      hide Reached, Steps, AgreedOn;
      assert !ReturnedWhole(c, half, 0);
    }
  }

  /** However many runs race for one entry, it is published at most once, if and
      only if no two requests share a name. */
  lemma PublishedOnce(c: Config, requests: iset<Manifest>)
    ensures PublishesOnce(c, requests) <==> AgreedOn(c, requests)
  {
    if AgreedOn(c, requests) {
      AgreedPublishes(c, requests);
    } else {
      var a, b :| a in requests && b in requests && NameOf(c, a) == NameOf(c, b) && a != b;
      var built, half, again := OthersEntryIsDiscarded(c, requests, a, b);
      FromEmpty(c, requests, again);
      hide Reached, Steps, AgreedOn;
      assert again.published[NameOf(c, a)] == 2;
    }
  }

  /** A usable entry is never discarded, changed or published again, if and only
      if no two requests share a name. */
  lemma ValidEntryStaysForGood(c: Config, requests: iset<Manifest>)
    ensures KeepsUsable(c, requests) <==> AgreedOn(c, requests)
  {
    if AgreedOn(c, requests) {
      AgreedKeepsUsable(c, requests);
    } else {
      var a, b :| a in requests && b in requests && NameOf(c, a) == NameOf(c, b) && a != b;
      var built, half, again := OthersEntryIsDiscarded(c, requests, a, b);
      FromEmpty(c, requests, built);
      hide Reached, Steps, AgreedOn;
      assert UsableBy(c, built, a);
    }
  }

  // ---- what is published was asked for

  /** Every run asks for, and every entry published is named by, something of `requests`. */
  ghost predicate AskedFor(c: Config, requests: iset<Manifest>, s: State) {
    && (forall p :: p in s.procs ==> s.procs[p].want in requests)
    && (forall n :: n in s.published ==> exists want :: want in requests && NameOf(c, want) == n)
  }

  lemma GoPublishes(c: Config, s: State, p: nat)
    requires p in s.procs && Go1(c, s, p).Some?
    ensures forall n :: n in Go1(c, s, p).value.published ==> n in s.published || n == NameOf(c, s.procs[p].want)
  {
    hide NameOf, Checked, Output, Holds, WorkAt;
  }

  lemma StepPublishes(c: Config, s: State, a: Action)
    requires Apply(c, s, a).Some?
    ensures forall n :: n in Apply(c, s, a).value.published ==>
              n in s.published || (a.p in s.procs && n == NameOf(c, s.procs[a.p].want))
  {
    if a.Go? { GoPublishes(c, s, a.p); }
    hide NameOf, Go1, Holds, WorkAt;
  }

  lemma StepAskedFor(c: Config, requests: iset<Manifest>, s: State, a: Action)
    requires AskedFor(c, requests, s) && Apply(c, s, a).Some? && (a.Start? ==> a.want in requests)
    ensures AskedFor(c, requests, Apply(c, s, a).value)
  {
    hide Apply, NameOf;
    var s' := Apply(c, s, a).value;
    StepPublishes(c, s, a);
    forall p | p in s'.procs ensures s'.procs[p].want in requests { StepWants(c, s, a, p); }
  }

  lemma {:induction false} RunAskedFor(c: Config, requests: iset<Manifest>, s0: State, actions: seq<Action>, s: State)
    requires AskedFor(c, requests, s0) && Asks(actions, requests) && RunAll(c, s0, actions) == Some(s)
    ensures AskedFor(c, requests, s)
    decreases |actions|
  {
    if actions != [] {
      var before, a := actions[..|actions| - 1], actions[|actions| - 1];
      var mid := RunAll(c, s0, before).value;
      assert Apply(c, mid, a) == Some(s) && Asks(before, requests) && (a.Start? ==> a.want in requests);
      hide Apply, RunAll, AskedFor, Asks;
      RunAskedFor(c, requests, s0, before, mid);
      StepAskedFor(c, requests, mid, a);
    }
  }

  lemma ReachedAskedFor(c: Config, requests: iset<Manifest>, first: map<Name, Dir>, s: State)
    requires Reached(c, requests, first, s)
    ensures AskedFor(c, requests, s)
  {
    var s0 :| Initial(s0, first) && Steps(c, requests, s0, s);
    var actions :| Asks(actions, requests) && RunAll(c, s0, actions) == Some(s);
    hide RunAll, Asks, Steps;
    RunAskedFor(c, requests, s0, actions, s);
  }

  lemma InvWhole(c: Config, requests: iset<Manifest>, d: Config, s: State, first: map<Name, Dir>, n: Name)
    requires Answers(d, requests) && c.digest == d.digest && Inv(d, s, first) && AskedFor(c, requests, s)
    requires n in s.entries
    ensures WholeOrOld(c, requests, first, n, s.entries[n])
  {
    hide Agreed, Locked, Knowing, Fresh;
    if n in s.published {
      var want :| want in requests && NameOf(c, want) == n;
      AnswersOf(d, requests, want);
      assert NameOf(d, want) == n;
    }
  }

  /** No published build is found half discarded: an entry that was not there at
      first is a whole build of something asked for, from the commit asked for, if
      and only if no two requests share a name. */
  lemma BuildsStayWhole(c: Config, requests: iset<Manifest>)
    ensures KeepsWhole(c, requests) <==> AgreedOn(c, requests)
  {
    if AgreedOn(c, requests) {
      hide AgreedOn, Reached, Inv, Answers, Informed, WholeOrOld, AskedFor;
      forall first, s, n | Reached(c, requests, first, s) && n in s.entries
        ensures WholeOrOld(c, requests, first, n, s.entries[n])
      {
        ReachedInv(c, requests, first, s);
        ReachedAskedFor(c, requests, first, s);
        InformedDigest(c, requests);
        InvWhole(c, requests, Informed(c, requests), s, first, n);
      }
    } else {
      var a, b :| a in requests && b in requests && NameOf(c, a) == NameOf(c, b) && a != b;
      var built, half, again := OthersEntryIsDiscarded(c, requests, a, b);
      FromEmpty(c, requests, half);
      hide Reached, Steps, AgreedOn;
      assert !WholeOrOld(c, requests, map[], NameOf(c, a), half.entries[NameOf(c, a)]);
    }
  }
}
