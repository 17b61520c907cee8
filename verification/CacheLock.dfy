/** What the lock keeps by itself, whatever runs ask for: one run at a time
    inside an entry, nobody's build directory touched by another run, and
    nothing published but whole builds. */
module CacheLock {
  import opened Options
  import opened Cache
  import opened CacheRaces

  // ---- what every step keeps

  /** A run inside its entry's lock knows what it has found and built there. */
  ghost predicate Inside(c: Config, s: State) {
    forall p :: p in s.procs && Holds(s.procs[p].at) ==>
      Knows(NameOf(c, s.procs[p].want), s.procs[p], s.entries, s.works)
  }

  ghost predicate Held(c: Config, s: State) {
    Locked(c, s) && Fresh(s) && Inside(c, s)
  }

  /** Other entries, and build directories of other entries, stay as they are. */
  ghost predicate LeavesOthers(n: Name, s: State, t: State) {
    && (forall k :: k != n ==>
          (k in t.entries <==> k in s.entries) && (k in t.entries ==> t.entries[k] == s.entries[k]))
    && (forall w :: w in s.works && s.works[w].name != n ==> w in t.works && t.works[w] == s.works[w])
  }

  ghost predicate Touches(c: Config, s: State, p: nat, t: State) {
    || (t.entries == s.entries && t.works == s.works)
    || (p in s.procs && Holds(s.procs[p].at) && LeavesOthers(NameOf(c, s.procs[p].want), s, t))
  }

  lemma ElsewhereKnows(n: Name, k: Name, me: Proc, s: State, t: State)
    requires LeavesOthers(n, s, t) && k != n && Knows(k, me, s.entries, s.works)
    ensures Knows(k, me, t.entries, t.works)
  {
  }

  lemma InsideKnows(c: Config, s: State, p: nat)
    requires Held(c, s) && p in s.procs && Holds(s.procs[p].at)
    ensures KnowsEntry(NameOf(c, s.procs[p].want), s.procs[p], s.entries)
    ensures KnowsWork(NameOf(c, s.procs[p].want), s.procs[p], s.works)
  {
    hide Holds, KnowsEntry, KnowsWork, Locked, Fresh, NameOf;
    assert Knows(NameOf(c, s.procs[p].want), s.procs[p], s.entries, s.works);
  }

  /** What other runs know inside their locks survives a step of `p`. */
  lemma OtherKnows(c: Config, s: State, p: nat, t: State, q: nat)
    requires Held(c, s) && Touches(c, s, p, t) && q in s.procs && q != p && Holds(s.procs[q].at)
    ensures Knows(NameOf(c, s.procs[q].want), s.procs[q], t.entries, t.works)
  {
    hide Holds, Knows, LeavesOthers, NameOf, Fresh;
    if !(t.entries == s.entries && t.works == s.works) {
      if NameOf(c, s.procs[p].want) == NameOf(c, s.procs[q].want) { OneInside(c, s, p, q); }
      ElsewhereKnows(NameOf(c, s.procs[p].want), NameOf(c, s.procs[q].want), s.procs[q], s, t);
    }
  }

  /** The step of `p` leaves every other run where it is. */
  ghost predicate OnlyRuns(s: State, p: nat, t: State) {
    forall q :: q in t.procs && q != p ==> q in s.procs && t.procs[q] == s.procs[q]
  }

  lemma HeldAfter(c: Config, s: State, p: nat, t: State)
    requires Held(c, s) && Touches(c, s, p, t) && OnlyRuns(s, p, t) && Locked(c, t) && Fresh(t)
    requires p in t.procs && Holds(t.procs[p].at) ==>
               Knows(NameOf(c, t.procs[p].want), t.procs[p], t.entries, t.works)
    ensures Held(c, t)
  {
    hide Holds, Knows, NameOf, Touches, Locked, Fresh;
    forall q | q in t.procs && Holds(t.procs[q].at)
      ensures Knows(NameOf(c, t.procs[q].want), t.procs[q], t.entries, t.works)
    {
      if q != p {
        hide Held;
        OtherKnows(c, s, p, t, q);
      }
    }
  }

  /** A run that stays inside its lock, or outside, leaves the locks right. */
  lemma MovesLocked(c: Config, s: State, p: nat, t: State)
    requires Locked(c, s) && p in s.procs && OnlyMoves(s, p, t) && t.locks == s.locks
    requires Holds(t.procs[p].at) == Holds(s.procs[p].at)
    ensures Locked(c, t) && OnlyRuns(s, p, t)
  {
    hide Holds, NameOf;
  }

  lemma HeldParts(c: Config, s: State)
    requires Held(c, s)
    ensures Locked(c, s) && Fresh(s)
  {
    hide Locked, Fresh, Inside;
  }

  /** A run inside its lock moves on. */
  lemma InsideMoves(c: Config, s: State, p: nat, t: State)
    requires Held(c, s) && p in s.procs && Holds(s.procs[p].at) && OnlyMoves(s, p, t) && Holds(t.procs[p].at)
    requires t.locks == s.locks && Fresh(t) && LeavesOthers(NameOf(c, s.procs[p].want), s, t)
    requires Knows(NameOf(c, s.procs[p].want), t.procs[p], t.entries, t.works)
    ensures Held(c, t) && Touches(c, s, p, t)
  {
    assert p in t.procs && t.procs[p].want == s.procs[p].want;
    assert Touches(c, s, p, t);
    hide *;
    HeldParts(c, s);
    MovesLocked(c, s, p, t);
    HeldAfter(c, s, p, t);
  }

  /** A run outside the lock moves on, and stays outside. */
  lemma OutsideMoves(c: Config, s: State, p: nat, at: Point)
    requires Held(c, s) && p in s.procs && !Holds(s.procs[p].at) && !Holds(at)
    ensures Held(c, To(s, p, at)) && Touches(c, s, p, To(s, p, at))
  {
    var t := To(s, p, at);
    assert OnlyMoves(s, p, t) && Touches(c, s, p, t) && (Fresh(s) ==> Fresh(t)) && t.locks == s.locks;
    assert t.procs[p].at == at;
    hide *;
    HeldParts(c, s);
    MovesLocked(c, s, p, t);
    HeldAfter(c, s, p, t);
  }

  // ---- one step, kind by kind

  lemma CheckedOutside(n: Name, me: Proc, entries: map<Name, Dir>)
    requires (me.at.Look? || me.at.LookRuns? || me.at.LookAnswer?) && !Holds(me.at)
    ensures !Holds(Checked(n, me, entries))
  {
  }

  lemma MovedTo(s: State, p: nat, at: Point)
    requires p in s.procs
    ensures var t := To(s, p, at);
            && OnlyMoves(s, p, t) && t.procs[p] == s.procs[p].(at := at)
            && t.locks == s.locks && t.entries == s.entries && t.works == s.works && t.next == s.next
  {
  }

  lemma NothingTouched(n: Name, s: State, t: State)
    requires t.entries == s.entries && t.works == s.works && t.next == s.next
    ensures LeavesOthers(n, s, t) && (Fresh(s) ==> Fresh(t))
  {
  }

  /** A run inside its lock goes on and changes nothing. */
  lemma PlainMoves(c: Config, s: State, p: nat, at: Point)
    requires Held(c, s) && p in s.procs && Holds(s.procs[p].at) && Holds(at)
    requires Knows(NameOf(c, s.procs[p].want), s.procs[p].(at := at), s.entries, s.works)
    ensures Held(c, To(s, p, at)) && Touches(c, s, p, To(s, p, at))
  {
    hide *;
    HeldParts(c, s);
    MovedTo(s, p, at);
    NothingTouched(NameOf(c, s.procs[p].want), s, To(s, p, at));
    InsideMoves(c, s, p, To(s, p, at));
  }

  lemma LookKeepsHeld(c: Config, s: State, p: nat)
    requires Held(c, s) && p in s.procs
    requires s.procs[p].at.Look? || s.procs[p].at.LookRuns? || s.procs[p].at.LookAnswer?
    ensures var t := To(s, p, Checked(NameOf(c, s.procs[p].want), s.procs[p], s.entries));
            Held(c, t) && Touches(c, s, p, t)
  {
    hide *;
    var n := NameOf(c, s.procs[p].want);
    if Holds(s.procs[p].at) {
      InsideKnows(c, s, p);
      CheckedKnows(n, s.procs[p], s.entries, s.works);
      PlainMoves(c, s, p, Checked(n, s.procs[p], s.entries));
    } else {
      CheckedOutside(n, s.procs[p], s.entries);
      OutsideMoves(c, s, p, Checked(n, s.procs[p], s.entries));
    }
  }

  lemma WaitingKnows(n: Name, me: Proc, entries: map<Name, Dir>)
    requires me.at == Waiting
    ensures KnowsEntry(n, me, entries)
  {
  }

  lemma AcquireKeepsHeld(c: Config, s: State, p: nat)
    requires Held(c, s) && p in s.procs && s.procs[p].at == Waiting
    requires Acquire(NameOf(c, s.procs[p].want), s, p).Some?
    ensures var t := Acquire(NameOf(c, s.procs[p].want), s, p).value; Held(c, t) && Touches(c, s, p, t)
  {
    var n := NameOf(c, s.procs[p].want);
    var t := Acquire(n, s, p).value;
    hide Held, Locked, Fresh, Knows, KnowsEntry, KnowsWork, Holds, NameOf, LeavesOthers;
    HeldParts(c, s);
    NothingTouched(n, s, t);
    WaitingKnows(n, s.procs[p], s.entries);
    AtLock(n, s.procs[p], s.entries, s.works);
    AcquireLocked(c, s, t, p);
    HeldAfter(c, s, p, t);
  }

  lemma ReleaseKeepsHeld(c: Config, s: State, p: nat)
    requires Held(c, s) && p in s.procs && s.procs[p].at.Unlocking?
    ensures var t := Release(NameOf(c, s.procs[p].want), s, p); Held(c, t) && Touches(c, s, p, t)
  {
    var n := NameOf(c, s.procs[p].want);
    var t := Release(n, s, p);
    hide Held, Locked, Fresh, Knows, KnowsEntry, KnowsWork, Holds, NameOf, LeavesOthers;
    HeldParts(c, s);
    NothingTouched(n, s, t);
    UnlockingHolds(s.procs[p].at);
    ReleaseLocked(c, s, t, p, t.procs[p].at);
    HeldAfter(c, s, p, t);
  }

  lemma UnlockingHolds(at: Point)
    ensures at.Unlocking? ==> Holds(at)
    ensures !Holds(Returned) && !Holds(Failed) && !Holds(Look(false))
  {
  }

  lemma CrashKeepsHeld(c: Config, s: State, p: nat)
    requires Held(c, s) && p in s.procs
    ensures Held(c, Crashed(s, p)) && Touches(c, s, p, Crashed(s, p))
  {
    var t := Crashed(s, p);
    hide Knows, Holds, NameOf, LeavesOthers, Inside;
    assert OnlyRuns(s, p, t) && p !in t.procs;
    assert Locked(c, t);
    HeldAfter(c, s, p, t);
  }

  lemma StartKeepsHeld(c: Config, s: State, p: nat, want: Manifest, unpinned: bool)
    requires Held(c, s) && p !in s.procs
    ensures var t := s.(procs := s.procs[p := Proc(want, unpinned, Look(false))]); Held(c, t) && Touches(c, s, p, t)
  {
    var me := Proc(want, unpinned, Look(false));
    var t := s.(procs := s.procs[p := me]);
    hide Held, Locked, Fresh, Knows, Holds, NameOf, LeavesOthers;
    HeldParts(c, s);
    NothingTouched(NameOf(c, want), s, t);
    UnlockingHolds(Look(false));
    StartLocked(c, s, t, p, me);
    HeldAfter(c, s, p, t);
  }

  // ---- steps that change an entry

  lemma EntryTouched(n: Name, s: State, t: State)
    requires forall k :: k != n ==>
               (k in t.entries <==> k in s.entries) && (k in t.entries ==> t.entries[k] == s.entries[k])
    requires t.works == s.works && t.next == s.next
    ensures LeavesOthers(n, s, t) && (Fresh(s) ==> Fresh(t))
  {
  }

  lemma RemoveKeepsHeld(c: Config, s: State, p: nat, manifest: bool)
    requires Held(c, s) && p in s.procs && s.procs[p].at == Discarding && NameOf(c, s.procs[p].want) in s.entries
    ensures var t := Removed(s, NameOf(c, s.procs[p].want), manifest); Held(c, t) && Touches(c, s, p, t)
  {
    var n := NameOf(c, s.procs[p].want);
    var t := Removed(s, n, manifest);
    hide Held, Fresh, Knows, KnowsEntry, KnowsWork, Holds, NameOf, LeavesOthers, Remaining, Unusable, LeftOf;
    hide ValidEntry;
    DiscardingHolds(s.procs[p].at);
    HeldParts(c, s);
    InsideKnows(c, s, p);
    RemainingKnows(n, s.procs[p], s.entries, s.works, manifest);
    EntryTouched(n, s, t);
    assert s.procs[p := s.procs[p]] == s.procs;
    InsideMoves(c, s, p, t);
  }

  lemma DiscardingHolds(at: Point)
    ensures at == Discarding || at == Sweeping || at == Making || at.Publishing? ==> Holds(at)
  {
  }

  lemma DiscardedKeepsHeld(c: Config, s: State, p: nat)
    requires Held(c, s) && p in s.procs && s.procs[p].at == Discarding
    requires Discarded(NameOf(c, s.procs[p].want), s, p).Some?
    ensures var t := Discarded(NameOf(c, s.procs[p].want), s, p).value; Held(c, t) && Touches(c, s, p, t)
  {
    var n := NameOf(c, s.procs[p].want);
    var t := Discarded(n, s, p).value;
    hide Held, Fresh, Knows, KnowsEntry, KnowsWork, Holds, NameOf, LeavesOthers, Unusable, ValidEntry;
    DiscardingHolds(s.procs[p].at);
    HeldParts(c, s);
    InsideKnows(c, s, p);
    DiscardedKnows(n, s.procs[p], s.entries, s.works);
    EntryTouched(n, s, t);
    InsideMoves(c, s, p, t);
  }

  // ---- steps that change a build directory

  lemma WorkTouched(n: Name, s: State, t: State, w: nat)
    requires Fresh(s) && t.entries == s.entries && t.next == s.next && (w in s.works ==> s.works[w].name == n)
    requires forall v :: v != w ==> (v in t.works <==> v in s.works) && (v in t.works ==> t.works[v] == s.works[v])
    requires w in t.works ==> w in s.works
    ensures LeavesOthers(n, s, t) && Fresh(t)
  {
  }

  lemma OutputKeepsHeld(c: Config, s: State, p: nat)
    requires Held(c, s) && p in s.procs && (s.procs[p].at.Copying? || s.procs[p].at.Asking? || s.procs[p].at.Noting?)
    requires Work1(s, p).Some?
    ensures Held(c, Work1(s, p).value) && Touches(c, s, p, Work1(s, p).value)
  {
    var n := NameOf(c, s.procs[p].want);
    var t := Work1(s, p).value;
    var w := s.procs[p].at.work;
    hide Held, Fresh, Knows, KnowsEntry, KnowsWork, Holds, WorkAt, NameOf, LeavesOthers, Output;
    HeldParts(c, s);
    BuildsHold(s.procs[p].at);
    InsideKnows(c, s, p);
    OutputKnows(n, s.procs[p], s.entries, s.works);
    WorkTouched(n, s, t, w);
    InsideMoves(c, s, p, t);
  }

  lemma BuildsHold(at: Point)
    ensures at.Fetching? || at.Building? || at.Copying? || at.Asking? || at.Noting? || at.Tidying? ==> Holds(at)
  {
  }

  lemma TidyKeepsHeld(c: Config, s: State, p: nat)
    requires Held(c, s) && p in s.procs && s.procs[p].at.Tidying?
    ensures var t := To(s, p, Unlocking(s.procs[p].at.done)).(works := s.works - {s.procs[p].at.work});
            Held(c, t) && Touches(c, s, p, t)
  {
    var n := NameOf(c, s.procs[p].want);
    var w := s.procs[p].at.work;
    var t := To(s, p, Unlocking(s.procs[p].at.done)).(works := s.works - {w});
    hide Held, Fresh, Knows, KnowsEntry, KnowsWork, Holds, WorkAt, NameOf, LeavesOthers;
    HeldParts(c, s);
    BuildsHold(s.procs[p].at);
    InsideKnows(c, s, p);
    TidiedKnows(n, s.procs[p], s.entries, s.works);
    WorkNamed(n, s.procs[p], s.works);
    WorkTouched(n, s, t, w);
    InsideMoves(c, s, p, t);
  }

  lemma WorkNamed(n: Name, me: Proc, works: map<nat, Work>)
    requires KnowsWork(n, me, works) && WorkAt(me.at).Some?
    ensures WorkAt(me.at).value in works && works[WorkAt(me.at).value].name == n
  {
  }

  lemma MakeKeepsHeld(c: Config, s: State, p: nat)
    requires Held(c, s) && p in s.procs && s.procs[p].at == Making
    ensures var t := Make(NameOf(c, s.procs[p].want), s, p); Held(c, t) && Touches(c, s, p, t)
  {
    var n := NameOf(c, s.procs[p].want);
    var t := Make(n, s, p);
    hide Held, Knows, KnowsEntry, KnowsWork, Holds, NameOf;
    HeldParts(c, s);
    DiscardingHolds(s.procs[p].at);
    InsideKnows(c, s, p);
    MadeKnows(n, s.procs[p], s.entries, s.works, s.next);
    assert Fresh(t) && LeavesOthers(n, s, t) && OnlyMoves(s, p, t);
    hide Fresh, LeavesOthers;
    InsideMoves(c, s, p, t);
  }

  lemma MadeKnows(n: Name, me: Proc, entries: map<Name, Dir>, works: map<nat, Work>, w: nat)
    requires KnowsEntry(n, me, entries) && me.at == Making
    ensures Knows(n, me.(at := Fetching(w)), entries, works[w := Work(n, None)]) && Holds(Fetching(w))
  {
  }

  lemma SweepKeepsHeld(c: Config, s: State, p: nat, w: nat)
    requires Held(c, s) && Apply(c, s, Sweep(p, w)).Some?
    ensures var t := Apply(c, s, Sweep(p, w)).value; Held(c, t) && Touches(c, s, p, t)
  {
    var n := NameOf(c, s.procs[p].want);
    var t := s.(works := s.works - {w});
    assert p in s.procs && s.procs[p].at == Sweeping && w in s.works && s.works[w].name == n;
    assert Apply(c, s, Sweep(p, w)) == Some(t);
    hide Held, Fresh, Knows, KnowsEntry, KnowsWork, Holds, NameOf, LeavesOthers, Apply;
    HeldParts(c, s);
    DiscardingHolds(s.procs[p].at);
    InsideKnows(c, s, p);
    SweepingKnows(n, s.procs[p], s.entries, s.works - {w});
    WorkTouched(n, s, t, w);
    assert s.procs[p := s.procs[p]] == s.procs;
    InsideMoves(c, s, p, t);
  }

  lemma SweepingKnows(n: Name, me: Proc, entries: map<Name, Dir>, works: map<nat, Work>)
    requires KnowsEntry(n, me, entries) && me.at == Sweeping
    ensures Knows(n, me, entries, works)
  {
  }

  lemma PublishKeepsHeld(c: Config, s: State, p: nat)
    requires Held(c, s) && p in s.procs && s.procs[p].at.Publishing?
    ensures var t := Publish(NameOf(c, s.procs[p].want), s, p);
            t.Some? && Held(c, t.value) && Touches(c, s, p, t.value)
  {
    var n := NameOf(c, s.procs[p].want);
    hide Held, Knows, KnowsEntry, KnowsWork, Holds, NameOf, ValidEntry, BuiltFrom, Unusable, WorkAt;
    HeldParts(c, s);
    DiscardingHolds(s.procs[p].at);
    InsideKnows(c, s, p);
    AtPublish(n, s.procs[p], s.entries, s.works);
    var t := Publish(n, s, p).value;
    assert Fresh(t) && LeavesOthers(n, s, t) && OnlyMoves(s, p, t);
    hide Fresh, LeavesOthers;
    InsideMoves(c, s, p, t);
  }

  // ---- every step

  lemma GoKeepsHeld(c: Config, s: State, p: nat)
    requires Held(c, s) && p in s.procs && Go1(c, s, p).Some?
    ensures var t := Go1(c, s, p).value; Held(c, t) && Touches(c, s, p, t)
  {
    hide Held, Touches, Checked, Acquire, Release, Discarded, Make, Work1, Publish, Holds, WorkAt, NameOf, To;
    var at := s.procs[p].at;
    if at.Look? || at.LookRuns? || at.LookAnswer? {
      LookKeepsHeld(c, s, p);
    } else if at.Waiting? {
      AcquireKeepsHeld(c, s, p);
    } else if at.Discarding? {
      DiscardedKeepsHeld(c, s, p);
    } else if at.Sweeping? {
      ErrandMoves(c, s, p, Making);
    } else if at.Making? {
      MakeKeepsHeld(c, s, p);
    } else if at.Copying? || at.Asking? || at.Noting? {
      OutputKeepsHeld(c, s, p);
    } else if at.Publishing? {
      PublishKeepsHeld(c, s, p);
    } else if at.Tidying? {
      TidyKeepsHeld(c, s, p);
    } else {
      ReleaseKeepsHeld(c, s, p);
    }
  }

  lemma ErrandMoves(c: Config, s: State, p: nat, at: Point)
    requires Held(c, s) && p in s.procs
    requires var me := s.procs[p];
      || (me.at == Sweeping && at == Making)
      || (WorkAt(me.at).Some? && at == Tidying(WorkAt(me.at).value, false))
      || (Holds(me.at) && at == Unlocking(false))
      || (me.at.Tidying? && at == Unlocking(me.at.done))
      || (me.at.Fetching? && at == Building(me.at.work))
      || (me.at.Building? && at.Copying? && at.work == me.at.work && at.built.source == me.want.commit)
    ensures Held(c, To(s, p, at)) && Touches(c, s, p, To(s, p, at))
  {
    hide Held, Touches, Knows, KnowsEntry, KnowsWork, Holds, WorkAt, NameOf, To;
    BuildsHold(s.procs[p].at);
    DiscardingHolds(s.procs[p].at);
    if WorkAt(s.procs[p].at).Some? { BuildersHold(s.procs[p].at); }
    InsideKnows(c, s, p);
    MovedKnows(NameOf(c, s.procs[p].want), s.procs[p], at, s.entries, s.works);
    PlainMoves(c, s, p, at);
  }

  lemma ErrandKeepsHeld(c: Config, s: State, a: Action)
    requires Held(c, s) && Apply(c, s, a).Some? && (a.Fetched? || a.Built? || a.Trip? || a.Leave?)
    ensures var t := Apply(c, s, a).value; Held(c, t) && Touches(c, s, a.p, t)
  {
    hide Held, Touches, Holds, WorkAt, NameOf, To;
    var at := s.procs[a.p].at;
    match a
    case Fetched(p, head) =>
      AtWork(at);
      ErrandMoves(c, s, p, if head == s.procs[p].want.commit then Building(at.work) else Tidying(at.work, false));
    case Built(p, b) => ErrandMoves(c, s, p, Copying(at.work, b));
    case Trip(p) =>
      ErrandMoves(c, s, p, if WorkAt(at).Some? then Tidying(WorkAt(at).value, false) else Unlocking(false));
    case Leave(p) => ErrandMoves(c, s, p, Unlocking(at.done));
  }

  /** Every step of every run, and every crash, keeps each run's place inside its
      lock and what it knows there, and touches nothing of another entry. */
  lemma StepKeepsHeld(c: Config, s: State, a: Action)
    requires Held(c, s) && Apply(c, s, a).Some?
    ensures var t := Apply(c, s, a).value; Held(c, t) && Touches(c, s, a.p, t)
  {
    if a.Start? {
      StartKeepsHeld(c, s, a.p, a.want, a.unpinned);
    } else if a.Go? {
      GoKeepsHeld(c, s, a.p);
    } else if a.RemoveFile? {
      RemoveKeepsHeld(c, s, a.p, a.manifest);
    } else if a.Crash? {
      CrashKeepsHeld(c, s, a.p);
    } else if a.Sweep? {
      SweepKeepsHeld(c, s, a.p, a.work);
    } else {
      ErrandKeepsHeld(c, s, a);
    }
    hide Held, Touches, Go1, Removed, Crashed, Holds, WorkAt, NameOf, To;
  }

  lemma InitialHeld(c: Config, s: State, first: map<Name, Dir>)
    requires Initial(s, first)
    ensures Held(c, s)
  {
  }

  lemma {:induction false} RunKeepsHeld(c: Config, s0: State, actions: seq<Action>, s: State)
    requires Held(c, s0) && RunAll(c, s0, actions) == Some(s)
    ensures Held(c, s)
    decreases |actions|
  {
    hide Held, Apply;
    if actions != [] {
      var before, a := actions[..|actions| - 1], actions[|actions| - 1];
      RunKeepsHeld(c, s0, before, RunAll(c, s0, before).value);
      StepKeepsHeld(c, RunAll(c, s0, before).value, a);
    }
  }

  lemma ReachedHeld(c: Config, requests: iset<Manifest>, first: map<Name, Dir>, s: State)
    requires Reached(c, requests, first, s)
    ensures Held(c, s)
  {
    hide Held, RunAll, Initial;
    var s0 :| Initial(s0, first) && Steps(c, requests, s0, s);
    var actions :| Asks(actions, requests) && RunAll(c, s0, actions) == Some(s);
    InitialHeld(c, s0, first);
    RunKeepsHeld(c, s0, actions, s);
  }

  // ---- one run at a time

  /** Whatever runs ask for, two runs inside the lock of one entry are one run. */
  lemma OneRunInside(c: Config, requests: iset<Manifest>, first: map<Name, Dir>, s: State, p: nat, q: nat)
    requires Reached(c, requests, first, s) && p in s.procs && q in s.procs
    requires Holds(s.procs[p].at) && Holds(s.procs[q].at)
    requires NameOf(c, s.procs[p].want) == NameOf(c, s.procs[q].want)
    ensures p == q
  {
    hide *;
    ReachedHeld(c, requests, first, s);
    HeldParts(c, s);
    OneInside(c, s, p, q);
  }

  // ---- live builds

  lemma BuilderKnows(c: Config, s: State, q: nat)
    requires Held(c, s) && q in s.procs
    ensures KnowsWork(NameOf(c, s.procs[q].want), s.procs[q], s.works)
  {
    if Holds(s.procs[q].at) {
      hide Held, Holds, KnowsEntry, KnowsWork, NameOf;
      InsideKnows(c, s, q);
    }
  }

  lemma OtherWork(c: Config, s: State, p: nat, t: State, q: nat)
    requires Held(c, s) && Touches(c, s, p, t) && q in s.procs && q != p && WorkAt(s.procs[q].at).Some?
    ensures var w := WorkAt(s.procs[q].at).value; w in s.works && w in t.works && t.works[w] == s.works[w]
  {
    hide Held, Holds, WorkAt, KnowsWork, NameOf, Locked, Fresh;
    HeldParts(c, s);
    BuildersHold(s.procs[q].at);
    BuilderKnows(c, s, q);
    WorkNamed(NameOf(c, s.procs[q].want), s.procs[q], s.works);
    if !(t.entries == s.entries && t.works == s.works) {
      if NameOf(c, s.procs[p].want) == NameOf(c, s.procs[q].want) { OneInside(c, s, p, q); }
    }
  }

  /** A LIVE BUILD IS ITS RUN'S OWN. In every interleaving, whatever runs ask for,
      no step of another run, its cleanup and its crash included, removes or
      changes the build directory of a run that is still at work in it. */
  lemma LiveBuildsAreOwn(c: Config, requests: iset<Manifest>, first: map<Name, Dir>, s: State, a: Action, q: nat)
    requires Reached(c, requests, first, s) && Apply(c, s, a).Some?
    requires q in s.procs && q != a.p && WorkAt(s.procs[q].at).Some?
    ensures var w, t := WorkAt(s.procs[q].at).value, Apply(c, s, a).value;
            w in s.works && w in t.works && t.works[w] == s.works[w]
  {
    hide *;
    ReachedHeld(c, requests, first, s);
    StepKeepsHeld(c, s, a);
    OtherWork(c, s, a.p, Apply(c, s, a).value, q);
  }

  /** What is swept belongs to no run that is still at work, whatever runs ask for. */
  lemma SweepSparesLiveBuilds(c: Config, requests: iset<Manifest>, first: map<Name, Dir>, s: State, p: nat, w: nat,
                              q: nat)
    requires Reached(c, requests, first, s) && Apply(c, s, Sweep(p, w)).Some? && q in s.procs
    ensures WorkAt(s.procs[q].at) != Some(w)
  {
    hide *;
    ReachedHeld(c, requests, first, s);
    HeldParts(c, s);
    BuilderKnows(c, s, q);
    SweptIsIdle(c, s, p, w, q);
  }

  // ---- what becomes of an entry

  ghost predicate SameEntry(n: Name, s: State, t: State) {
    (n in t.entries <==> n in s.entries) && (n in s.entries ==> t.entries[n] == s.entries[n])
  }

  /** A run that found the entry not valid for what it asks takes a file of it away. */
  ghost predicate TakesAway(c: Config, s: State, a: Action, n: Name, t: State) {
    && a.RemoveFile? && a.p in s.procs && s.procs[a.p].at == Discarding && NameOf(c, s.procs[a.p].want) == n
    && n in s.entries && n in t.entries && LeftOf(t.entries[n], s.entries[n])
    && !ValidEntry(s.entries[n], s.procs[a.p].want)
  }

  /** It removes the directory, once nothing is left in it. */
  ghost predicate Clears(c: Config, s: State, a: Action, n: Name, t: State) {
    && a.Go? && a.p in s.procs && s.procs[a.p].at == Discarding && NameOf(c, s.procs[a.p].want) == n
    && n in s.entries && s.entries[n] == Dir(None, None) && n !in t.entries
  }

  /** A run publishes, where nothing was, a whole build of what it asked for, from the commit it
      asked for, with a record of the two. */
  ghost predicate PutsWhole(c: Config, s: State, a: Action, n: Name, t: State) {
    && a.Go? && a.p in s.procs && s.procs[a.p].at.Publishing? && NameOf(c, s.procs[a.p].want) == n
    && n !in s.entries && n in t.entries
    && ValidEntry(t.entries[n], s.procs[a.p].want) && BuiltFrom(t.entries[n], s.procs[a.p].want.commit)
    && t.entries[n].manifest == Some(Recorded(s.procs[a.p].want, s.procs[a.p].unpinned))
  }

  lemma RemovedEntry(c: Config, s: State, a: Action, n: Name)
    requires Held(c, s) && a.RemoveFile? && Apply(c, s, a).Some?
    ensures var t := Apply(c, s, a).value; SameEntry(n, s, t) || TakesAway(c, s, a, n, t)
  {
    var k := NameOf(c, s.procs[a.p].want);
    assert Apply(c, s, a) == Some(Removed(s, k, a.manifest)) && k in s.entries;
    hide Held, KnowsEntry, KnowsWork, Knows, Holds, NameOf, Apply, LeftOf, ValidEntry, Remaining, Unusable;
    DiscardingHolds(s.procs[a.p].at);
    InsideKnows(c, s, a.p);
    RemainingKnows(k, s.procs[a.p], s.entries, s.works, a.manifest);
  }

  lemma PublishedEntry(c: Config, s: State, p: nat, n: Name)
    requires Held(c, s) && p in s.procs && s.procs[p].at.Publishing? && Go1(c, s, p).Some?
    ensures var t := Go1(c, s, p).value; SameEntry(n, s, t) || PutsWhole(c, s, Go(p), n, t)
  {
    var k := NameOf(c, s.procs[p].want);
    hide Held, KnowsEntry, KnowsWork, Knows, Holds, NameOf, ValidEntry, BuiltFrom, Unusable, WorkAt;
    DiscardingHolds(s.procs[p].at);
    InsideKnows(c, s, p);
    AtPublish(k, s.procs[p], s.entries, s.works);
  }

  /** A run about to publish does: inside its lock nothing is in the way. */
  lemma PublishTakesPlace(c: Config, requests: iset<Manifest>, first: map<Name, Dir>, s: State, p: nat)
    requires Reached(c, requests, first, s) && p in s.procs && s.procs[p].at.Publishing?
    ensures Apply(c, s, Go(p)).Some?
    ensures PutsWhole(c, s, Go(p), NameOf(c, s.procs[p].want), Apply(c, s, Go(p)).value)
  {
    ReachedHeld(c, requests, first, s);
    var k := NameOf(c, s.procs[p].want);
    hide Reached, Held, KnowsEntry, KnowsWork, Knows, Holds, NameOf, ValidEntry, BuiltFrom, Unusable, WorkAt;
    DiscardingHolds(s.procs[p].at);
    InsideKnows(c, s, p);
    AtPublish(k, s.procs[p], s.entries, s.works);
  }

  lemma GoneEntry(c: Config, s: State, p: nat, n: Name)
    requires p in s.procs && s.procs[p].at == Discarding && Go1(c, s, p).Some?
    ensures var t := Go1(c, s, p).value; SameEntry(n, s, t) || Clears(c, s, Go(p), n, t)
  {
    hide NameOf;
  }

  lemma OthersKeepEntries(c: Config, s: State, a: Action)
    requires Apply(c, s, a).Some? && !a.RemoveFile? && !a.Go?
    ensures Apply(c, s, a).value.entries == s.entries
  {
    hide NameOf, Holds, WorkAt;
  }

  lemma StepChangesEntry(c: Config, s: State, a: Action, n: Name)
    requires Held(c, s) && Apply(c, s, a).Some?
    ensures var t := Apply(c, s, a).value;
            SameEntry(n, s, t) || TakesAway(c, s, a, n, t) || Clears(c, s, a, n, t) || PutsWhole(c, s, a, n, t)
  {
    if a.Go? {
      assert Apply(c, s, a) == Go1(c, s, a.p);
      if s.procs[a.p].at.Publishing? {
        PublishedEntry(c, s, a.p, n);
      } else if s.procs[a.p].at == Discarding {
        GoneEntry(c, s, a.p, n);
      } else {
        OnlyTheseChange(c, s, a.p);
      }
    } else if a.RemoveFile? {
      RemovedEntry(c, s, a, n);
    } else {
      OthersKeepEntries(c, s, a);
    }
    hide Held, Apply, Go1, TakesAway, Clears, PutsWhole, NameOf;
  }

  /** WHAT A STEP DOES TO AN ENTRY. In every interleaving, whatever runs ask for:
      nothing; or a run inside the lock, which found the entry not valid for what
      it asks, takes a file away or removes the emptied directory; or a run puts a
      whole build of what it asks for where nothing was. No crash and no failed
      build leaves a trace, and no publication replaces an entry. */
  lemma EntryChanges(c: Config, requests: iset<Manifest>, first: map<Name, Dir>, s: State, a: Action, n: Name)
    requires Reached(c, requests, first, s) && Apply(c, s, a).Some?
    ensures var t := Apply(c, s, a).value;
            SameEntry(n, s, t) || TakesAway(c, s, a, n, t) || Clears(c, s, a, n, t) || PutsWhole(c, s, a, n, t)
  {
    hide *;
    ReachedHeld(c, requests, first, s);
    StepChangesEntry(c, s, a, n);
  }

  // ---- where every entry comes from

  /** The entry was there at first, or is a whole build of something asked for, from the commit asked for. */
  ghost predicate WholeBuild(c: Config, requests: iset<Manifest>, first: map<Name, Dir>, n: Name, d: Dir) {
    || (n in first && d == first[n])
    || exists want :: want in requests && NameOf(c, want) == n && ValidEntry(d, want) && BuiltFrom(d, want.commit)
  }

  ghost predicate Descends(c: Config, requests: iset<Manifest>, first: map<Name, Dir>, n: Name, d: Dir) {
    exists whole :: WholeBuild(c, requests, first, n, whole) && LeftOf(d, whole)
  }

  ghost predicate AllDescend(c: Config, requests: iset<Manifest>, first: map<Name, Dir>, s: State) {
    forall n :: n in s.entries ==> Descends(c, requests, first, n, s.entries[n])
  }

  lemma LessDescends(c: Config, requests: iset<Manifest>, first: map<Name, Dir>, n: Name, d: Dir, less: Dir)
    requires Descends(c, requests, first, n, d) && LeftOf(less, d)
    ensures Descends(c, requests, first, n, less)
  {
    hide WholeBuild;
    var whole :| WholeBuild(c, requests, first, n, whole) && LeftOf(d, whole);
    assert LeftOf(less, whole);
  }

  lemma WholeDescends(c: Config, requests: iset<Manifest>, first: map<Name, Dir>, n: Name, d: Dir)
    requires WholeBuild(c, requests, first, n, d)
    ensures Descends(c, requests, first, n, d)
  {
    hide WholeBuild;
    assert LeftOf(d, d);
  }

  lemma StepDescends(c: Config, requests: iset<Manifest>, first: map<Name, Dir>, s: State, a: Action)
    requires Held(c, s) && AskedFor(c, requests, s) && AllDescend(c, requests, first, s) && Apply(c, s, a).Some?
    ensures AllDescend(c, requests, first, Apply(c, s, a).value)
  {
    hide Held, Apply, Descends, LeftOf, ValidEntry, BuiltFrom, NameOf;
    var t := Apply(c, s, a).value;
    forall n | n in t.entries ensures Descends(c, requests, first, n, t.entries[n]) {
      StepChangesEntry(c, s, a, n);
      if TakesAway(c, s, a, n, t) {
        LessDescends(c, requests, first, n, s.entries[n], t.entries[n]);
      } else if PutsWhole(c, s, a, n, t) {
        WholeDescends(c, requests, first, n, t.entries[n]);
      }
    }
  }

  lemma {:induction false} RunDescends(c: Config, requests: iset<Manifest>, first: map<Name, Dir>, s0: State,
                                       actions: seq<Action>, s: State)
    requires Held(c, s0) && AskedFor(c, requests, s0) && AllDescend(c, requests, first, s0)
    requires Asks(actions, requests) && RunAll(c, s0, actions) == Some(s)
    ensures AllDescend(c, requests, first, s)
    decreases |actions|
  {
    hide Held, Apply, AskedFor, AllDescend;
    if actions != [] {
      var before, a := actions[..|actions| - 1], actions[|actions| - 1];
      var mid := RunAll(c, s0, before).value;
      RunDescends(c, requests, first, s0, before, mid);
      RunKeepsHeld(c, s0, before, mid);
      RunAskedFor(c, requests, s0, before, mid);
      StepDescends(c, requests, first, mid, a);
    }
  }

  lemma InitialDescends(c: Config, requests: iset<Manifest>, first: map<Name, Dir>, s: State)
    requires Initial(s, first)
    ensures AllDescend(c, requests, first, s) && AskedFor(c, requests, s)
  {
    hide Descends, NameOf;
    forall n | n in s.entries ensures Descends(c, requests, first, n, s.entries[n]) {
      WholeDescends(c, requests, first, n, s.entries[n]);
    }
  }

  /** NOTHING HALF BUILT IS PUBLISHED. In every interleaving, whatever runs ask
      for and wherever they crash, each entry is an entry there at first or one
      whole build of something asked for, or what is left of it while a run that
      cannot use it discards it. */
  lemma NothingHalfPublished(c: Config, requests: iset<Manifest>, first: map<Name, Dir>, s: State, n: Name)
    requires Reached(c, requests, first, s) && n in s.entries
    ensures Descends(c, requests, first, n, s.entries[n])
  {
    hide Held, RunAll, Initial, AskedFor, Descends;
    var s0 :| Initial(s0, first) && Steps(c, requests, s0, s);
    var actions :| Asks(actions, requests) && RunAll(c, s0, actions) == Some(s);
    InitialHeld(c, s0, first);
    InitialDescends(c, requests, first, s0);
    RunDescends(c, requests, first, s0, actions, s);
  }
}
