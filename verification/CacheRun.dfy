/** One run by itself, as the source writes it, over the cache directory's own
    fields: every statement is a step of the protocol. */
module CacheRun {
  import opened Options
  import opened Cache

  /** What the run meets outside: missing tools, and what fetching and building give. */
  datatype Outside = Outside(lacking: bool, head: Option<string>, built: Option<Binary>)

  lemma CopyStep(c: Config, s: State, p: nat, w: nat, b: Binary)
    requires p in s.procs && s.procs[p].at == Copying(w, b) && w in s.works
    ensures Apply(c, s, Go(p))
            == Some(To(s, p, Asking(w)).(works := s.works[w := Work(s.works[w].name, Some(Dir(None, Some(b))))]))
  {
    hide NameOf;
  }

  lemma AskStep(c: Config, s: State, p: nat, w: nat, b: Binary)
    requires p in s.procs && s.procs[p].at == Asking(w) && w in s.works && s.works[w].out == Some(Dir(None, Some(b)))
    ensures Apply(c, s, Go(p)) == Some(To(s, p, if Identify(b) == "peachq" then Noting(w) else Tidying(w, false)))
  {
    hide NameOf;
    assert s.works[w := s.works[w]] == s.works;
  }

  lemma NoteStep(c: Config, s: State, p: nat, w: nat, b: Binary)
    requires p in s.procs && s.procs[p].at == Noting(w) && w in s.works && s.works[w].out == Some(Dir(None, Some(b)))
    ensures var d := Dir(Some(Recorded(s.procs[p].want, s.procs[p].unpinned)), Some(b));
            Apply(c, s, Go(p)) == Some(To(s, p, Publishing(w)).(works := s.works[w := Work(s.works[w].name, Some(d))]))
  {
    hide NameOf;
  }

  class Directory {
    var entries: map<Name, Dir>
    var works: map<nat, Work>
    var next: nat
    ghost var state: State
    ghost var steps: seq<Action>

    ghost predicate Valid()
      reads this
    {
      entries == state.entries && works == state.works && next == state.next && Fresh(state)
    }

    /** The machine takes one step, which the fields have taken already. */
    ghost method Step(c: Config, start: State, a: Action)
      requires RunAll(c, start, steps) == Some(state) && Apply(c, state, a).Some?
      modifies this`state, this`steps
      ensures Some(state) == Apply(c, old(state), a) && RunAll(c, start, steps) == Some(state)
    {
      OneMore(c, start, steps, a);
      state := Apply(c, state, a).value;
      steps := steps + [a];
    }

    /** Run `p`, asking for `want`, is at `at`, and the machine is where the steps led. */
    ghost predicate Running(c: Config, start: State, p: nat, n: Name, me: Proc)
      reads this
    {
      Valid() && RunAll(c, start, steps) == Some(state) && p in state.procs && state.procs[p] == me &&
        NameOf(c, me.want) == n
    }

    /** Reads the entry: its manifest, whether its binary runs, what it says it is. */
    method Usable(ghost c: Config, ghost start: State, ghost p: nat, n: Name, want: Manifest, ghost unpinned: bool,
                  ghost locked: bool) returns (ok: bool)
      requires Running(c, start, p, n, Proc(want, unpinned, Look(locked)))
      modifies this`state, this`steps
      ensures Running(c, start, p, n, Proc(want, unpinned, if ok then Found(locked) else Missed(locked)))
      ensures state.locks == old(state).locks
      ensures ok <==> n in entries && ValidEntry(entries[n], want)
    {
      hide RunAll;
      Step(c, start, Go(p));
      if n !in entries || !Matches(entries[n], want) {
        return false;
      }
      Step(c, start, Go(p));
      var q := entries[n].q;
      if q.None? || !q.value.runs {
        return false;
      }
      Step(c, start, Go(p));
      ok := Identify(q.value) == "peachq";
    }

    /** Removes an unusable entry: its files, then itself. */
    method Discard(ghost c: Config, ghost start: State, ghost p: nat, n: Name, ghost want: Manifest,
                   ghost unpinned: bool)
      requires Running(c, start, p, n, Proc(want, unpinned, Discarding))
      modifies this`entries, this`state, this`steps
      ensures Running(c, start, p, n, Proc(want, unpinned, Sweeping))
      ensures entries == old(entries) - {n} && state.locks == old(state).locks
    {
      hide RunAll;
      if n in entries {
        entries := entries[n := Remaining(entries[n], true)];
        Step(c, start, RemoveFile(p, true));
        entries := entries[n := Remaining(entries[n], false)];
        Step(c, start, RemoveFile(p, false));
      }
      entries := entries - {n};
      Step(c, start, Go(p));
    }

    /** Removes what interrupted builds of this entry left. */
    method SweepStale(ghost c: Config, ghost start: State, ghost p: nat, n: Name, ghost want: Manifest,
                      ghost unpinned: bool)
      requires Running(c, start, p, n, Proc(want, unpinned, Sweeping))
      modifies this`works, this`state, this`steps
      ensures Running(c, start, p, n, Proc(want, unpinned, Sweeping))
      ensures forall w :: w in works <==> w in old(works) && old(works)[w].name != n
      ensures forall w :: w in works ==> works[w] == old(works)[w]
      ensures state.locks == old(state).locks
    {
      hide RunAll;
      var stale := set w | w in works && works[w].name == n;
      while stale != {}
        invariant Running(c, start, p, n, Proc(want, unpinned, Sweeping))
        invariant forall w :: w in stale ==> w in works && works[w].name == n
        invariant forall w :: w in works <==> w in old(works) && (old(works)[w].name != n || w in stale)
        invariant forall w :: w in works ==> works[w] == old(works)[w]
        invariant state.locks == old(state).locks
        decreases stale
      {
        var w :| w in stale;
        stale := stale - {w};
        works := works - {w};
        Step(c, start, Sweep(p, w));
      }
    }

    method MakeWork(ghost c: Config, ghost start: State, ghost p: nat, n: Name, ghost want: Manifest,
                    ghost unpinned: bool) returns (w: nat)
      requires Running(c, start, p, n, Proc(want, unpinned, Making))
      modifies this`works, this`next, this`state, this`steps
      ensures Running(c, start, p, n, Proc(want, unpinned, Fetching(w)))
      ensures w !in old(works) && works == old(works)[w := Work(n, None)]
      ensures state.locks == old(state).locks
    {
      hide RunAll;
      w := next;
      works, next := works[w := Work(n, None)], next + 1;
      Step(c, start, Go(p));
    }

    /** Whether exactly the commit asked for was fetched, and something was built of it. */
    method FetchAndBuild(ghost c: Config, ghost start: State, ghost p: nat, n: Name, want: Manifest,
                         ghost unpinned: bool, w: nat, outside: Outside) returns (ok: bool)
      requires Running(c, start, p, n, Proc(want, unpinned, Fetching(w)))
      requires outside.built.Some? ==> outside.built.value.source == want.commit
      modifies this`state, this`steps
      ensures ok <==> outside.head == Some(want.commit) && outside.built.Some?
      ensures Running(c, start, p, n, Proc(want, unpinned, if ok then Copying(w, outside.built.value)
                                           else Tidying(w, false)))
      ensures state.locks == old(state).locks
    {
      hide RunAll;
      if outside.head.None? {
        Step(c, start, Trip(p));
        return false;
      }
      Step(c, start, Fetched(p, outside.head.value));
      if outside.head.value != want.commit {
        return false;
      }
      if outside.built.None? {
        Step(c, start, Trip(p));
        return false;
      }
      Step(c, start, Built(p, outside.built.value));
      ok := true;
    }

    /** Copies the binary out, asks it what it is, and writes the manifest beside it. */
    method PutOut(ghost c: Config, ghost start: State, ghost p: nat, n: Name, want: Manifest, unpinned: bool, w: nat,
                  b: Binary) returns (ok: bool)
      requires Running(c, start, p, n, Proc(want, unpinned, Copying(w, b))) && w in works && works[w] == Work(n, None)
      modifies this`works, this`state, this`steps
      ensures ok <==> Identify(b) == "peachq"
      ensures Running(c, start, p, n, Proc(want, unpinned, if ok then Publishing(w) else Tidying(w, false)))
      ensures works == old(works)[w := Work(n, Some(Dir(if ok then Some(Recorded(want, unpinned)) else None, Some(b))))]
      ensures state.locks == old(state).locks
    {
      hide RunAll, NameOf, Apply;
      works := works[w := Work(n, Some(Dir(None, Some(b))))];
      CopyStep(c, state, p, w, b);
      Step(c, start, Go(p));
      ok := Identify(b) == "peachq";
      AskStep(c, state, p, w, b);
      Step(c, start, Go(p));
      if ok {
        NoteStep(c, state, p, w, b);
        works := works[w := Work(n, Some(Dir(Some(Recorded(want, unpinned)), Some(b))))];
        Step(c, start, Go(p));
      }
    }

    method Rename(ghost c: Config, ghost start: State, ghost p: nat, n: Name, ghost want: Manifest,
                  ghost unpinned: bool, w: nat)
      requires Running(c, start, p, n, Proc(want, unpinned, Publishing(w))) && n !in entries
      requires w in works && works[w].name == n && works[w].out.Some?
      modifies this`entries, this`works, this`state, this`steps
      ensures Running(c, start, p, n, Proc(want, unpinned, Tidying(w, true)))
      ensures entries == old(entries)[n := old(works)[w].out.value] && works == old(works)[w := Work(n, None)]
      ensures state.locks == old(state).locks
    {
      hide RunAll;
      entries, works := entries[n := works[w].out.value], works[w := Work(n, None)];
      Step(c, start, Go(p));
    }

    method Tidy(ghost c: Config, ghost start: State, ghost p: nat, n: Name, ghost want: Manifest, ghost unpinned: bool,
                w: nat, ghost done: bool)
      requires Running(c, start, p, n, Proc(want, unpinned, Tidying(w, done)))
      modifies this`works, this`state, this`steps
      ensures Running(c, start, p, n, Proc(want, unpinned, Unlocking(done)))
      ensures works == old(works) - {w} && state.locks == old(state).locks
    {
      hide RunAll;
      works := works - {w};
      Step(c, start, Go(p));
    }

    /** Fetches, builds and checks in a directory of its own, and publishes by one rename. */
    method BuildAndPublish(ghost c: Config, ghost start: State, ghost p: nat, n: Name, want: Manifest, unpinned: bool,
                           outside: Outside) returns (ok: bool)
      requires Running(c, start, p, n, Proc(want, unpinned, Making)) && n !in entries
      requires outside.built.Some? ==> outside.built.value.source == want.commit
      modifies this
      ensures Running(c, start, p, n, Proc(want, unpinned, Unlocking(ok)))
      ensures works == old(works)
      ensures ok <==>
                outside.head == Some(want.commit) && outside.built.Some? && Identify(outside.built.value) == "peachq"
      ensures entries == if ok then old(entries)[n := Dir(Some(Recorded(want, unpinned)), outside.built)]
              else old(entries)
      ensures state.locks == old(state).locks
    {
      hide RunAll, Apply, Fresh, Identify, NameOf, Running;
      var w := MakeWork(c, start, p, n, want, unpinned);
      ok := FetchAndBuild(c, start, p, n, want, unpinned, w, outside);
      if ok {
        ok := PutOut(c, start, p, n, want, unpinned, w, outside.built.value);
        if ok {
          Rename(c, start, p, n, want, unpinned, w);
        }
      }
      Tidy(c, start, p, n, want, unpinned, w, ok);
      assert works == old(works);
    }

    ghost method Begin(c: Config, start: State, p: nat, n: Name, want: Manifest, unpinned: bool)
      requires Valid() && RunAll(c, start, steps) == Some(state) && p !in state.procs && n == NameOf(c, want)
      modifies this`state, this`steps
      ensures Running(c, start, p, n, Proc(want, unpinned, Look(false)))
      ensures state.locks == old(state).locks
    {
      hide RunAll;
      Step(c, start, Start(p, want, unpinned));
    }

    ghost method Lock(c: Config, start: State, p: nat, n: Name, want: Manifest, unpinned: bool)
      requires Running(c, start, p, n, Proc(want, unpinned, Waiting)) && n !in state.locks
      modifies this`state, this`steps
      ensures Running(c, start, p, n, Proc(want, unpinned, Look(true)))
      ensures state.locks == old(state).locks[n := p]
    {
      hide RunAll;
      Step(c, start, Go(p));
    }

    ghost method Unlock(c: Config, start: State, p: nat, n: Name, want: Manifest, unpinned: bool, done: bool)
      requires Running(c, start, p, n, Proc(want, unpinned, Unlocking(done)))
      modifies this`state, this`steps
      ensures Running(c, start, p, n, Proc(want, unpinned, if done then Returned else Failed))
      ensures state.locks == old(state).locks - {n}
    {
      hide RunAll;
      Step(c, start, Go(p));
    }

    /** Past the sweep: on to the build, or an end if tools are missing. */
    ghost method Equip(c: Config, start: State, p: nat, n: Name, want: Manifest, unpinned: bool, lacking: bool)
      requires Running(c, start, p, n, Proc(want, unpinned, Sweeping))
      modifies this`state, this`steps
      ensures Running(c, start, p, n, Proc(want, unpinned, if lacking then Unlocking(false) else Making))
      ensures state.locks == old(state).locks
    {
      hide RunAll;
      Step(c, start, Go(p));
      if lacking {
        Step(c, start, Trip(p));
      }
    }

    /** Nothing of other entries changes, and build directories only go. */
    twostate predicate OnlyThis(n: Name)
      reads this
    {
      && (forall k :: k != n ==>
            (k in entries <==> k in old(entries)) && (k in entries ==> entries[k] == old(entries)[k]))
      && (forall w :: w in works ==> w in old(works) && works[w] == old(works)[w])
    }

    /** Inside the lock, over an entry found unusable. */
    method Prepare(ghost c: Config, ghost start: State, ghost p: nat, n: Name, want: Manifest, unpinned: bool,
                   outside: Outside) returns (ok: bool)
      requires Running(c, start, p, n, Proc(want, unpinned, Discarding))
      requires outside.built.Some? ==> outside.built.value.source == want.commit
      modifies this
      ensures Running(c, start, p, n, Proc(want, unpinned, Unlocking(ok)))
      ensures ok ==> n in entries && ValidEntry(entries[n], want)
      ensures OnlyThis(n) && state.locks == old(state).locks
    {
      hide RunAll, Apply, Fresh, NameOf, Identify, ValidEntry;
      Discard(c, start, p, n, want, unpinned);
      SweepStale(c, start, p, n, want, unpinned);
      Equip(c, start, p, n, want, unpinned, outside.lacking);
      ok := !outside.lacking;
      if ok {
        ok := BuildAndPublish(c, start, p, n, want, unpinned, outside);
        PublishedIsValid(want, unpinned, outside);
      }
    }

    /** Takes the lock, and looks again: another run may have built it meanwhile. */
    method LookAgain(ghost c: Config, ghost start: State, ghost p: nat, n: Name, want: Manifest,
                     ghost unpinned: bool) returns (ok: bool)
      requires Running(c, start, p, n, Proc(want, unpinned, Waiting)) && n !in state.locks
      modifies this`state, this`steps
      ensures Running(c, start, p, n, Proc(want, unpinned, if ok then Unlocking(true) else Discarding))
      ensures ok <==> n in entries && ValidEntry(entries[n], want)
      ensures state.locks == old(state).locks[n := p]
    {
      assert Missed(true) == Discarding && Found(true) == Unlocking(true);
      hide RunAll, Apply, Fresh, NameOf, Identify, ValidEntry, Running;
      Lock(c, start, p, n, want, unpinned);
      ok := Usable(c, start, p, n, want, unpinned, true);
    }

    /** The rest of the run, once the lock is free. */
    method UnderLock(ghost c: Config, ghost start: State, ghost p: nat, n: Name, want: Manifest, unpinned: bool,
                     outside: Outside) returns (ok: bool)
      requires Running(c, start, p, n, Proc(want, unpinned, Waiting)) && n !in state.locks
      requires outside.built.Some? ==> outside.built.value.source == want.commit
      modifies this
      ensures Running(c, start, p, n, Proc(want, unpinned, if ok then Returned else Failed))
      ensures ok ==> n in entries && ValidEntry(entries[n], want)
      ensures OnlyThis(n) && state.locks == old(state).locks
    {
      hide RunAll, Apply, Fresh, NameOf, Identify, ValidEntry, Running;
      Freed(state.locks, n, p);
      ok := LookAgain(c, start, p, n, want, unpinned);
      if !ok {
        ok := Prepare(c, start, p, n, want, unpinned, outside);
      }
      Unlock(c, start, p, n, want, unpinned, ok);
    }

    lemma RunningIs(c: Config, start: State, p: nat, n: Name, me: Proc)
      requires Running(c, start, p, n, me)
      ensures Valid() && RunAll(c, start, steps) == Some(state) && p in state.procs && state.procs[p] == me
    {
    }

    /** The cached build asked for, else a fresh one: what one run does when no
        other run holds its lock.  What is returned is whole, nothing else of the
        cache changes, and every statement is a step of the protocol. */
    method Resolve(ghost c: Config, ghost p: nat, n: Name, want: Manifest, unpinned: bool,
                   outside: Outside) returns (ok: bool)
      requires Valid() && n == NameOf(c, want) && p !in state.procs && n !in state.locks && steps == []
      requires outside.built.Some? ==> outside.built.value.source == want.commit
      modifies this
      ensures Valid() && RunAll(c, old(state), steps) == Some(state)
      ensures p in state.procs && state.procs[p] == Proc(want, unpinned, if ok then Returned else Failed)
      ensures ok ==> n in entries && ValidEntry(entries[n], want)
      ensures n in old(entries) && ValidEntry(old(entries)[n], want) ==>
                ok && entries == old(entries) && works == old(works)
      ensures OnlyThis(n) && state.locks == old(state).locks
    {
      ghost var start := state;
      assert RunAll(c, start, []) == Some(start);
      assert Missed(false) == Waiting && Found(false) == Returned;
      hide RunAll, Apply, Fresh, NameOf, Identify, ValidEntry, Running;
      Begin(c, start, p, n, want, unpinned);
      ok := Usable(c, start, p, n, want, unpinned, false);
      if !ok {
        ok := UnderLock(c, start, p, n, want, unpinned, outside);
      }
      RunningIs(c, start, p, n, Proc(want, unpinned, if ok then Returned else Failed));
    }
  }

  lemma Freed(locks: map<Name, nat>, n: Name, p: nat)
    requires n !in locks
    ensures locks[n := p] - {n} == locks
  {
  }

  lemma PublishedIsValid(want: Manifest, unpinned: bool, outside: Outside)
    ensures outside.built.Some? && Identify(outside.built.value) == "peachq" ==>
              ValidEntry(Dir(Some(Recorded(want, unpinned)), outside.built), want)
  {
  }
}
