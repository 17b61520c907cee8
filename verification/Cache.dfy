/** Any number of runs preparing one cached build at once: the lock, the build
    directories, publication by rename, and crashes at every point. */
module Cache {
  import opened Options

  /** What a run asks for, and what an entry's manifest records. */
  datatype Manifest = Manifest(repository: string, commit: string, platform: string, makeTarget: string,
                               options: map<string, string>)

  /** What an entry is called. */
  datatype Name = Name(commit: string, platform: string, digest: string)

  /** A program: whether it can be run, what it says it is, the commit it came from. */
  datatype Binary = Binary(runs: bool, answers: string, source: string)

  datatype Recorded = Recorded(manifest: Manifest, unpinned: bool)

  /** An entry, or one about to be published. */
  datatype Dir = Dir(manifest: Option<Recorded>, q: Option<Binary>)

  datatype Work = Work(name: Name, out: Option<Dir>)

  datatype Point =
    | Look(locked: bool)              // about to read the entry's manifest
    | LookRuns(locked: bool)          // it matched; can the binary be run?
    | LookAnswer(locked: bool)        // it can; which q does it say it is?
    | Waiting                         // for the lock
    | Discarding                      // removing an unusable entry, file by file
    | Sweeping                        // removing interrupted builds
    | Making                          // about to make a build directory
    | Fetching(work: nat)
    | Building(work: nat)
    | Copying(work: nat, built: Binary)
    | Asking(work: nat)
    | Noting(work: nat)
    | Publishing(work: nat)
    | Tidying(work: nat, done: bool)  // removing its own build directory
    | Unlocking(done: bool)
    | Returned
    | Failed

  datatype Proc = Proc(want: Manifest, unpinned: bool, at: Point)

  datatype State = State(
    entries: map<Name, Dir>,
    works: map<nat, Work>,
    next: nat,
    locks: map<Name, nat>,
    procs: map<nat, Proc>,
    published: map<Name, nat>)

  /** What is fixed: how options are hashed, and what runs that share an entry ask for. */
  datatype Config = Config(digest: map<string, string> -> string, asked: Name -> Manifest)

  datatype Action =
    | Start(p: nat, want: Manifest, unpinned: bool)
    | Go(p: nat)                      // the next step, where nothing outside decides it
    | RemoveFile(p: nat, manifest: bool)
    | Sweep(p: nat, work: nat)
    | Fetched(p: nat, head: string)
    | Built(p: nat, binary: Binary)
    | Trip(p: nat)                    // an error the run itself ends on
    | Leave(p: nat)                   // its build directory would not be removed
    | Crash(p: nat)

  // ---- the checks

  function NameOf(c: Config, m: Manifest): Name {
    Name(m.commit, m.platform, c.digest(m.options))
  }

  function Identify(b: Binary): string {
    if b.runs then b.answers else ""
  }

  predicate Good(q: Option<Binary>) {
    q.Some? && q.value.runs && Identify(q.value) == "peachq"
  }

  predicate Matches(d: Dir, m: Manifest) {
    d.manifest.Some? && d.manifest.value.manifest == m
  }

  predicate ValidEntry(d: Dir, m: Manifest) {
    Matches(d, m) && Good(d.q)
  }

  predicate BuiltFrom(d: Dir, commit: string) {
    d.q.Some? && d.q.value.source == commit
  }

  predicate Holds(at: Point) {
    match at
    case Look(l) => l
    case LookRuns(l) => l
    case LookAnswer(l) => l
    case Waiting => false
    case Returned => false
    case Failed => false
    case _ => true
  }

  function WorkAt(at: Point): Option<nat> {
    match at
    case Fetching(w) => Some(w)
    case Building(w) => Some(w)
    case Copying(w, _) => Some(w)
    case Asking(w) => Some(w)
    case Noting(w) => Some(w)
    case Publishing(w) => Some(w)
    case Tidying(w, _) => Some(w)
    case _ => None
  }

  // ---- the steps

  function To(s: State, p: nat, at: Point): State
    requires p in s.procs
  {
    s.(procs := s.procs[p := s.procs[p].(at := at)])
  }

  /** Where a check that found the entry wanting leads. */
  function Missed(locked: bool): Point {
    if locked then Discarding else Waiting
  }

  function Found(locked: bool): Point {
    if locked then Unlocking(true) else Returned
  }

  /** Where reading the entry leads. */
  function Checked(n: Name, me: Proc, entries: map<Name, Dir>): Point
    requires me.at.Look? || me.at.LookRuns? || me.at.LookAnswer?
  {
    var l := me.at.locked;
    if n !in entries then Missed(l)
    else
      var d := entries[n];
      match me.at
      case Look(_) => if Matches(d, me.want) then LookRuns(l) else Missed(l)
      case LookRuns(_) => if d.q.Some? && d.q.value.runs then LookAnswer(l) else Missed(l)
      case LookAnswer(_) => if d.q.Some? && Identify(d.q.value) == "peachq" then Found(l) else Missed(l)
  }

  function Acquire(n: Name, s: State, p: nat): Option<State>
    requires p in s.procs
  {
    if n in s.locks then None else Some(To(s, p, Look(true)).(locks := s.locks[n := p]))
  }

  function Release(n: Name, s: State, p: nat): State
    requires p in s.procs && s.procs[p].at.Unlocking?
  {
    To(s, p, if s.procs[p].at.done then Returned else Failed).(locks := s.locks - {n})
  }

  /** The last of discarding: the directory itself, once it is empty. */
  function Discarded(n: Name, s: State, p: nat): Option<State>
    requires p in s.procs
  {
    if n in s.entries && s.entries[n] != Dir(None, None) then None
    else Some(To(s, p, Sweeping).(entries := s.entries - {n}))
  }

  function Make(n: Name, s: State, p: nat): State
    requires p in s.procs
  {
    To(s, p, Fetching(s.next)).(works := s.works[s.next := Work(n, None)], next := s.next + 1)
  }

  /** Copying the binary out, asking it what it is, writing the manifest. */
  function Output(me: Proc, out: Option<Dir>): Option<(Point, Option<Dir>)>
    requires me.at.Copying? || me.at.Asking? || me.at.Noting?
  {
    match me.at
    case Copying(w, b) => Some((Asking(w), Some(Dir(None, Some(b)))))
    case Asking(w) =>
      if out.None? || out.value.q.None? then None
      else Some((if Identify(out.value.q.value) == "peachq" then Noting(w) else Tidying(w, false), out))
    case Noting(w) =>
      if out.None? then None
      else Some((Publishing(w), Some(out.value.(manifest := Some(Recorded(me.want, me.unpinned))))))
  }

  function Work1(s: State, p: nat): Option<State>
    requires p in s.procs && (s.procs[p].at.Copying? || s.procs[p].at.Asking? || s.procs[p].at.Noting?)
  {
    var w := s.procs[p].at.work;
    if w !in s.works then None
    else
      var r := Output(s.procs[p], s.works[w].out);
      if r.None? then None
      else Some(To(s, p, r.value.0).(works := s.works[w := Work(s.works[w].name, r.value.1)]))
  }

  /** The rename: nothing else puts an entry there. */
  function Publish(n: Name, s: State, p: nat): Option<State>
    requires p in s.procs && s.procs[p].at.Publishing?
  {
    var w := s.procs[p].at.work;
    if w !in s.works || s.works[w].out.None? then None
    else if n in s.entries && s.entries[n] != Dir(None, None) then Some(To(s, p, Tidying(w, false)))
    else Some(To(s, p, Tidying(w, true)).(
      entries := s.entries[n := s.works[w].out.value],
      published := s.published[n := 1 + if n in s.published then s.published[n] else 0],
      works := s.works[w := Work(s.works[w].name, None)]))
  }

  function Go1(c: Config, s: State, p: nat): Option<State>
    requires p in s.procs
  {
    var me := s.procs[p];
    var n := NameOf(c, me.want);
    match me.at
    case Look(_) => Some(To(s, p, Checked(n, me, s.entries)))
    case LookRuns(_) => Some(To(s, p, Checked(n, me, s.entries)))
    case LookAnswer(_) => Some(To(s, p, Checked(n, me, s.entries)))
    case Waiting => Acquire(n, s, p)
    case Discarding => Discarded(n, s, p)
    case Sweeping => Some(To(s, p, Making))
    case Making => Some(Make(n, s, p))
    case Copying(_, _) => Work1(s, p)
    case Asking(_) => Work1(s, p)
    case Noting(_) => Work1(s, p)
    case Publishing(_) => Publish(n, s, p)
    case Tidying(w, done) => Some(To(s, p, Unlocking(done)).(works := s.works - {w}))
    case Unlocking(_) => Some(Release(n, s, p))
    case _ => None
  }

  function Remaining(d: Dir, manifest: bool): Dir {
    if manifest then d.(manifest := None) else d.(q := None)
  }

  /** A process that ends takes its lock with it, and nothing else. */
  function Crashed(s: State, p: nat): State {
    s.(procs := s.procs - {p}, locks := map n | n in s.locks && s.locks[n] != p :: s.locks[n])
  }

  function Removed(s: State, n: Name, manifest: bool): State
    requires n in s.entries
  {
    s.(entries := s.entries[n := Remaining(s.entries[n], manifest)])
  }

  function Apply(c: Config, s: State, a: Action): Option<State> {
    match a
    case Start(p, want, unpinned) =>
      if p in s.procs then None else Some(s.(procs := s.procs[p := Proc(want, unpinned, Look(false))]))
    case Go(p) => if p in s.procs then Go1(c, s, p) else None
    case RemoveFile(p, manifest) =>
      if p !in s.procs || s.procs[p].at != Discarding then None
      else
        var n := NameOf(c, s.procs[p].want);
        if n !in s.entries then None else Some(Removed(s, n, manifest))
    case Sweep(p, w) =>
      if p !in s.procs || s.procs[p].at != Sweeping || w !in s.works ||
        s.works[w].name != NameOf(c, s.procs[p].want) then None
      else Some(s.(works := s.works - {w}))
    case Fetched(p, head) =>
      if p !in s.procs || !s.procs[p].at.Fetching? then None
      else Some(To(s, p, if head == s.procs[p].want.commit then Building(s.procs[p].at.work)
                   else Tidying(s.procs[p].at.work, false)))
    case Built(p, b) =>
      if p !in s.procs || !s.procs[p].at.Building? || b.source != s.procs[p].want.commit then None
      else Some(To(s, p, Copying(s.procs[p].at.work, b)))
    case Trip(p) =>
      if p !in s.procs then None
      else
        var at := s.procs[p].at;
        if at.Tidying? || at.Unlocking? || !Holds(at) then None
        else if WorkAt(at).Some? then Some(To(s, p, Tidying(WorkAt(at).value, false)))
        else Some(To(s, p, Unlocking(false)))
    case Leave(p) =>
      if p !in s.procs || !s.procs[p].at.Tidying? then None
      else Some(To(s, p, Unlocking(s.procs[p].at.done)))
    case Crash(p) =>
      if p !in s.procs then None else Some(Crashed(s, p))
  }

  // ---- what every step keeps

  /** Runs that share an entry's name ask for the same build. */
  ghost predicate Agreed(c: Config, s: State) {
    forall p :: p in s.procs ==> s.procs[p].want == c.asked(NameOf(c, s.procs[p].want))
  }

  /** A run is inside the lock exactly when it is the lock's owner. */
  ghost predicate Locked(c: Config, s: State) {
    && (forall n :: n in s.locks ==>
        s.locks[n] in s.procs && NameOf(c, s.procs[s.locks[n]].want) == n && Holds(s.procs[s.locks[n]].at))
    && (forall p :: p in s.procs && Holds(s.procs[p].at) ==>
        NameOf(c, s.procs[p].want) in s.locks && s.locks[NameOf(c, s.procs[p].want)] == p)
  }

  ghost predicate Fresh(s: State) {
    forall w :: w in s.works ==> w < s.next
  }

  /** What run `me` knows of the entry it is after. */
  ghost predicate KnowsEntry(n: Name, me: Proc, entries: map<Name, Dir>) {
    match me.at
    case LookRuns(_) => n in entries && Good(entries[n].q) ==> Matches(entries[n], me.want)
    case LookAnswer(_) => n in entries && Good(entries[n].q) ==> Matches(entries[n], me.want)
    case Discarding => n in entries ==> !ValidEntry(entries[n], me.want)
    case Sweeping => n !in entries
    case Making => n !in entries
    case Fetching(_) => n !in entries
    case Building(_) => n !in entries
    case Copying(_, _) => n !in entries
    case Asking(_) => n !in entries
    case Noting(_) => n !in entries
    case Publishing(_) => n !in entries
    case Tidying(_, done) => done ==> n in entries && ValidEntry(entries[n], me.want)
    case Unlocking(done) => done ==> n in entries && ValidEntry(entries[n], me.want)
    case Returned => n in entries && ValidEntry(entries[n], me.want)
    case _ => true
  }

  /** What run `me` knows of its own build directory. */
  ghost predicate KnowsWork(n: Name, me: Proc, works: map<nat, Work>) {
    && (WorkAt(me.at).Some? ==> WorkAt(me.at).value in works && works[WorkAt(me.at).value].name == n)
    && match me.at
       case Copying(_, b) => b.source == me.want.commit
       case Asking(w) => works[w].out.Some? && BuiltFrom(works[w].out.value, me.want.commit)
       case Noting(w) => works[w].out.Some? && BuiltFrom(works[w].out.value, me.want.commit) &&
         Good(works[w].out.value.q)
       case Publishing(w) => works[w].out.Some? && BuiltFrom(works[w].out.value, me.want.commit) &&
         ValidEntry(works[w].out.value, me.want) &&
         works[w].out.value.manifest == Some(Recorded(me.want, me.unpinned))
       case _ => true
  }

  ghost predicate Knows(n: Name, me: Proc, entries: map<Name, Dir>, works: map<nat, Work>) {
    KnowsEntry(n, me, entries) && KnowsWork(n, me, works)
  }

  ghost predicate Knowing(c: Config, s: State) {
    forall p :: p in s.procs ==> Knows(NameOf(c, s.procs[p].want), s.procs[p], s.entries, s.works)
  }

  /** What is published is whole, and published once. */
  ghost predicate PublishedWhole(c: Config, s: State) {
    forall n :: n in s.published ==>
      s.published[n] == 1 && n in s.entries && ValidEntry(s.entries[n], c.asked(n)) &&
        BuiltFrom(s.entries[n], c.asked(n).commit)
  }

  /** What a discarded entry still has: nothing it did not have. */
  ghost predicate LeftOf(d: Dir, before: Dir) {
    (d.manifest.None? || d.manifest == before.manifest) && (d.q.None? || d.q == before.q)
  }

  /** An entry is there because it was there at first, or because a whole build
      was published. */
  ghost predicate Accounted(s: State, first: map<Name, Dir>) {
    forall n :: n in s.entries && n !in s.published ==> n in first && LeftOf(s.entries[n], first[n])
  }

  ghost predicate Inv(c: Config, s: State, first: map<Name, Dir>) {
    Agreed(c, s) && Locked(c, s) && Fresh(s) && Knowing(c, s) && PublishedWhole(c, s) && Accounted(s, first)
  }

  ghost predicate Initial(s: State, first: map<Name, Dir>) {
    s.procs == map[] && s.locks == map[] && s.published == map[] && s.entries == first && Fresh(s)
  }

  // ---- the pieces of one step

  lemma KnowsOf(c: Config, s: State, first: map<Name, Dir>, p: nat)
    requires Inv(c, s, first) && p in s.procs
    ensures KnowsEntry(NameOf(c, s.procs[p].want), s.procs[p], s.entries)
    ensures KnowsWork(NameOf(c, s.procs[p].want), s.procs[p], s.works)
    ensures s.procs[p].want == c.asked(NameOf(c, s.procs[p].want))
  {
    hide KnowsEntry, KnowsWork, Locked, Fresh, PublishedWhole, Accounted;
    assert Knows(NameOf(c, s.procs[p].want), s.procs[p], s.entries, s.works);
  }

  /** Two runs inside the lock of one entry are one run. */
  lemma OneInside(c: Config, s: State, p: nat, q: nat)
    requires Locked(c, s) && p in s.procs && q in s.procs && Holds(s.procs[p].at) && Holds(s.procs[q].at)
    requires NameOf(c, s.procs[p].want) == NameOf(c, s.procs[q].want)
    ensures p == q
  {
    hide Holds;
  }

  lemma BuildersHold(at: Point)
    requires WorkAt(at).Some?
    ensures Holds(at)
  {
  }

  /** A build directory belongs to the one run that made it. */
  lemma OwnWorks(c: Config, s: State, first: map<Name, Dir>, p: nat, q: nat)
    requires Inv(c, s, first) && p in s.procs && q in s.procs && p != q && WorkAt(s.procs[p].at).Some?
    ensures WorkAt(s.procs[q].at) != WorkAt(s.procs[p].at)
  {
    KnowsOf(c, s, first, p);
    KnowsOf(c, s, first, q);
    hide KnowsEntry, Holds, Fresh, PublishedWhole, Accounted, Knowing;
    if WorkAt(s.procs[q].at) == WorkAt(s.procs[p].at) {
      BuildersHold(s.procs[p].at);
      BuildersHold(s.procs[q].at);
      OneInside(c, s, p, q);
    }
  }

  /** One run moves, keeping or not holding the lock as before; the rest is given. */
  lemma Assemble(c: Config, s: State, first: map<Name, Dir>, p: nat, s': State)
    requires Inv(c, s, first) && p in s.procs && p in s'.procs && Holds(s'.procs[p].at) == Holds(s.procs[p].at)
    requires s'.procs == s.procs[p := s.procs[p].(at := s'.procs[p].at)] && s'.locks == s.locks
    requires Fresh(s') && PublishedWhole(c, s') && Accounted(s', first)
    requires Knows(NameOf(c, s.procs[p].want), s'.procs[p], s'.entries, s'.works)
    requires forall q :: q in s.procs && q != p ==> Knows(NameOf(c, s.procs[q].want), s.procs[q], s'.entries, s'.works)
    ensures Inv(c, s', first)
  {
    hide Knows, Holds, Fresh, PublishedWhole, Accounted;
    assert forall q :: q in s'.procs <==> q in s.procs;
    assert forall q :: q in s.procs && q != p ==> s'.procs[q] == s.procs[q];
    assert s'.procs[p].want == s.procs[p].want;
  }

  // ---- steps that only move one run

  lemma MoveKeepsInv(c: Config, s: State, first: map<Name, Dir>, p: nat, at: Point)
    requires Inv(c, s, first) && p in s.procs && Holds(at) == Holds(s.procs[p].at)
    requires Knows(NameOf(c, s.procs[p].want), s.procs[p].(at := at), s.entries, s.works)
    ensures Inv(c, To(s, p, at), first)
  {
    hide Knows, Holds;
    Assemble(c, s, first, p, To(s, p, at));
  }

  lemma CheckedKnows(n: Name, me: Proc, entries: map<Name, Dir>, works: map<nat, Work>)
    requires (me.at.Look? || me.at.LookRuns? || me.at.LookAnswer?) && KnowsEntry(n, me, entries)
    ensures var at := Checked(n, me, entries);
            Knows(n, me.(at := at), entries, works) && Holds(at) == Holds(me.at)
  {
  }

  lemma LookKeepsInv(c: Config, s: State, first: map<Name, Dir>, p: nat)
    requires Inv(c, s, first) && p in s.procs
    requires (s.procs[p].at.Look? || s.procs[p].at.LookRuns? || s.procs[p].at.LookAnswer?)
    ensures Inv(c, To(s, p, Checked(NameOf(c, s.procs[p].want), s.procs[p], s.entries)), first)
  {
    hide Inv, Knows, KnowsEntry, KnowsWork, Holds, Checked;
    KnowsOf(c, s, first, p);
    CheckedKnows(NameOf(c, s.procs[p].want), s.procs[p], s.entries, s.works);
    MoveKeepsInv(c, s, first, p, Checked(NameOf(c, s.procs[p].want), s.procs[p], s.entries));
  }

  /** Giving up, or going on where nothing more is known. */
  lemma MovedKnows(n: Name, me: Proc, at: Point, entries: map<Name, Dir>, works: map<nat, Work>)
    requires KnowsEntry(n, me, entries) && KnowsWork(n, me, works)
    requires
      || (me.at == Sweeping && at == Making)
      || (WorkAt(me.at).Some? && at == Tidying(WorkAt(me.at).value, false))
      || (Holds(me.at) && at == Unlocking(false))
      || (me.at.Tidying? && at == Unlocking(me.at.done))
      || (me.at.Fetching? && at == Building(me.at.work))
      || (me.at.Building? && at.Copying? && at.work == me.at.work && at.built.source == me.want.commit)
    ensures Knows(n, me.(at := at), entries, works) && Holds(at) && Holds(me.at)
  {
  }

  lemma PlainMoveKeepsInv(c: Config, s: State, first: map<Name, Dir>, p: nat, at: Point)
    requires Inv(c, s, first) && p in s.procs
    requires var me := s.procs[p];
      || (me.at == Sweeping && at == Making)
      || (WorkAt(me.at).Some? && at == Tidying(WorkAt(me.at).value, false))
      || (Holds(me.at) && at == Unlocking(false))
      || (me.at.Tidying? && at == Unlocking(me.at.done))
      || (me.at.Fetching? && at == Building(me.at.work))
      || (me.at.Building? && at.Copying? && at.work == me.at.work && at.built.source == me.want.commit)
    ensures Inv(c, To(s, p, at), first)
  {
    hide Inv, Knows, KnowsEntry, KnowsWork, Holds, WorkAt;
    KnowsOf(c, s, first, p);
    MovedKnows(NameOf(c, s.procs[p].want), s.procs[p], at, s.entries, s.works);
    MoveKeepsInv(c, s, first, p, at);
  }

  // ---- steps that take or give up the lock

  lemma AtLock(n: Name, me: Proc, entries: map<Name, Dir>, works: map<nat, Work>)
    requires KnowsEntry(n, me, entries)
    ensures Knows(n, me.(at := Look(true)), entries, works) && Holds(Look(true))
    ensures !Holds(Waiting) && !Holds(Returned) && !Holds(Failed) && !Holds(Look(false))
    ensures me.at.Unlocking? ==> Holds(me.at) && Knows(n, me.(at := if me.at.done then Returned else Failed), entries,
                                                       works)
  {
  }

  lemma InvIs(c: Config, s: State, first: map<Name, Dir>)
    requires Inv(c, s, first)
    ensures Agreed(c, s) && Locked(c, s) && Fresh(s) && Knowing(c, s) && PublishedWhole(c, s) && Accounted(s, first)
  {
    hide Agreed, Locked, Fresh, Knowing, PublishedWhole, Accounted;
  }

  lemma IsInv(c: Config, s: State, first: map<Name, Dir>)
    requires Agreed(c, s) && Locked(c, s) && Fresh(s) && Knowing(c, s) && PublishedWhole(c, s) && Accounted(s, first)
    ensures Inv(c, s, first)
  {
    hide Agreed, Locked, Fresh, Knowing, PublishedWhole, Accounted;
  }

  /** One run moves and nothing else changes that a run knows of. */
  lemma OneMoves(c: Config, s: State, s': State, p: nat, at: Point)
    requires Agreed(c, s) && Knowing(c, s) && Fresh(s) && p in s.procs
    requires s'.procs == s.procs[p := s.procs[p].(at := at)]
    requires s'.entries == s.entries && s'.works == s.works && s'.next == s.next
    requires Knows(NameOf(c, s.procs[p].want), s.procs[p].(at := at), s.entries, s.works)
    ensures Agreed(c, s') && Knowing(c, s') && Fresh(s')
  {
    hide Knows, NameOf;
  }

  lemma AcquireLocked(c: Config, s: State, s': State, p: nat)
    requires Locked(c, s) && p in s.procs && s.procs[p].at == Waiting && NameOf(c, s.procs[p].want) !in s.locks
    requires s'.procs == s.procs[p := s.procs[p].(at := Look(true))]
    requires s'.locks == s.locks[NameOf(c, s.procs[p].want) := p]
    requires !Holds(Waiting) && Holds(Look(true))
    ensures Locked(c, s')
  {
    hide Holds, NameOf;
  }

  lemma AcquireKeepsInv(c: Config, s: State, first: map<Name, Dir>, p: nat)
    requires Inv(c, s, first) && p in s.procs && s.procs[p].at == Waiting
    requires Acquire(NameOf(c, s.procs[p].want), s, p).Some?
    ensures Inv(c, Acquire(NameOf(c, s.procs[p].want), s, p).value, first)
  {
    var s' := Acquire(NameOf(c, s.procs[p].want), s, p).value;
    hide Inv, Agreed, Locked, Fresh, Knowing, Knows, KnowsEntry, KnowsWork, Holds, PublishedWhole, Accounted, NameOf;
    InvIs(c, s, first);
    KnowsOf(c, s, first, p);
    AtLock(NameOf(c, s.procs[p].want), s.procs[p], s.entries, s.works);
    OneMoves(c, s, s', p, Look(true));
    AcquireLocked(c, s, s', p);
    SameEntries(c, s, s', first);
    IsInv(c, s', first);
  }

  lemma SameEntries(c: Config, s: State, s': State, first: map<Name, Dir>)
    requires PublishedWhole(c, s) && Accounted(s, first) && s'.entries == s.entries && s'.published == s.published
    ensures PublishedWhole(c, s') && Accounted(s', first)
  {
  }

  lemma ReleaseLocked(c: Config, s: State, s': State, p: nat, at: Point)
    requires Locked(c, s) && p in s.procs && Holds(s.procs[p].at) && !Holds(at)
    requires s'.procs == s.procs[p := s.procs[p].(at := at)] && s'.locks == s.locks - {NameOf(c, s.procs[p].want)}
    ensures Locked(c, s')
  {
    hide Holds, NameOf;
    forall q | q in s'.procs && Holds(s'.procs[q].at) && NameOf(c, s.procs[q].want) == NameOf(c, s.procs[p].want)
      ensures false
    {
      OneInside(c, s, p, q);
    }
  }

  lemma ReleaseKeepsInv(c: Config, s: State, first: map<Name, Dir>, p: nat)
    requires Inv(c, s, first) && p in s.procs && s.procs[p].at.Unlocking?
    ensures Inv(c, Release(NameOf(c, s.procs[p].want), s, p), first)
  {
    var s' := Release(NameOf(c, s.procs[p].want), s, p);
    hide Inv, Agreed, Locked, Fresh, Knowing, Knows, KnowsEntry, KnowsWork, Holds, PublishedWhole, Accounted, NameOf;
    InvIs(c, s, first);
    KnowsOf(c, s, first, p);
    AtLock(NameOf(c, s.procs[p].want), s.procs[p], s.entries, s.works);
    OneMoves(c, s, s', p, s'.procs[p].at);
    ReleaseLocked(c, s, s', p, s'.procs[p].at);
    SameEntries(c, s, s', first);
    IsInv(c, s', first);
  }

  lemma CrashKeepsInv(c: Config, s: State, first: map<Name, Dir>, p: nat)
    requires Inv(c, s, first) && p in s.procs
    ensures Inv(c, Crashed(s, p), first)
  {
    hide Knows, Holds, PublishedWhole, Accounted, NameOf;
    var s' := Crashed(s, p);
    assert forall q :: q in s'.procs <==> q in s.procs && q != p;
    assert forall q :: q in s'.procs ==> s'.procs[q] == s.procs[q];
    SameEntries(c, s, s', first);
    assert Locked(c, s');
  }

  lemma StartLocked(c: Config, s: State, s': State, p: nat, me: Proc)
    requires Locked(c, s) && p !in s.procs && s'.procs == s.procs[p := me] && s'.locks == s.locks && !Holds(me.at)
    ensures Locked(c, s')
  {
    hide Holds, NameOf;
  }

  lemma StartKnows(c: Config, s: State, s': State, p: nat, me: Proc)
    requires Agreed(c, s) && Knowing(c, s) && Fresh(s) && p !in s.procs && s'.procs == s.procs[p := me]
    requires s'.entries == s.entries && s'.works == s.works && s'.next == s.next
    requires me.want == c.asked(NameOf(c, me.want)) && Knows(NameOf(c, me.want), me, s.entries, s.works)
    ensures Agreed(c, s') && Knowing(c, s') && Fresh(s')
  {
    hide Knows, NameOf;
  }

  lemma AtStart(n: Name, want: Manifest, unpinned: bool, entries: map<Name, Dir>, works: map<nat, Work>)
    ensures Knows(n, Proc(want, unpinned, Look(false)), entries, works) && !Holds(Look(false))
  {
  }

  lemma StartKeepsInv(c: Config, s: State, first: map<Name, Dir>, p: nat, want: Manifest, unpinned: bool)
    requires Inv(c, s, first) && p !in s.procs && want == c.asked(NameOf(c, want))
    ensures Inv(c, Apply(c, s, Start(p, want, unpinned)).value, first)
  {
    var me := Proc(want, unpinned, Look(false));
    var s' := s.(procs := s.procs[p := me]);
    assert Apply(c, s, Start(p, want, unpinned)) == Some(s');
    hide *;
    InvIs(c, s, first);
    AtStart(NameOf(c, want), want, unpinned, s.entries, s.works);
    StartKnows(c, s, s', p, me);
    StartLocked(c, s, s', p, me);
    SameEntries(c, s, s', first);
    IsInv(c, s', first);
  }

  // ---- steps that change an entry

  /** An entry that is not valid loses files, goes, or is replaced by a valid one. */
  ghost predicate Unusable(n: Name, want: Manifest, before: map<Name, Dir>, after: map<Name, Dir>) {
    && (forall k :: k != n ==> (k in after <==> k in before) && (k in after ==> after[k] == before[k]))
    && (n in before ==> !ValidEntry(before[n], want))
    && (n in after && Good(after[n].q) ==> ValidEntry(after[n], want) || (n in before && Good(before[n].q)))
  }

  /** What a run outside the lock knows survives such a change. */
  lemma OutsideStillKnows(n: Name, me: Proc, before: map<Name, Dir>, after: map<Name, Dir>)
    requires Unusable(n, me.want, before, after) && KnowsEntry(n, me, before) && !Holds(me.at)
    ensures KnowsEntry(n, me, after)
  {
  }

  lemma ElsewhereStillKnows(n: Name, k: Name, want: Manifest, me: Proc, before: map<Name, Dir>, after: map<Name, Dir>)
    requires Unusable(n, want, before, after) && k != n && KnowsEntry(k, me, before)
    ensures KnowsEntry(k, me, after)
  {
  }

  lemma OthersStillKnow(c: Config, s: State, first: map<Name, Dir>, p: nat, q: nat, entries: map<Name, Dir>)
    requires Inv(c, s, first) && p in s.procs && q in s.procs && p != q && Holds(s.procs[p].at)
    requires Unusable(NameOf(c, s.procs[p].want), s.procs[p].want, s.entries, entries)
    ensures KnowsEntry(NameOf(c, s.procs[q].want), s.procs[q], entries)
  {
    KnowsOf(c, s, first, p);
    KnowsOf(c, s, first, q);
    hide KnowsEntry, KnowsWork, Holds, Unusable, PublishedWhole, Accounted, Knowing;
    var n, k := NameOf(c, s.procs[p].want), NameOf(c, s.procs[q].want);
    if k == n {
      if Holds(s.procs[q].at) {
        OneInside(c, s, p, q);
      }
      OutsideStillKnows(n, s.procs[q], s.entries, entries);
    } else {
      ElsewhereStillKnows(n, k, s.procs[p].want, s.procs[q], s.entries, entries);
    }
  }

  /** A step inside the lock that changes an unusable entry. */
  lemma EntryKeepsInv(c: Config, s: State, first: map<Name, Dir>, p: nat, s': State)
    requires Inv(c, s, first) && p in s.procs && p in s'.procs && Holds(s.procs[p].at) && Holds(s'.procs[p].at)
    requires s'.procs == s.procs[p := s.procs[p].(at := s'.procs[p].at)] && s'.locks == s.locks
    requires s'.works == s.works && s'.next == s.next
    requires Unusable(NameOf(c, s.procs[p].want), s.procs[p].want, s.entries, s'.entries)
    requires PublishedWhole(c, s') && Accounted(s', first)
    requires Knows(NameOf(c, s.procs[p].want), s'.procs[p], s'.entries, s'.works)
    ensures Inv(c, s', first)
  {
    hide KnowsEntry, KnowsWork, Holds, Unusable, PublishedWhole, Accounted;
    forall q | q in s.procs && q != p ensures Knows(NameOf(c, s.procs[q].want), s.procs[q], s'.entries, s'.works) {
      KnowsOf(c, s, first, q);
      OthersStillKnow(c, s, first, p, q, s'.entries);
    }
    hide Knows;
    Assemble(c, s, first, p, s');
  }

  /** What is not valid was not published by a run. */
  lemma UnusableNotPublished(c: Config, s: State, first: map<Name, Dir>, p: nat)
    requires Inv(c, s, first) && p in s.procs
    requires var n := NameOf(c, s.procs[p].want); n in s.entries ==> !ValidEntry(s.entries[n], s.procs[p].want)
    ensures NameOf(c, s.procs[p].want) !in s.published
  {
    KnowsOf(c, s, first, p);
    hide KnowsEntry, KnowsWork, Knowing, Locked, Accounted, ValidEntry;
  }

  lemma RemainingKnows(n: Name, me: Proc, entries: map<Name, Dir>, works: map<nat, Work>, manifest: bool)
    requires KnowsEntry(n, me, entries) && me.at == Discarding && n in entries
    ensures var after := entries[n := Remaining(entries[n], manifest)];
            Unusable(n, me.want, entries, after) && Knows(n, me, after, works) && LeftOf(after[n], entries[n]) &&
              Holds(me.at)
    ensures !ValidEntry(entries[n], me.want)
  {
  }

  lemma RemoveKeepsInv(c: Config, s: State, first: map<Name, Dir>, p: nat, manifest: bool)
    requires Inv(c, s, first) && p in s.procs && s.procs[p].at == Discarding && NameOf(c, s.procs[p].want) in s.entries
    ensures Inv(c, Removed(s, NameOf(c, s.procs[p].want), manifest), first)
  {
    var n := NameOf(c, s.procs[p].want);
    var s' := Removed(s, n, manifest);
    hide Unusable, Knows, KnowsEntry, KnowsWork, PublishedWhole, Accounted, Holds, ValidEntry, LeftOf, Remaining;
    KnowsOf(c, s, first, p);
    RemainingKnows(n, s.procs[p], s.entries, s.works, manifest);
    UnusableNotPublished(c, s, first, p);
    RemovedAccounted(c, s, first, n, s');
    assert s'.procs == s.procs[p := s.procs[p].(at := s'.procs[p].at)];
    hide Inv;
    EntryKeepsInv(c, s, first, p, s');
  }

  lemma RemovedAccounted(c: Config, s: State, first: map<Name, Dir>, n: Name, s': State)
    requires PublishedWhole(c, s) && Accounted(s, first) && n !in s.published && s'.published == s.published
    requires forall k :: k != n ==>
               (k in s'.entries <==> k in s.entries) && (k in s.entries ==> s'.entries[k] == s.entries[k])
    requires n in s'.entries ==> n in s.entries && LeftOf(s'.entries[n], s.entries[n])
    ensures PublishedWhole(c, s') && Accounted(s', first)
  {
    hide ValidEntry, BuiltFrom;
  }

  lemma DiscardedKnows(n: Name, me: Proc, entries: map<Name, Dir>, works: map<nat, Work>)
    requires KnowsEntry(n, me, entries) && me.at == Discarding
    ensures var after := entries - {n};
            Unusable(n, me.want, entries, after) && Knows(n, me.(at := Sweeping), after, works) && Holds(me.at) &&
              Holds(Sweeping)
    ensures n in entries ==> !ValidEntry(entries[n], me.want)
  {
  }

  lemma DiscardedKeepsInv(c: Config, s: State, first: map<Name, Dir>, p: nat)
    requires Inv(c, s, first) && p in s.procs && s.procs[p].at == Discarding
    requires Discarded(NameOf(c, s.procs[p].want), s, p).Some?
    ensures Inv(c, Discarded(NameOf(c, s.procs[p].want), s, p).value, first)
  {
    var n := NameOf(c, s.procs[p].want);
    var s' := Discarded(n, s, p).value;
    hide Unusable, Knows, KnowsEntry, KnowsWork, PublishedWhole, Accounted, Holds, ValidEntry, LeftOf;
    KnowsOf(c, s, first, p);
    DiscardedKnows(n, s.procs[p], s.entries, s.works);
    UnusableNotPublished(c, s, first, p);
    RemovedAccounted(c, s, first, n, s');
    hide Inv;
    EntryKeepsInv(c, s, first, p, s');
  }

  // ---- steps that change a build directory

  /** Changing its own build directory takes nothing from another run. */
  lemma WorkKeepsInv(c: Config, s: State, first: map<Name, Dir>, p: nat, at: Point, works: map<nat, Work>)
    requires Inv(c, s, first) && p in s.procs && Holds(at) && WorkAt(s.procs[p].at).Some?
    requires forall w :: Some(w) != WorkAt(s.procs[p].at) ==>
               (w in works <==> w in s.works) && (w in works ==> works[w] == s.works[w])
    requires forall w :: w in works ==> w in s.works
    requires Knows(NameOf(c, s.procs[p].want), s.procs[p].(at := at), s.entries, works)
    ensures Inv(c, To(s, p, at).(works := works), first)
  {
    var s' := To(s, p, at).(works := works);
    BuildersHold(s.procs[p].at);
    hide KnowsEntry, Knows, Holds;
    forall q | q in s.procs && q != p ensures Knows(NameOf(c, s.procs[q].want), s.procs[q], s.entries, works) {
      KnowsOf(c, s, first, q);
      OwnWorks(c, s, first, p, q);
      WorkUntouched(NameOf(c, s.procs[q].want), s.procs[q], s.entries, s.works, works);
    }
    hide KnowsWork;
    Assemble(c, s, first, p, s');
  }

  lemma WorkUntouched(n: Name, me: Proc, entries: map<Name, Dir>, before: map<nat, Work>, after: map<nat, Work>)
    requires KnowsEntry(n, me, entries) && KnowsWork(n, me, before)
    requires WorkAt(me.at).Some? ==>
               WorkAt(me.at).value in after && after[WorkAt(me.at).value] == before[WorkAt(me.at).value]
    ensures Knows(n, me, entries, after)
  {
    hide KnowsEntry;
  }

  lemma MakeKeepsInv(c: Config, s: State, first: map<Name, Dir>, p: nat)
    requires Inv(c, s, first) && p in s.procs && s.procs[p].at == Making
    ensures Inv(c, Make(NameOf(c, s.procs[p].want), s, p), first)
  {
    KnowsOf(c, s, first, p);
    var s' := Make(NameOf(c, s.procs[p].want), s, p);
    assert Knows(NameOf(c, s.procs[p].want), s'.procs[p], s'.entries, s'.works);
    assert Holds(s'.procs[p].at) && Holds(s.procs[p].at);
    assert s'.procs == s.procs[p := s.procs[p].(at := s'.procs[p].at)] && s'.locks == s.locks;
    assert s'.entries == s.entries;
    assert s'.works == s.works[s.next := Work(NameOf(c, s.procs[p].want), None)];
    hide KnowsEntry, Holds, Knows;
    forall q | q in s.procs && q != p ensures Knows(NameOf(c, s.procs[q].want), s.procs[q], s'.entries, s'.works) {
      KnowsOf(c, s, first, q);
      WorkUntouched(NameOf(c, s.procs[q].want), s.procs[q], s.entries, s.works, s'.works);
    }
    hide KnowsWork;
    Assemble(c, s, first, p, s');
  }

  /** A run that sweeps is inside the lock, so no other run of its entry builds. */
  lemma SweptIsIdle(c: Config, s: State, p: nat, w: nat, q: nat)
    requires Locked(c, s) && Apply(c, s, Sweep(p, w)).Some? && q in s.procs
    requires KnowsWork(NameOf(c, s.procs[q].want), s.procs[q], s.works)
    ensures WorkAt(s.procs[q].at) != Some(w)
  {
    assert Holds(s.procs[p].at);
    assert WorkAt(s.procs[p].at) == None;
    if WorkAt(s.procs[q].at) == Some(w) {
      BuildersHold(s.procs[q].at);
      OneInside(c, s, p, q);
    }
  }

  lemma SweepKeepsInv(c: Config, s: State, first: map<Name, Dir>, p: nat, w: nat)
    requires Inv(c, s, first) && Apply(c, s, Sweep(p, w)).Some?
    ensures Inv(c, Apply(c, s, Sweep(p, w)).value, first)
  {
    hide Knows, Holds;
    var s' := Apply(c, s, Sweep(p, w)).value;
    forall q | q in s.procs ensures Knows(NameOf(c, s.procs[q].want), s.procs[q], s'.entries, s'.works) {
      KnowsOf(c, s, first, q);
      SweptIsIdle(c, s, p, w, q);
      hide KnowsEntry;
      WorkUntouched(NameOf(c, s.procs[q].want), s.procs[q], s.entries, s.works, s'.works);
    }
    assert s'.procs == s.procs[p := s.procs[p].(at := s'.procs[p].at)];
    Assemble(c, s, first, p, s');
  }

  // ---- publishing

  lemma AtPublish(n: Name, me: Proc, entries: map<Name, Dir>, works: map<nat, Work>)
    requires KnowsEntry(n, me, entries) && KnowsWork(n, me, works) && me.at.Publishing?
    ensures n !in entries && me.at.work in works && works[me.at.work].name == n && works[me.at.work].out.Some?
    ensures var w := me.at.work;
            var out := works[w].out.value;
            var tidying := me.(at := Tidying(w, true));
            && ValidEntry(out, me.want) && BuiltFrom(out, me.want.commit)
            && Unusable(n, me.want, entries, entries[n := out])
            && Knows(n, tidying, entries[n := out], works) &&
              Knows(n, tidying, entries[n := out], works[w := Work(n, None)])
            && WorkAt(tidying.at) == Some(w) && Holds(tidying.at) && Holds(me.at)
  {
  }

  /** The build directory's output becomes the entry: two changes in one step. */
  lemma PublishKeepsInv(c: Config, s: State, first: map<Name, Dir>, p: nat)
    requires Inv(c, s, first) && p in s.procs && s.procs[p].at.Publishing?
    ensures var s' := Publish(NameOf(c, s.procs[p].want), s, p); s'.Some? && Inv(c, s'.value, first)
  {
    hide Unusable, Knows, KnowsEntry, KnowsWork, PublishedWhole, Accounted, Holds, Inv, WorkAt, ValidEntry, BuiltFrom;
    KnowsOf(c, s, first, p);
    var n := NameOf(c, s.procs[p].want);
    AtPublish(n, s.procs[p], s.entries, s.works);
    UnusableNotPublished(c, s, first, p);
    var w := s.procs[p].at.work;
    var out := s.works[w].out.value;
    var mid := To(s, p, Tidying(w, true)).(entries := s.entries[n := out], published := s.published[n := 1]);
    var works := s.works[w := Work(n, None)];
    assert Publish(n, s, p) == Some(mid.(works := works));
    PublishedAccounted(c, s, first, n, out, mid);
    EntryKeepsInv(c, s, first, p, mid);
    assert To(mid, p, Tidying(w, true)) == mid;
    WorkKeepsInv(c, mid, first, p, Tidying(w, true), works);
  }

  lemma PublishedAccounted(c: Config, s: State, first: map<Name, Dir>, n: Name, out: Dir, s': State)
    requires Inv(c, s, first) && ValidEntry(out, c.asked(n)) && BuiltFrom(out, c.asked(n).commit)
    requires s'.entries == s.entries[n := out] && s'.published == s.published[n := 1]
    ensures PublishedWhole(c, s') && Accounted(s', first)
  {
    hide ValidEntry, BuiltFrom, Locked, Knowing, Fresh;
  }

  lemma OutputKnows(n: Name, me: Proc, entries: map<Name, Dir>, works: map<nat, Work>)
    requires KnowsEntry(n, me, entries) && KnowsWork(n, me, works) && (me.at.Copying? || me.at.Asking? || me.at.Noting?)
    ensures me.at.work in works && works[me.at.work].name == n && WorkAt(me.at) == Some(me.at.work)
    ensures var r := Output(me, works[me.at.work].out);
            r.Some? && Holds(r.value.0) && Knows(n, me.(at := r.value.0), entries,
                                                 works[me.at.work := Work(n, r.value.1)])
  {
  }

  lemma OutputKeepsInv(c: Config, s: State, first: map<Name, Dir>, p: nat)
    requires Inv(c, s, first) && p in s.procs
    requires (s.procs[p].at.Copying? || s.procs[p].at.Asking? || s.procs[p].at.Noting?)
    ensures Work1(s, p).Some? && Inv(c, Work1(s, p).value, first)
  {
    hide Inv, Knows, KnowsEntry, KnowsWork, Holds, WorkAt, Output;
    KnowsOf(c, s, first, p);
    OutputKnows(NameOf(c, s.procs[p].want), s.procs[p], s.entries, s.works);
    var w := s.procs[p].at.work;
    var r := Output(s.procs[p], s.works[w].out);
    WorkKeepsInv(c, s, first, p, r.value.0, s.works[w := Work(s.works[w].name, r.value.1)]);
  }

  lemma TidiedKnows(n: Name, me: Proc, entries: map<Name, Dir>, works: map<nat, Work>)
    requires KnowsEntry(n, me, entries) && me.at.Tidying?
    ensures Knows(n, me.(at := Unlocking(me.at.done)), entries, works - {me.at.work}) && Holds(Unlocking(me.at.done))
    ensures WorkAt(me.at) == Some(me.at.work)
  {
  }

  lemma TidyKeepsInv(c: Config, s: State, first: map<Name, Dir>, p: nat)
    requires Inv(c, s, first) && p in s.procs && s.procs[p].at.Tidying?
    ensures Inv(c, To(s, p, Unlocking(s.procs[p].at.done)).(works := s.works - {s.procs[p].at.work}), first)
  {
    hide Inv, Knows, KnowsEntry, KnowsWork, Holds, WorkAt;
    KnowsOf(c, s, first, p);
    TidiedKnows(NameOf(c, s.procs[p].want), s.procs[p], s.entries, s.works);
    WorkKeepsInv(c, s, first, p, Unlocking(s.procs[p].at.done), s.works - {s.procs[p].at.work});
  }

  lemma GoKeepsInv(c: Config, s: State, first: map<Name, Dir>, p: nat)
    requires Inv(c, s, first) && p in s.procs && Go1(c, s, p).Some?
    ensures Inv(c, Go1(c, s, p).value, first)
  {
    hide Inv, Checked, Acquire, Release, Discarded, Make, Work1, Publish, Holds, WorkAt;
    match s.procs[p].at
    case Look(_) => LookKeepsInv(c, s, first, p);
    case LookRuns(_) => LookKeepsInv(c, s, first, p);
    case LookAnswer(_) => LookKeepsInv(c, s, first, p);
    case Waiting => AcquireKeepsInv(c, s, first, p);
    case Discarding => DiscardedKeepsInv(c, s, first, p);
    case Sweeping => PlainMoveKeepsInv(c, s, first, p, Making);
    case Making => MakeKeepsInv(c, s, first, p);
    case Copying(_, _) => OutputKeepsInv(c, s, first, p);
    case Asking(_) => OutputKeepsInv(c, s, first, p);
    case Noting(_) => OutputKeepsInv(c, s, first, p);
    case Publishing(_) => PublishKeepsInv(c, s, first, p);
    case Tidying(_, _) => TidyKeepsInv(c, s, first, p);
    case Unlocking(_) => ReleaseKeepsInv(c, s, first, p);
  }

  /** What one run does about something outside: a fetch, a build, an error. */
  lemma ErrandKeepsInv(c: Config, s: State, first: map<Name, Dir>, a: Action)
    requires Inv(c, s, first) && Apply(c, s, a).Some? && (a.Fetched? || a.Built? || a.Trip? || a.Leave?)
    ensures Inv(c, Apply(c, s, a).value, first)
  {
    hide Inv, Holds, WorkAt;
    var at := s.procs[a.p].at;
    match a
    case Fetched(p, head) =>
      AtWork(at);
      PlainMoveKeepsInv(c, s, first, p, if head == s.procs[p].want.commit then Building(at.work)
                        else Tidying(at.work, false));
    case Built(p, b) => PlainMoveKeepsInv(c, s, first, p, Copying(at.work, b));
    case Trip(p) => PlainMoveKeepsInv(c, s, first, p, if WorkAt(at).Some? then Tidying(WorkAt(at).value, false)
                                      else Unlocking(false));
    case Leave(p) => PlainMoveKeepsInv(c, s, first, p, Unlocking(at.done));
  }

  lemma AtWork(at: Point)
    requires at.Fetching?
    ensures WorkAt(at) == Some(at.work)
  {
  }

  /** Every step of every run, and every crash, keeps the invariant. */
  lemma StepKeepsInv(c: Config, s: State, first: map<Name, Dir>, a: Action)
    requires Inv(c, s, first) && Apply(c, s, a).Some? && Agreed(c, Apply(c, s, a).value)
    ensures Inv(c, Apply(c, s, a).value, first)
  {
    if a.Start? {
      assert Apply(c, s, a).value.procs[a.p].want == a.want;
      StartKeepsInv(c, s, first, a.p, a.want, a.unpinned);
    } else if a.Go? {
      GoKeepsInv(c, s, first, a.p);
    } else if a.RemoveFile? || a.Crash? {
      hide Inv, Removed, Crashed;
      match a
      case RemoveFile(p, manifest) => RemoveKeepsInv(c, s, first, p, manifest);
      case Crash(p) => CrashKeepsInv(c, s, first, p);
    } else {
      hide Inv, Apply;
      match a
      case Sweep(p, w) => SweepKeepsInv(c, s, first, p, w);
      case _ => ErrandKeepsInv(c, s, first, a);
    }
  }

  // ---- runs of steps

  function RunAll(c: Config, s: State, actions: seq<Action>): Option<State> {
    if actions == [] then Some(s)
    else
      var before := RunAll(c, s, actions[..|actions| - 1]);
      if before.None? then None else Apply(c, before.value, actions[|actions| - 1])
  }

  lemma OneMore(c: Config, s: State, actions: seq<Action>, a: Action)
    ensures var before := RunAll(c, s, actions);
            RunAll(c, s, actions + [a]) == if before.None? then None else Apply(c, before.value, a)
  {
    assert (actions + [a])[..|actions|] == actions;
  }

  // ---- what a usable entry is safe from

  /** A usable entry is never touched: no step discards, changes or republishes it. */
  lemma ValidEntryStays(c: Config, s: State, first: map<Name, Dir>, a: Action, n: Name)
    requires Inv(c, s, first) && Apply(c, s, a).Some? && n in s.entries && ValidEntry(s.entries[n], c.asked(n))
    ensures var s' := Apply(c, s, a).value;
            n in s'.entries && s'.entries[n] == s.entries[n]
            && (n in s'.published <==> n in s.published) && (n in s.published ==> s'.published[n] == s.published[n])
  {
    hide Inv, ValidEntry, KnowsEntry, Holds, WorkAt, Checked, Acquire, Release, Make, Work1;
    if a.p in s.procs {
      KnowsOf(c, s, first, a.p);
      if s.procs[a.p].at == Discarding || s.procs[a.p].at.Publishing? {
        InsideNotValid(NameOf(c, s.procs[a.p].want), s.procs[a.p], s.entries);
      } else if a.Go? {
        OnlyTheseChange(c, s, a.p);
      }
    }
  }

  /** A run that may touch the entry knows that it is not valid. */
  lemma InsideNotValid(n: Name, me: Proc, entries: map<Name, Dir>)
    requires KnowsEntry(n, me, entries) && (me.at == Discarding || me.at.Publishing?)
    ensures n in entries ==> !ValidEntry(entries[n], me.want)
  {
  }

  lemma OnlyTheseChange(c: Config, s: State, p: nat)
    requires p in s.procs && Go1(c, s, p).Some? && s.procs[p].at != Discarding && !s.procs[p].at.Publishing?
    ensures Go1(c, s, p).value.entries == s.entries && Go1(c, s, p).value.published == s.published
  {
  }

  // ---- where runs do not agree

  /** An entry's name leaves out the repository and the make target: unless two
      runs' options collide, it stands for one build exactly when they agree on those. */
  lemma NameStandsForOneBuild(c: Config, a: Manifest, b: Manifest)
    requires NameOf(c, a) == NameOf(c, b) && (c.digest(a.options) == c.digest(b.options) ==> a.options == b.options)
    ensures a == b <==> a.repository == b.repository && a.makeTarget == b.makeTarget
  {
  }
}
