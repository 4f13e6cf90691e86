module Bounds {

  /** A finite set of integers has a positive strict upper bound. */
  lemma {:induction false} UpperBound(xs: set<int>) returns (m: int)
    ensures m > 0 && forall y :: y in xs ==> y < m
  {
    if x :| x in xs {
      var k := UpperBound(xs - {x});
      m := if x < k then k else x + 1;
      assert forall y :: y in xs ==> y == x || y in xs - {x};
    } else {
      m := 1;
    }
  }
}

/**
 The cold-start lock of the hub daemon and the locked section it protects, as a transition system.

 Any number of `up` processes run `lcAcquireLock` and then `daemonUpForKey`.  Every file operation
 (exclusive create, read, unlink) and every staleness verdict is one step of its own, so that the
 windows between reading a lock, probing its owner and removing it are visible.  What is assumed of
 the environment is stated in `Enabled`:
   - an exclusive create writes the whole stamp in the same step;
   - pids are not reused (`Start` takes a pid no process or file carries);
   - a live holder or breaker finishes within STALE_MS (`Timely`, which bounds `Tick`);
   - nobody dies while it holds the break-mutex (`Crash`).
 */
module ColdStart {

  import opened Bounds
  import opened Options

  const STALE_MS: int := 30000
  const TOTAL_MS: int := 60000
  const MAX_TRIES: nat := 64

  /** A lock file: missing, unreadable (the reader gets null either way), or stamped by its creator. */
  datatype File = Absent | Corrupt | Stamp(pid: int, at: int)

  /** Where a process is inside the locked section of `daemonUpForKey`. */
  datatype Section =
    | ReadRun
    | StopOld(wedged: int)
    | Walk(i: nat)
    | Probe(i: nat, child: int)
    | Reap(i: nat, child: int, walkOn: bool)
    | Record(child: int)

  /** Program counter.  `sound` in Rejudge is a history variable: it plays no part in the verdict. */
  datatype Pc =
    | TryCreate
    | ReadLock
    | JudgeLock(h: File)
    | TryBreak
    | Reread
    | Rejudge(h: File, sound: bool)
    | Unlink
    | ReadOwnBreak
    | UnlinkOwnBreak
    | ReadBreak
    | JudgeBreak(h: File)
    | UnlinkBreak
    | Holding(section: Section)
    | ReadOwnLock
    | UnlinkOwnLock
    | Done
    | Failed

  datatype Proc = Proc(pc: Pc, deadline: int, alive: bool)

  datatype State = State(
    now: int,
    lf: File,
    bf: File,
    procs: map<int, Proc>,
    run: Option<int>,
    daemons: set<int>)

  /** How the environment answers the step a process takes inside the locked section; pinned: the port was set explicitly. */
  datatype Choice = Go | Reuse | Replace | Fresh | Skip | Spawn(child: int) | SpawnFails | Mine | Foreign(pinned: bool) | ChildDead | Timeout

  datatype Event =
    | Tick(ms: nat)
    | Start(p: int)
    | Crash(p: int)
    | Throw(p: int)
    | DaemonDies(d: int)
    | Step(p: int, c: Choice)

  // ----- reading a state

  predicate Alive(s: State, p: int) {
    p in s.procs && s.procs[p].alive
  }

  predicate Owned(f: File, p: int) {
    f.Stamp? && f.pid == p
  }

  /** The `isStale` closure: null, dead owner, or older than staleMs. */
  predicate IsStale(s: State, h: File) {
    match h
    case Absent => true
    case Corrupt => true
    case Stamp(q, at) => !Alive(s, q) || s.now - at > STALE_MS
  }

  /** A lock that is on disk and whose creator is no longer running. */
  predicate Ownerless(s: State, f: File) {
    f.Corrupt? || (f.Stamp? && !Alive(s, f.pid))
  }

  predicate InSection(pc: Pc) {
    pc.Holding? || pc.ReadOwnLock? || pc.UnlinkOwnLock?
  }

  predicate InBreak(pc: Pc) {
    pc.Reread? || pc.Rejudge? || pc.Unlink? || pc.ReadOwnBreak? || pc.UnlinkOwnBreak?
  }

  predicate OwnsUnrecordedChild(pc: Pc) {
    pc.Holding? && (pc.section.Probe? || pc.section.Reap? || pc.section.Record?)
  }

  /** p has acquired the lock and not yet released it, and is running. */
  predicate Holds(s: State, p: int) {
    Alive(s, p) && InSection(s.procs[p].pc)
  }

  ghost predicate MutuallyExclusive(s: State) {
    forall p, q :: Holds(s, p) && Holds(s, q) ==> p == q
  }

  // ----- the steps

  function At(s: State, p: int, pc: Pc): State
    requires p in s.procs
  {
    s.(procs := s.procs[p := s.procs[p].(pc := pc)])
  }

  /** After a wait: give up past the deadline, otherwise go round again. */
  function WaitOrGiveUp(s: State, p: int): State
    requires p in s.procs
  {
    At(s, p, if s.now < s.procs[p].deadline then TryCreate else Failed)
  }

  /** One step of lcAcquireLock or of the release closure. */
  function LockStep(s: State, p: int): State
    requires Alive(s, p)
  {
    match s.procs[p].pc
    case TryCreate =>
      if s.lf.Absent? then At(s.(lf := Stamp(p, s.now)), p, Holding(ReadRun)) else At(s, p, ReadLock)
    case ReadLock => At(s, p, JudgeLock(s.lf))
    case JudgeLock(h) => if IsStale(s, h) then At(s, p, TryBreak) else WaitOrGiveUp(s, p)
    case TryBreak =>
      if s.bf.Absent? then At(s.(bf := Stamp(p, s.now)), p, Reread) else At(s, p, ReadBreak)
    case Reread => At(s, p, Rejudge(s.lf, Ownerless(s, s.lf)))
    case Rejudge(h, _) => At(s, p, if IsStale(s, h) then Unlink else ReadOwnBreak)
    case Unlink => At(s.(lf := Absent), p, ReadOwnBreak)
    case ReadOwnBreak => At(s, p, if Owned(s.bf, p) then UnlinkOwnBreak else TryCreate)
    case UnlinkOwnBreak => At(s.(bf := Absent), p, TryCreate)
    case ReadBreak => At(s, p, JudgeBreak(s.bf))
    case JudgeBreak(h) => if IsStale(s, h) then At(s, p, UnlinkBreak) else WaitOrGiveUp(s, p)
    case UnlinkBreak => At(s.(bf := Absent), p, TryCreate)
    case ReadOwnLock => At(s, p, if Owned(s.lf, p) then UnlinkOwnLock else Done)
    case UnlinkOwnLock => At(s.(lf := Absent), p, Done)
    case _ => s
  }

  /** Which answers the environment can give at a point of the locked section. */
  predicate Answers(s: State, section: Section, c: Choice) {
    match section
    case ReadRun =>
      var up := s.run.Some? && s.run.value in s.daemons;
      if up then c.Reuse? || c.Replace? else c.Fresh?
    case Walk(i) =>
      if i >= MAX_TRIES then c.Go?
      else c.Skip? || c.SpawnFails? || (c.Spawn? && c.child !in s.daemons && s.run != Some(c.child))
    case Probe(_, child) =>
      c.Mine? || c.Foreign? || c.Timeout? || (c.ChildDead? && child !in s.daemons)
    case _ => c.Go?
  }

  /** One step of the locked section: decide on the recorded daemon, then walk the ports. */
  function SectionStep(s: State, p: int, section: Section, c: Choice): State
    requires Alive(s, p) && Answers(s, section, c)
  {
    match section
    case ReadRun =>
      if c.Reuse? then At(s, p, ReadOwnLock)
      else if c.Replace? then At(s, p, Holding(StopOld(s.run.value)))
      else At(s, p, Holding(Walk(0)))
    case StopOld(d) => At(s.(daemons := s.daemons - {d}), p, Holding(Walk(0)))
    case Walk(i) =>
      if c.Skip? then At(s, p, Holding(Walk(i + 1)))
      else if c.Spawn? then At(s.(daemons := s.daemons + {c.child}), p, Holding(Probe(i, c.child)))
      else At(s, p, ReadOwnLock)
    case Probe(i, child) =>
      At(s, p, Holding(if c.Mine? then Record(child) else Reap(i, child, c.ChildDead? || (c.Foreign? && !c.pinned))))
    case Reap(i, child, walkOn) =>
      At(s.(daemons := s.daemons - {child}), p, if walkOn then Holding(Walk(i + 1)) else ReadOwnLock)
    case Record(child) => At(s.(run := Some(child)), p, ReadOwnLock)
  }

  /** Nobody who is running holds the lock, or the break-mutex, for longer than STALE_MS. */
  ghost predicate Timely(s: State, now: int) {
    && (forall p :: Holds(s, p) && Owned(s.lf, p) ==> now - s.lf.at <= STALE_MS)
    && (forall p :: Alive(s, p) && InBreak(s.procs[p].pc) && Owned(s.bf, p) ==> now - s.bf.at <= STALE_MS)
  }

  ghost predicate Enabled(s: State, e: Event) {
    match e
    case Tick(ms) => Timely(s, s.now + ms)
    case Start(p) => p > 0 && p !in s.procs && !Owned(s.lf, p) && !Owned(s.bf, p)
    case Crash(p) => Alive(s, p) && !InBreak(s.procs[p].pc)
    case Throw(p) => Alive(s, p) && s.procs[p].pc.Holding?
    case DaemonDies(d) => d in s.daemons
    case Step(p, c) => Alive(s, p) && (s.procs[p].pc.Holding? ==> Answers(s, s.procs[p].pc.section, c))
  }

  ghost function Next(s: State, e: Event): State
    requires Enabled(s, e)
  {
    match e
    case Tick(ms) => s.(now := s.now + ms)
    case Start(p) => s.(procs := s.procs[p := Proc(TryCreate, s.now + TOTAL_MS, true)])
    case Crash(p) => s.(procs := s.procs[p := s.procs[p].(alive := false)])
    case Throw(p) => At(s, p, ReadOwnLock)
    case DaemonDies(d) => s.(daemons := s.daemons - {d})
    case Step(p, c) =>
      if s.procs[p].pc.Holding? then SectionStep(s, p, s.procs[p].pc.section, c) else LockStep(s, p)
  }

  // ----- runs

  ghost predicate Run(s: State, es: seq<Event>)
    decreases |es|
  {
    es == [] || (Enabled(s, es[0]) && Run(Next(s, es[0]), es[1..]))
  }

  ghost function After(s: State, es: seq<Event>): State
    requires Run(s, es)
    decreases |es|
  {
    if es == [] then s else After(Next(s, es[0]), es[1..])
  }

  ghost predicate Initial(s: State) {
    s.procs == map[] && s.bf.Absent? && (forall d :: d in s.daemons ==> s.run == Some(d))
  }

  // ----- the guard

  predicate IsVerdict(s: State, e: Event, p: int) {
    e.Step? && e.p == p && Alive(s, p) && s.procs[p].pc.Rejudge?
  }

  /**
   A verdict is guarded when "stale" is only ever concluded from a re-read that found the lock on disk
   with its owner already gone, and the break-mutex of another racer is never concluded stale.
   The code does not check this: `isStale(null)` is true, and the liveness probe comes after the read.
   */
  predicate Guarded(s: State, e: Event) {
    e.Step? && Alive(s, e.p) ==>
      match s.procs[e.p].pc
      case Rejudge(h, sound) => IsStale(s, h) ==> sound
      case JudgeBreak(h) => !IsStale(s, h)
      case _ => true
  }

  ghost predicate GuardedRun(s: State, es: seq<Event>)
    requires Run(s, es)
    decreases |es|
  {
    es == [] || (Guarded(s, es[0]) && GuardedRun(Next(s, es[0]), es[1..]))
  }

  // ----- the invariant of guarded runs

  ghost predicate ProcOk(s: State, p: int)
    requires p in s.procs
  {
    var r := s.procs[p];
    && (r.alive && InSection(r.pc) ==> Owned(s.lf, p))
    && (InBreak(r.pc) ==> r.alive && Owned(s.bf, p))
    && (r.pc.Rejudge? && r.pc.sound ==> s.lf == r.pc.h && Ownerless(s, s.lf))
    && (r.pc.Unlink? ==> Ownerless(s, s.lf))
    && (r.pc.Rejudge? && !r.pc.sound && r.pc.h.Stamp? ==> r.pc.h.pid in s.procs)
    && !r.pc.UnlinkBreak?
    && (r.alive && Owned(s.lf, p) ==> InSection(r.pc))
  }

  /** A break-mutex on disk is held by a running breaker. */
  ghost predicate MutexHeld(s: State) {
    !s.bf.Corrupt? && (s.bf.Stamp? ==> Alive(s, s.bf.pid) && InBreak(s.procs[s.bf.pid].pc))
  }

  ghost predicate Inv(s: State) {
    MutexHeld(s) && forall p :: p in s.procs ==> ProcOk(s, p)
  }

  lemma InvLockStep(s: State, p: int)
    requires Inv(s) && Alive(s, p) && !s.procs[p].pc.Holding? && Guarded(s, Step(p, Go))
    ensures Inv(LockStep(s, p))
  {
    var t := LockStep(s, p);
    forall q | q in t.procs ensures ProcOk(t, q) {
      assert ProcOk(s, q) && ProcOk(s, p);
    }
  }

  lemma InvSectionStep(s: State, p: int, c: Choice)
    requires Inv(s) && Alive(s, p) && s.procs[p].pc.Holding? && Answers(s, s.procs[p].pc.section, c)
    ensures Inv(SectionStep(s, p, s.procs[p].pc.section, c))
  {
    var t := SectionStep(s, p, s.procs[p].pc.section, c);
    forall q | q in t.procs ensures ProcOk(t, q) {
      assert ProcOk(s, q) && ProcOk(s, p);
    }
  }

  lemma InvStep(s: State, e: Event)
    requires Inv(s) && Enabled(s, e) && Guarded(s, e)
    ensures Inv(Next(s, e))
  {
    if e.Step? {
      if s.procs[e.p].pc.Holding? { InvSectionStep(s, e.p, e.c); } else { InvLockStep(s, e.p); }
    } else {
      var t := Next(s, e);
      forall q | q in t.procs ensures ProcOk(t, q) {
        assert q in s.procs ==> ProcOk(s, q);
      }
    }
  }

  lemma {:induction false} InvRun(s: State, es: seq<Event>)
    requires Inv(s) && Run(s, es) && GuardedRun(s, es)
    ensures Inv(After(s, es))
    decreases |es|
  {
    if es != [] {
      InvStep(s, es[0]);
      InvRun(Next(s, es[0]), es[1..]);
    }
  }

  lemma InvExcludes(s: State)
    requires Inv(s)
    ensures MutuallyExclusive(s)
  {
    forall p, q | Holds(s, p) && Holds(s, q) ensures p == q {
      assert ProcOk(s, p) && ProcOk(s, q);
    }
  }

  /** Mutual exclusion: in every guarded run, at most one live process is between acquire and release. */
  lemma GuardedRunsExclude(s: State, es: seq<Event>)
    requires Initial(s) && Run(s, es) && GuardedRun(s, es)
    ensures MutuallyExclusive(After(s, es))
  {
    InvRun(s, es);
    InvExcludes(After(s, es));
  }

  /** In guarded runs a lock only ever leaves the disk by its owner's release or after its owner died. */
  lemma GuardedRemovals(s: State, es: seq<Event>, e: Event)
    requires Initial(s) && Run(s, es) && GuardedRun(s, es)
    requires Enabled(After(s, es), e) && Guarded(After(s, es), e)
    requires After(s, es).lf != Absent && Next(After(s, es), e).lf != After(s, es).lf
    ensures Next(After(s, es), e).lf == Absent
    ensures e.Step? && ((Holds(After(s, es), e.p) && Owned(After(s, es).lf, e.p)) || Ownerless(After(s, es), After(s, es).lf))
  {
    InvRun(s, es);
    assert ProcOk(After(s, es), e.p);
  }

  // ----- the guard is exact

  /** Every verdict is guarded, except possibly the next one of p. */
  ghost predicate GuardedAfterVerdict(s: State, es: seq<Event>, p: int)
    requires Run(s, es)
    decreases |es|
  {
    es == []
    || (if IsVerdict(s, es[0], p) then GuardedRun(Next(s, es[0]), es[1..])
        else Guarded(s, es[0]) && GuardedAfterVerdict(Next(s, es[0]), es[1..], p))
  }

  lemma {:induction false} SoundVerdictStaysGuarded(s: State, es: seq<Event>, p: int)
    requires p in s.procs && s.procs[p].pc.Rejudge? && s.procs[p].pc.sound
    requires Run(s, es) && GuardedAfterVerdict(s, es, p)
    ensures GuardedRun(s, es)
    decreases |es|
  {
    if es != [] && !IsVerdict(s, es[0], p) {
      SoundVerdictStaysGuarded(Next(s, es[0]), es[1..], p);
    }
  }

  /** Prefixing one step to a continuation that breaks exclusion. */
  ghost predicate Breaks(s: State, es: seq<Event>, p: int) {
    Run(s, es) && GuardedAfterVerdict(s, es, p) && !MutuallyExclusive(After(s, es))
  }

  lemma BreaksBefore(s: State, e: Event, es: seq<Event>, p: int)
    requires Enabled(s, e) && Guarded(s, e) && !IsVerdict(s, e, p)
    requires Breaks(Next(s, e), es, p)
    ensures Breaks(s, [e] + es, p)
  {
    assert ([e] + es)[1..] == es;
  }

  /** There is always another `up` that could start. */
  lemma FreshPid(s: State) returns (p: int)
    ensures Enabled(s, Start(p))
  {
    p := UpperBound(s.procs.Keys
      + (if s.lf.Stamp? then {s.lf.pid} else {})
      + (if s.bf.Stamp? then {s.bf.pid} else {}));
  }

  lemma GuardedBefore(s: State, e: Event, es: seq<Event>)
    requires Enabled(s, e) && Guarded(s, e) && Run(Next(s, e), es) && GuardedRun(Next(s, e), es)
    ensures Run(s, [e] + es) && GuardedRun(s, [e] + es) && After(s, [e] + es) == After(Next(s, e), es)
  {
    assert ([e] + es)[1..] == es;
  }

  /** A breaker about to unlink while somebody holds the lock: the next `up` is admitted beside the holder. */
  lemma UnlinkAdmitsSecond(s: State, p: int, a: int) returns (es: seq<Event>)
    requires Alive(s, p) && s.procs[p].pc.Unlink? && Holds(s, a)
    ensures Run(s, es) && GuardedRun(s, es) && !MutuallyExclusive(After(s, es))
  {
    var s1 := Next(s, Step(p, Go));
    var b := FreshPid(s1);
    var s2 := Next(s1, Start(b));
    var s3 := Next(s2, Step(b, Go));
    assert Holds(s3, a) && Holds(s3, b) && a != b;
    GuardedBefore(s2, Step(b, Go), []);
    GuardedBefore(s1, Start(b), [Step(b, Go)] + []);
    GuardedBefore(s, Step(p, Go), [Start(b)] + ([Step(b, Go)] + []));
    es := [Step(p, Go)] + ([Start(b)] + ([Step(b, Go)] + []));
  }

  /** A breaker whose verdict will be "stale" while the lock is off the disk. */
  lemma MissingLockBreaks(s: State, p: int) returns (es: seq<Event>)
    requires Alive(s, p) && s.procs[p].pc.Rejudge? && IsStale(s, s.procs[p].pc.h) && s.lf.Absent?
    requires forall a :: a !in s.procs ==> s.procs[p].pc.h.Stamp? ==> s.procs[p].pc.h.pid != a
    ensures Breaks(s, es, p)
  {
    var a := FreshPid(s);
    var s1 := Next(s, Start(a));
    var s2 := Next(s1, Step(a, Go));
    assert IsVerdict(s2, Step(p, Go), p);
    var s3 := Next(s2, Step(p, Go));
    var rest := UnlinkAdmitsSecond(s3, p, a);
    es := [Step(p, Go)] + rest;
    assert es[1..] == rest;
    assert Breaks(s2, es, p);
    BreaksBefore(s1, Step(a, Go), es, p);
    es := [Step(a, Go)] + es;
    BreaksBefore(s, Start(a), es, p);
    es := [Start(a)] + es;
  }

  /** The owner the breaker read as live leaves the section and exits before the breaker probes it. */
  lemma {:induction false} ExitingOwnerBreaks(s: State, p: int, q: int) returns (es: seq<Event>)
    requires Alive(s, p) && s.procs[p].pc.Rejudge? && Owned(s.procs[p].pc.h, q)
    requires Alive(s, q) && Owned(s.lf, q) && InSection(s.procs[q].pc)
    ensures Breaks(s, es, p)
    decreases if s.procs[q].pc.Holding? then 2 else if s.procs[q].pc.ReadOwnLock? then 1 else 0
  {
    var e := if s.procs[q].pc.Holding? then Throw(q) else Step(q, Go);
    var t := Next(s, e);
    if s.procs[q].pc.UnlinkOwnLock? {
      var u := Next(t, Crash(q));
      es := MissingLockBreaks(u, p);
      BreaksBefore(t, Crash(q), es, p);
      es := [Crash(q)] + es;
    } else {
      es := ExitingOwnerBreaks(t, p, q);
    }
    BreaksBefore(s, e, es, p);
    es := [e] + es;
  }

  /**
   The exact condition.  Take any guarded run and let p, inside the break-mutex, re-read the lock.
   However the other processes move, with every other verdict guarded, exclusion survives
   if and only if the re-read found the lock on disk with its owner already gone.
   */
  lemma RereadIsExact(s: State, es: seq<Event>, p: int)
    requires Initial(s) && Run(s, es) && GuardedRun(s, es)
    requires var t := After(s, es); Alive(t, p) && t.procs[p].pc.Reread?
    ensures
      var t := After(s, es);
      var u := Next(t, Step(p, Go));
      Ownerless(t, t.lf) <==> forall fs :: !Breaks(u, fs, p)
  {
    InvRun(s, es);
    var t := After(s, es);
    var u := Next(t, Step(p, Go));
    InvStep(t, Step(p, Go));
    if Ownerless(t, t.lf) {
      forall fs | Run(u, fs) && GuardedAfterVerdict(u, fs, p) ensures !Breaks(u, fs, p) {
        SoundVerdictStaysGuarded(u, fs, p);
        InvRun(u, fs);
        InvExcludes(After(u, fs));
      }
    } else {
      var fs: seq<Event>;
      if t.lf.Absent? {
        fs := MissingLockBreaks(u, p);
      } else {
        assert ProcOk(t, t.lf.pid);
        fs := ExitingOwnerBreaks(u, p, t.lf.pid);
      }
      assert Breaks(u, fs, p);
    }
  }

  // ----- the break-mutex's own verdict is just as exact

  /** Some continuation in which every verdict is guarded admits two holders. */
  ghost predicate GuardedViolable(s: State) {
    exists es :: Run(s, es) && GuardedRun(s, es) && !MutuallyExclusive(After(s, es))
  }

  lemma GuardedViolableBefore(s: State, e: Event)
    requires Enabled(s, e) && Guarded(s, e) && GuardedViolable(Next(s, e))
    ensures GuardedViolable(s)
  {
    var es :| Run(Next(s, e), es) && GuardedRun(Next(s, e), es) && !MutuallyExclusive(After(Next(s, e), es));
    GuardedBefore(s, e, es);
    assert GuardedViolable(s);
  }

  /** With an ownerless lock on disk and no break-mutex, a newcomer gets as far as a sound verdict about that lock. */
  lemma NewBreaker(s: State) returns (q: int, t: State)
    requires Ownerless(s, s.lf) && s.bf.Absent?
    ensures q !in s.procs && !Owned(s.lf, q)
    ensures t == s.(bf := Stamp(q, s.now), procs := s.procs[q := Proc(Rejudge(s.lf, true), s.now + TOTAL_MS, true)])
    ensures GuardedViolable(t) ==> GuardedViolable(s)
  {
    q := FreshPid(s);
    var s1 := Next(s, Start(q));
    var s2 := Next(s1, Step(q, Go));
    var s3 := Next(s2, Step(q, Go));
    var s4 := Next(s3, Step(q, Go));
    var s5 := Next(s4, Step(q, Go));
    t := Next(s5, Step(q, Go));
    assert t.procs == s.procs[q := Proc(Rejudge(s.lf, true), s.now + TOTAL_MS, true)];
    if GuardedViolable(t) {
      GuardedViolableBefore(s5, Step(q, Go));
      GuardedViolableBefore(s4, Step(q, Go));
      GuardedViolableBefore(s3, Step(q, Go));
      GuardedViolableBefore(s2, Step(q, Go));
      GuardedViolableBefore(s1, Step(q, Go));
      GuardedViolableBefore(s, Start(q));
    }
  }

  /** Two breakers at once: the second removes the lock that was taken after the first removed the stale one. */
  lemma TwoBreakersViolate(s: State, q: int, r: int)
    requires Alive(s, q) && s.procs[q].pc.Unlink?
    requires Alive(s, r) && s.procs[r].pc == Rejudge(s.lf, true) && IsStale(s, s.lf) && Ownerless(s, s.lf)
    ensures GuardedViolable(s)
  {
    var x := FreshPid(s);
    var s1 := Next(s, Start(x));
    var s2 := Next(s1, Step(q, Go));
    var s3 := Next(s2, Step(x, Go));
    var s4 := Next(s3, Step(r, Go));
    var es := UnlinkAdmitsSecond(s4, r, x);
    assert GuardedViolable(s4);
    GuardedViolableBefore(s3, Step(r, Go));
    GuardedViolableBefore(s2, Step(x, Go));
    GuardedViolableBefore(s1, Step(q, Go));
    GuardedViolableBefore(s, Start(x));
  }

  lemma MutexRemovedUnderBreaker(s: State, p: int)
    requires Alive(s, p) && s.procs[p].pc.UnlinkBreak? && s.bf.Absent? && Ownerless(s, s.lf)
    ensures GuardedViolable(s)
  {
    var q, t := NewBreaker(s);
    var t1 := Next(t, Step(p, Go));
    var r, u := NewBreaker(t1);
    var u1 := Next(u, Step(q, Go));
    assert u1.procs[q].pc == Unlink && u1.procs[r].pc == Rejudge(s.lf, true);
    TwoBreakersViolate(u1, q, r);
    GuardedViolableBefore(u, Step(q, Go));
    GuardedViolableBefore(t, Step(p, Go));
  }

  lemma UnlinkBreakViolates(s: State, p: int)
    requires Clearing(s, p) && s.bf.Absent?
    ensures GuardedViolable(s)
  {
    if Ownerless(s, s.lf) {
      MutexRemovedUnderBreaker(s, p);
    } else if s.lf.Absent? {
      var d := FreshPid(s);
      var s1 := Next(s, Start(d));
      var s2 := Next(s1, Step(d, Go));
      var s3 := Next(s2, Crash(d));
      MutexRemovedUnderBreaker(s3, p);
      GuardedViolableBefore(s2, Crash(d));
      GuardedViolableBefore(s1, Step(d, Go));
      GuardedViolableBefore(s, Start(d));
    } else {
      var o := s.lf.pid;
      MutexRemovedUnderBreaker(Next(s, Crash(o)), p);
      GuardedViolableBefore(s, Crash(o));
    }
  }

  /** p is about to remove the break-mutex, and a live owner of the lock is not breaking. */
  ghost predicate Clearing(s: State, p: int) {
    && Alive(s, p) && s.procs[p].pc.UnlinkBreak?
    && (s.lf.Stamp? && Alive(s, s.lf.pid) ==> s.lf.pid != p && !InBreak(s.procs[s.lf.pid].pc))
  }

  /** A breaker whose pending verdict would be an unsound "stale". */
  predicate Unsound(s: State, q: int) {
    Alive(s, q) && s.procs[q].pc.Rejudge? && !s.procs[q].pc.sound && IsStale(s, s.procs[q].pc.h)
  }

  function BreakStepsLeft(pc: Pc): nat {
    match pc
    case Reread => 5
    case Rejudge(_, _) => 4
    case Unlink => 3
    case ReadOwnBreak => 2
    case UnlinkOwnBreak => 1
    case _ => 0
  }

  /** p removes the break-mutex of a breaker that can still finish: it does finish, and p removes the next one's. */
  lemma {:induction false} LiveMutexRemoved(s: State, p: int, q: int)
    requires Clearing(s, p) && Alive(s, q) && InBreak(s.procs[q].pc) && Owned(s.bf, q) && !Unsound(s, q)
    ensures GuardedViolable(s)
    decreases BreakStepsLeft(s.procs[q].pc), 2
  {
    if s.procs[q].pc.Reread? && !Ownerless(s, s.lf) {
      AbandonedThenRemoved(s, p, q);
      return;
    }
    var t := Next(s, Step(q, Go));
    if s.procs[q].pc.UnlinkOwnBreak? {
      UnlinkBreakViolates(t, p);
    } else {
      LiveMutexRemoved(t, p, q);
    }
    GuardedViolableBefore(s, Step(q, Go));
  }

  /** The lock is made ownerless before the breaker reads it again. */
  lemma {:induction false} AbandonedThenRemoved(s: State, p: int, q: int)
    requires Clearing(s, p) && Alive(s, q) && s.procs[q].pc.Reread? && Owned(s.bf, q) && !Ownerless(s, s.lf)
    ensures GuardedViolable(s)
    decreases 5, 1
  {
    if s.lf.Absent? {
      var d := FreshPid(s);
      var s1 := Next(s, Start(d));
      var s2 := Next(s1, Step(d, Go));
      var s3 := Next(s2, Crash(d));
      RereadThenRemoved(s3, p, q);
      GuardedViolableBefore(s2, Crash(d));
      GuardedViolableBefore(s1, Step(d, Go));
      GuardedViolableBefore(s, Start(d));
    } else {
      RereadThenRemoved(Next(s, Crash(s.lf.pid)), p, q);
      GuardedViolableBefore(s, Crash(s.lf.pid));
    }
  }

  lemma {:induction false} RereadThenRemoved(s: State, p: int, q: int)
    requires Clearing(s, p) && Alive(s, q) && s.procs[q].pc.Reread? && Owned(s.bf, q) && Ownerless(s, s.lf)
    ensures GuardedViolable(s)
    decreases 5, 0
  {
    LiveMutexRemoved(Next(s, Step(q, Go)), p, q);
    GuardedViolableBefore(s, Step(q, Go));
  }

  /** q waits forever for an unsound verdict, and p is the only process that may remove its mutex. */
  ghost predicate Frozen(s: State, p: int, q: int) {
    && p != q && Unsound(s, q) && MutexHeld(s)
    && (s.procs[q].pc.h.Stamp? ==> s.procs[q].pc.h.pid in s.procs)
    && forall x :: x in s.procs && x != q ==> OkBeside(s, p, q, x)
  }

  ghost predicate OkBeside(s: State, p: int, q: int, x: int)
    requires x in s.procs
  {
    if x == p && s.procs[x].pc.UnlinkBreak? then Owned(s.bf, q) && !Owned(s.lf, p) else ProcOk(s, x)
  }

  lemma FrozenLockStep(s: State, p: int, q: int, x: int)
    requires Frozen(s, p, q) && Alive(s, x) && !s.procs[x].pc.Holding? && Guarded(s, Step(x, Go))
    ensures Frozen(LockStep(s, x), p, q)
  {
    assert x != q;
    FrozenMover(s, p, q, x);
    FrozenOthers(s, p, q, x);
  }

  lemma FrozenMover(s: State, p: int, q: int, x: int)
    requires Frozen(s, p, q) && x != q && Alive(s, x) && !s.procs[x].pc.Holding? && Guarded(s, Step(x, Go))
    ensures OkBeside(LockStep(s, x), p, q, x) && MutexHeld(LockStep(s, x))
  {
    assert OkBeside(s, p, q, x);
  }

  lemma FrozenOthers(s: State, p: int, q: int, x: int)
    requires Frozen(s, p, q) && x != q && Alive(s, x) && !s.procs[x].pc.Holding? && Guarded(s, Step(x, Go))
    ensures var t := LockStep(s, x); forall y :: y in t.procs && y != q && y != x ==> OkBeside(t, p, q, y)
  {
    var t := LockStep(s, x);
    assert OkBeside(s, p, q, x);
    forall y | y in t.procs && y != q && y != x ensures OkBeside(t, p, q, y) {
      assert OkBeside(s, p, q, y) && t.procs[y] == s.procs[y];
    }
  }

  lemma FrozenSectionStep(s: State, p: int, q: int, x: int, c: Choice)
    requires Frozen(s, p, q) && Alive(s, x) && s.procs[x].pc.Holding? && Answers(s, s.procs[x].pc.section, c)
    ensures Frozen(SectionStep(s, x, s.procs[x].pc.section, c), p, q)
  {
    var t := SectionStep(s, x, s.procs[x].pc.section, c);
    assert OkBeside(s, p, q, x);
    forall y | y in t.procs && y != q ensures OkBeside(t, p, q, y) {
      assert OkBeside(s, p, q, y);
    }
  }

  lemma FrozenStep(s: State, p: int, q: int, e: Event)
    requires Frozen(s, p, q) && Enabled(s, e) && Guarded(s, e)
    ensures Frozen(Next(s, e), p, q)
  {
    if e.Step? {
      if s.procs[e.p].pc.Holding? { FrozenSectionStep(s, p, q, e.p, e.c); } else { FrozenLockStep(s, p, q, e.p); }
    } else {
      var t := Next(s, e);
      forall y | y in t.procs && y != q ensures OkBeside(t, p, q, y) {
        assert y in s.procs ==> OkBeside(s, p, q, y);
      }
    }
  }

  lemma {:induction false} FrozenExcludes(s: State, p: int, q: int, es: seq<Event>)
    requires Frozen(s, p, q) && Run(s, es) && GuardedRun(s, es)
    ensures MutuallyExclusive(After(s, es))
    decreases |es|
  {
    if es == [] {
      forall x, y | Holds(s, x) && Holds(s, y) ensures x == y {
        assert OkBeside(s, p, q, x) && OkBeside(s, p, q, y);
      }
    } else {
      FrozenStep(s, p, q, es[0]);
      FrozenExcludes(Next(s, es[0]), p, q, es[1..]);
    }
  }

  /**
   Take any guarded run and let p judge what it read of a break-mutex.  However the others move, with every other
   verdict guarded, exclusion survives if and only if the verdict is "not stale", or the mutex on disk belongs to
   a breaker whose own pending verdict is unsound.  A missing file is always judged stale.
   */
  lemma BreakVerdictIsExact(s: State, es: seq<Event>, p: int)
    requires Initial(s) && Run(s, es) && GuardedRun(s, es)
    requires var t := After(s, es); Alive(t, p) && t.procs[p].pc.JudgeBreak?
    ensures
      var t := After(s, es);
      !IsStale(t, t.procs[p].pc.h) || (t.bf.Stamp? && Unsound(t, t.bf.pid)) <==> !GuardedViolable(Next(t, Step(p, Go)))
  {
    InvRun(s, es);
    var t := After(s, es);
    var u := Next(t, Step(p, Go));
    assert ProcOk(t, p);
    if !IsStale(t, t.procs[p].pc.h) {
      InvStep(t, Step(p, Go));
      forall fs | Run(u, fs) && GuardedRun(u, fs) ensures MutuallyExclusive(After(u, fs)) {
        InvRun(u, fs);
        InvExcludes(After(u, fs));
      }
    } else if t.bf.Stamp? && Unsound(t, t.bf.pid) {
      MutexIsRemovable(t, p);
      forall fs | Run(u, fs) && GuardedRun(u, fs) ensures MutuallyExclusive(After(u, fs)) {
        FrozenExcludes(u, p, t.bf.pid, fs);
      }
    } else {
      if t.lf.Stamp? && Alive(t, t.lf.pid) { assert ProcOk(t, t.lf.pid); }
      if t.bf.Absent? { UnlinkBreakViolates(u, p); } else { LiveMutexRemoved(u, p, t.bf.pid); }
    }
  }

  lemma MutexIsRemovable(t: State, p: int)
    requires Inv(t) && Alive(t, p) && t.procs[p].pc.JudgeBreak? && IsStale(t, t.procs[p].pc.h) && t.bf.Stamp? && Unsound(t, t.bf.pid)
    ensures Frozen(Next(t, Step(p, Go)), p, t.bf.pid)
  {
    var u := Next(t, Step(p, Go));
    assert ProcOk(t, p) && ProcOk(t, t.bf.pid);
    forall x | x in u.procs && x != t.bf.pid ensures OkBeside(u, p, t.bf.pid, x) {
      assert ProcOk(t, x);
    }
  }

  // ----- the guard can fail with no crash and no stale lock at all

  /** A machine with a healthy recorded daemon and no lock files. */
  const QUIET := State(0, Absent, Absent, map[], Some(100), {100})

  ghost predicate Violable(s: State) {
    exists es :: Run(s, es) && !MutuallyExclusive(After(s, es))
  }

  lemma ViolableBefore(s: State, e: Event)
    requires Enabled(s, e) && Violable(Next(s, e))
    ensures Violable(s)
  {
    var es :| Run(Next(s, e), es) && !MutuallyExclusive(After(Next(s, e), es));
    assert ([e] + es)[1..] == es;
    assert Run(s, [e] + es) && !MutuallyExclusive(After(s, [e] + es));
  }

  /** Somebody between its failed create and its first read, on a machine where both files are gone. */
  lemma LateReaderViolates(s: State, p: int)
    requires Alive(s, p) && s.procs[p].pc.ReadLock? && s.lf.Absent? && s.bf.Absent?
    ensures Violable(s)
  {
    var s1 := Next(s, Step(p, Go));
    var s2 := Next(s1, Step(p, Go));
    var s3 := Next(s2, Step(p, Go));
    var s4 := Next(s3, Step(p, Go));
    var es := MissingLockBreaks(s4, p);
    assert Violable(s4);
    ViolableBefore(s3, Step(p, Go));
    ViolableBefore(s2, Step(p, Go));
    ViolableBefore(s1, Step(p, Go));
    ViolableBefore(s, Step(p, Go));
  }

  /**
   Two `up`s meet on a healthy machine: 2 fails its create while 1 holds the lock, 1 releases, 2 reads a
   missing lock as stale, takes the break-mutex and re-reads it missing again.  From there two more both hold.
   */
  lemma ContentionAloneViolates()
    ensures Initial(QUIET) && Violable(QUIET)
  {
    var s1 := Next(QUIET, Start(1));
    var s2 := Next(s1, Step(1, Go));
    var s3 := Next(s2, Start(2));
    var s4 := Next(s3, Step(2, Go));
    var s5 := Next(s4, Step(1, Reuse));
    var s6 := Next(s5, Step(1, Go));
    var s7 := Next(s6, Step(1, Go));
    LateReaderViolates(s7, 2);
    ViolableBefore(s6, Step(1, Go));
    ViolableBefore(s5, Step(1, Go));
    ViolableBefore(s4, Step(1, Reuse));
    ViolableBefore(s3, Step(2, Go));
    ViolableBefore(s2, Start(2));
    ViolableBefore(s1, Step(1, Go));
    ViolableBefore(QUIET, Start(1));
  }

  // ----- crash recovery

  /** p is the only process still running, and neither file is its own (except its mutex while it breaks). */
  ghost predicate Alone(s: State, p: int) {
    && Alive(s, p)
    && (forall q :: Alive(s, q) ==> q == p)
    && var pc := s.procs[p].pc;
       match pc
       case TryCreate => !Owned(s.lf, p) && !Owned(s.bf, p)
       case ReadLock => !s.lf.Absent? && !Owned(s.lf, p) && !Owned(s.bf, p)
       case JudgeLock(h) => !s.lf.Absent? && !Owned(h, p) && !Owned(s.lf, p) && !Owned(s.bf, p)
       case TryBreak => !s.lf.Absent? && !Owned(s.lf, p) && !Owned(s.bf, p)
       case ReadBreak => !s.lf.Absent? && !s.bf.Absent? && !Owned(s.lf, p) && !Owned(s.bf, p)
       case JudgeBreak(h) => !s.lf.Absent? && !s.bf.Absent? && !Owned(h, p) && !Owned(s.lf, p) && !Owned(s.bf, p)
       case UnlinkBreak => !s.lf.Absent? && !s.bf.Absent? && !Owned(s.lf, p)
       case Reread => !s.lf.Absent? && !Owned(s.lf, p) && Owned(s.bf, p)
       case Rejudge(h, _) => !s.lf.Absent? && !Owned(h, p) && !Owned(s.lf, p) && Owned(s.bf, p)
       case Unlink => !s.lf.Absent? && Owned(s.bf, p)
       case ReadOwnBreak => s.lf.Absent? && Owned(s.bf, p)
       case UnlinkOwnBreak => s.lf.Absent? && Owned(s.bf, p)
       case Holding(_) => Owned(s.lf, p) && !Owned(s.bf, p)
       case _ => false
  }

  /** Steps p still needs: 1 with no lock left over, 10 with a lock, 17 with a lock and a break-mutex. */
  function StepsLeft(s: State, p: int): int
    requires p in s.procs
  {
    var whole := if s.lf.Absent? then 1 else if s.bf.Absent? then 10 else 17;
    match s.procs[p].pc
    case TryCreate => whole
    case ReadLock => whole - 1
    case JudgeLock(_) => whole - 2
    case TryBreak => whole - 3
    case ReadBreak => 13
    case JudgeBreak(_) => 12
    case UnlinkBreak => 11
    case Reread => 6
    case Rejudge(_, _) => 5
    case Unlink => 4
    case ReadOwnBreak => 3
    case UnlinkOwnBreak => 2
    case _ => 0
  }

  function OwnSteps(es: seq<Event>, p: int): nat {
    if es == [] then 0 else (if es[0] == Step(p, Go) then 1 else 0) + OwnSteps(es[1..], p)
  }

  ghost predicate OnlyTimeAnd(es: seq<Event>, p: int) {
    forall e :: e in es ==> e.Tick? || e == Step(p, Go)
  }

  /** It is never blocked on the way: its next step is always enabled. */
  lemma AloneIsNeverBlocked(s: State, p: int)
    requires Alone(s, p) && StepsLeft(s, p) > 0
    ensures Enabled(s, Step(p, Go)) && Alone(Next(s, Step(p, Go)), p)
    ensures StepsLeft(Next(s, Step(p, Go)), p) == StepsLeft(s, p) - 1
  {
    assert forall q :: Alive(Next(s, Step(p, Go)), q) ==> Alive(s, q);
  }

  /**
   From any files left by the dead, however far they had got, an `up` running alone gets the lock in at
   most 17 steps of its own whatever time passes between them, and never gives up on its deadline.
   */
  lemma {:induction false} AloneAcquires(s: State, es: seq<Event>, p: int)
    requires Alone(s, p) && Run(s, es) && OnlyTimeAnd(es, p) && OwnSteps(es, p) <= StepsLeft(s, p)
    ensures Alone(After(s, es), p) && !After(s, es).procs[p].pc.Failed?
    ensures StepsLeft(After(s, es), p) == StepsLeft(s, p) - OwnSteps(es, p)
    ensures OwnSteps(es, p) == StepsLeft(s, p) <==> After(s, es).procs[p].pc.Holding?
    ensures StepsLeft(s, p) <= 17
    decreases |es|
  {
    if es != [] {
      var t := Next(s, es[0]);
      assert es[0] in es;
      if es[0].Step? {
        AloneIsNeverBlocked(s, p);
      } else {
        assert forall q :: Alive(t, q) ==> Alive(s, q);
      }
      AloneAcquires(t, es[1..], p);
    }
  }

  // ----- at most one daemon

  /** No `up` dies or throws between spawning a child and recording or reaping it. */
  predicate KeepsChild(s: State, e: Event) {
    && (e.Crash? && e.p in s.procs ==> !OwnsUnrecordedChild(s.procs[e.p].pc))
    && (e.Throw? && e.p in s.procs ==> !OwnsUnrecordedChild(s.procs[e.p].pc))
  }

  ghost predicate CarefulRun(s: State, es: seq<Event>)
    requires Run(s, es)
    decreases |es|
  {
    es == [] || (Guarded(s, es[0]) && KeepsChild(s, es[0]) && CarefulRun(Next(s, es[0]), es[1..]))
  }

  ghost predicate AllRecorded(s: State) {
    forall d :: d in s.daemons ==> s.run == Some(d)
  }

  function ChildOf(section: Section): int
    requires section.Probe? || section.Reap? || section.Record?
  {
    section.child
  }

  ghost predicate NoDaemon(s: State) {
    forall d :: d !in s.daemons
  }

  /** What a live holder knows about the running daemons at each point of the locked section. */
  ghost predicate SectionOk(s: State, section: Section) {
    match section
    case ReadRun => AllRecorded(s)
    case StopOld(d) => AllRecorded(s) && s.run == Some(d)
    case Walk(_) => NoDaemon(s)
    case _ => (forall d :: d in s.daemons ==> d == section.child) && s.run != Some(section.child)
  }

  ghost predicate DaemonsOk(s: State) {
    && (forall p :: Alive(s, p) && s.procs[p].pc.Holding? ==> SectionOk(s, s.procs[p].pc.section))
    && ((forall p :: Alive(s, p) ==> !OwnsUnrecordedChild(s.procs[p].pc)) ==> AllRecorded(s))
  }

  lemma SectionStepOk(s: State, p: int, c: Choice)
    requires Alive(s, p) && s.procs[p].pc.Holding?
    requires Answers(s, s.procs[p].pc.section, c) && SectionOk(s, s.procs[p].pc.section)
    ensures
      var t := SectionStep(s, p, s.procs[p].pc.section, c);
      if t.procs[p].pc.Holding? then SectionOk(t, t.procs[p].pc.section) else AllRecorded(t)
  {
  }

  lemma LockStepFrame(s: State, p: int)
    requires Alive(s, p) && !s.procs[p].pc.Holding?
    ensures
      var t := LockStep(s, p);
      && t.daemons == s.daemons && t.run == s.run && p in t.procs
      && t.procs == s.procs[p := s.procs[p].(pc := t.procs[p].pc)]
      && (t.procs[p].pc.Holding? ==> t.procs[p].pc == Holding(ReadRun))
  {
    assert s.procs == s.procs[p := s.procs[p].(pc := s.procs[p].pc)];
  }

  /** Outside the locked section nobody touches a daemon, and a newcomer finds no unrecorded child. */
  lemma DaemonsLockStep(s: State, p: int)
    requires DaemonsOk(s) && Alive(s, p) && !s.procs[p].pc.Holding?
    requires MutuallyExclusive(s) && MutuallyExclusive(LockStep(s, p))
    ensures DaemonsOk(LockStep(s, p))
  {
    hide LockStep;
    LockStepFrame(s, p);
    var t := LockStep(s, p);
    forall q | Alive(t, q) && OwnsUnrecordedChild(t.procs[q].pc) ensures Alive(s, q) && OwnsUnrecordedChild(s.procs[q].pc) {}
    forall q | Alive(s, q) && OwnsUnrecordedChild(s.procs[q].pc) ensures t.procs[q] == s.procs[q] {}
    forall q | Alive(s, q) && OwnsUnrecordedChild(s.procs[q].pc) ensures t.procs[p].pc.Holding? ==> Holds(t, q) && Holds(t, p) {}
  }

  lemma DaemonsStep(s: State, e: Event)
    requires Inv(s) && DaemonsOk(s) && Enabled(s, e) && Guarded(s, e) && KeepsChild(s, e)
    ensures DaemonsOk(Next(s, e))
  {
    var t := Next(s, e);
    InvStep(s, e);
    InvExcludes(s);
    InvExcludes(t);
    match e
    case Step(p, c) =>
      if s.procs[p].pc.Holding? {
        assert Holds(s, p);
        SectionStepOk(s, p, c);
        forall q | Alive(t, q) && t.procs[q].pc.Holding? ensures q == p {
          assert q != p ==> Holds(s, q);
        }
        assert OwnsUnrecordedChild(t.procs[p].pc) || AllRecorded(t);
      } else {
        DaemonsLockStep(s, p);
      }
    case Crash(p) =>
      forall q | Alive(s, q) && OwnsUnrecordedChild(s.procs[q].pc) ensures Alive(t, q) && t.procs[q] == s.procs[q] {}
    case Throw(p) =>
      forall q | Alive(s, q) && OwnsUnrecordedChild(s.procs[q].pc) ensures false {
        assert Holds(s, q) && Holds(s, p);
      }
    case Start(p) =>
      forall q | Alive(s, q) ensures Alive(t, q) && t.procs[q] == s.procs[q] {}
    case Tick(_) =>
      forall q | Alive(s, q) ensures Alive(t, q) {}
    case DaemonDies(_) =>
      forall q | Alive(s, q) ensures Alive(t, q) {}
  }

  lemma {:induction false} DaemonsRun(s: State, es: seq<Event>)
    requires Inv(s) && DaemonsOk(s) && Run(s, es) && CarefulRun(s, es)
    ensures Inv(After(s, es)) && DaemonsOk(After(s, es))
    decreases |es|
  {
    if es != [] {
      InvStep(s, es[0]);
      DaemonsStep(s, es[0]);
      DaemonsRun(Next(s, es[0]), es[1..]);
    }
  }

  /**
   At most one daemon: over every guarded run in which no `up` is lost with an unrecorded child, there are
   never two live daemons, no earlier child is left when the next port is tried, and with the lock off the
   disk every live daemon is the recorded one.
   */
  lemma AtMostOneDaemon(s: State, es: seq<Event>)
    requires Initial(s) && Run(s, es) && CarefulRun(s, es)
    ensures forall d, d' :: d in After(s, es).daemons && d' in After(s, es).daemons ==> d == d'
    ensures After(s, es).lf.Absent? ==> AllRecorded(After(s, es))
    ensures forall p, i :: Alive(After(s, es), p) && After(s, es).procs[p].pc == Holding(Walk(i)) ==> NoDaemon(After(s, es))
  {
    DaemonsRun(s, es);
    var t := After(s, es);
    FreeMeansRecorded(t);
    if p :| Alive(t, p) && OwnsUnrecordedChild(t.procs[p].pc) {
      assert SectionOk(t, t.procs[p].pc.section);
    }
  }

  // ----- no `up` may be lost with a child

  ghost predicate FreeBesideStray(s: State) {
    s.lf.Absent? && !AllRecorded(s)
  }

  ghost predicate Strays(s: State) {
    exists es :: Run(s, es) && CarefulRun(s, es) && FreeBesideStray(After(s, es))
  }

  lemma StraysBefore(s: State, e: Event)
    requires Enabled(s, e) && Guarded(s, e) && KeepsChild(s, e) && Strays(Next(s, e))
    ensures Strays(s)
  {
    var es :| Run(Next(s, e), es) && CarefulRun(Next(s, e), es) && FreeBesideStray(After(Next(s, e), es));
    assert ([e] + es)[1..] == es;
    assert Run(s, [e] + es) && CarefulRun(s, [e] + es) && FreeBesideStray(After(s, [e] + es));
  }

  lemma StraysNow(s: State)
    requires FreeBesideStray(s)
    ensures Strays(s)
  {
    assert Run(s, []) && CarefulRun(s, []) && After(s, []) == s;
  }

  /** A dead owner's lock is broken by a newcomer, whatever daemon runs. */
  lemma NewcomerFreesLock(s: State)
    requires Ownerless(s, s.lf) && s.bf.Absent? && !AllRecorded(s)
    ensures Strays(s)
  {
    hide Strays;
    var q := FreshPid(s);
    var s1 := Next(s, Start(q));
    var s2 := Next(s1, Step(q, Go));
    var s3 := Next(s2, Step(q, Go));
    var s4 := Next(s3, Step(q, Go));
    var s5 := Next(s4, Step(q, Go));
    var s6 := Next(s5, Step(q, Go));
    var s7 := Next(s6, Step(q, Go));
    StraysNow(Next(s7, Step(q, Go)));
    StraysBefore(s7, Step(q, Go));
    StraysBefore(s6, Step(q, Go));
    StraysBefore(s5, Step(q, Go));
    StraysBefore(s4, Step(q, Go));
    StraysBefore(s3, Step(q, Go));
    StraysBefore(s2, Step(q, Go));
    StraysBefore(s1, Step(q, Go));
    StraysBefore(s, Start(q));
  }

  /** So is it by a breaker already under way, which finishes first unless its verdict is unsound. */
  lemma {:induction false} BreakerFreesLock(s: State, q: int)
    requires Ownerless(s, s.lf) && !AllRecorded(s) && Alive(s, q) && InBreak(s.procs[q].pc) && Owned(s.bf, q) && !Unsound(s, q)
    ensures Strays(s)
    decreases BreakStepsLeft(s.procs[q].pc)
  {
    var t := Next(s, Step(q, Go));
    if t.lf.Absent? {
      StraysNow(t);
    } else if t.bf.Absent? {
      NewcomerFreesLock(t);
    } else {
      BreakerFreesLock(t, q);
    }
    StraysBefore(s, Step(q, Go));
  }

  /** The lock of a dead owner, while the break-mutex is held by a breaker whose verdict is unsound. */
  ghost predicate Blocked(s: State, p: int, q: int) {
    Inv(s) && Unsound(s, q) && Owned(s.bf, q) && Owned(s.lf, p) && p in s.procs && !Alive(s, p)
  }

  lemma BlockedStep(s: State, p: int, q: int, e: Event)
    requires Blocked(s, p, q) && Enabled(s, e) && Guarded(s, e)
    ensures Blocked(Next(s, e), p, q)
  {
    InvStep(s, e);
    assert ProcOk(s, q);
    if e.Step? { assert ProcOk(s, e.p); }
  }

  lemma {:induction false} BlockedStays(s: State, p: int, q: int, es: seq<Event>)
    requires Blocked(s, p, q) && Run(s, es) && CarefulRun(s, es)
    ensures After(s, es).lf != Absent
    decreases |es|
  {
    if es != [] {
      BlockedStep(s, p, q, es[0]);
      BlockedStays(Next(s, es[0]), p, q, es[1..]);
    }
  }

  /**
   An `up` that dies there: however the others move, the lock is free beside an unrecorded daemon at some time if
   and only if the child lives, unless a breaker with an unsound verdict keeps the lock from ever being broken.
   */
  lemma DyingWithAChildIsExact(s: State, es: seq<Event>, p: int)
    requires Initial(s) && Run(s, es) && CarefulRun(s, es)
    requires var t := After(s, es); Alive(t, p) && OwnsUnrecordedChild(t.procs[p].pc)
    ensures
      var t := After(s, es);
      var u := Next(t, Crash(p));
      Strays(u) <==> ChildOf(t.procs[p].pc.section) in t.daemons && !(u.bf.Stamp? && Unsound(u, u.bf.pid))
  {
    DaemonsRun(s, es);
    var t := After(s, es);
    var u := Next(t, Crash(p));
    var c := ChildOf(t.procs[p].pc.section);
    assert ProcOk(t, p) && SectionOk(t, t.procs[p].pc.section);
    InvStep(t, Crash(p));
    if c !in t.daemons {
      ChildlessStaysRecorded(t, p);
    } else if u.bf.Stamp? && Unsound(u, u.bf.pid) {
      forall fs | Run(u, fs) && CarefulRun(u, fs) ensures !FreeBesideStray(After(u, fs)) { BlockedStays(u, p, u.bf.pid, fs); }
    } else {
      assert !AllRecorded(u);
      if u.bf.Absent? {
        NewcomerFreesLock(u);
      } else {
        assert ProcOk(u, u.bf.pid);
        BreakerFreesLock(u, u.bf.pid);
      }
    }
  }

  lemma ChildlessStaysRecorded(t: State, p: int)
    requires Inv(t) && DaemonsOk(t) && Alive(t, p) && OwnsUnrecordedChild(t.procs[p].pc) && ChildOf(t.procs[p].pc.section) !in t.daemons
    ensures !Strays(Next(t, Crash(p)))
  {
    assert ProcOk(t, p) && SectionOk(t, t.procs[p].pc.section);
    var u := Next(t, Crash(p));
    InvStep(t, Crash(p));
    InvExcludes(t);
    forall q | Alive(u, q) && u.procs[q].pc.Holding? ensures q == p {
      assert Holds(t, q) && Holds(t, p);
    }
    assert AllRecorded(u) && DaemonsOk(u);
    forall fs | Run(u, fs) && CarefulRun(u, fs) ensures !FreeBesideStray(After(u, fs)) {
      DaemonsRun(u, fs);
      FreeMeansRecorded(After(u, fs));
    }
  }

  lemma FreeMeansRecorded(t: State)
    requires Inv(t) && DaemonsOk(t)
    ensures t.lf.Absent? ==> AllRecorded(t)
  {
    if p :| Alive(t, p) && OwnsUnrecordedChild(t.procs[p].pc) {
      assert ProcOk(t, p);
      assert SectionOk(t, t.procs[p].pc.section);
    }
  }

  /** An `up` alone on a machine that was empty. */
  function Early(lf: File, pc: Pc, daemons: set<int>): State {
    State(0, lf, Absent, map[1 := Proc(pc, TOTAL_MS, true)], None, daemons)
  }

  ghost predicate Leads(s: State, e: Event, t: State) {
    Enabled(s, e) && Guarded(s, e) && KeepsChild(s, e) && Next(s, e) == t
  }

  lemma FirstSteps()
    ensures Leads(State(0, Absent, Absent, map[], None, {}), Start(1), Early(Absent, TryCreate, {}))
    ensures Leads(Early(Absent, TryCreate, {}), Step(1, Go), Early(Stamp(1, 0), Holding(ReadRun), {}))
    ensures Leads(Early(Stamp(1, 0), Holding(ReadRun), {}), Step(1, Fresh), Early(Stamp(1, 0), Holding(Walk(0)), {}))
    ensures Leads(Early(Stamp(1, 0), Holding(Walk(0)), {}), Step(1, Spawn(9)), Early(Stamp(1, 0), Holding(Probe(0, 9)), {9}))
  {
  }

  lemma CarefulFrom(s: State, e: Event, t: State, es: seq<Event>)
    requires Leads(s, e, t) && Run(t, es) && CarefulRun(t, es)
    ensures Run(s, [e] + es) && CarefulRun(s, [e] + es) && After(s, [e] + es) == After(t, es)
  {
    CarefulBefore(s, e, es);
  }

  /** An `up` on an empty machine that has just spawned child 9: dying and throwing both lose it. */
  lemma AChildCanBeLost(s: State, es: seq<Event>)
    requires s == State(0, Absent, Absent, map[], None, {})
    requires es == [Start(1)] + ([Step(1, Go)] + ([Step(1, Fresh)] + ([Step(1, Spawn(9))] + [])))
    ensures Initial(s) && Run(s, es) && CarefulRun(s, es)
    ensures
      var t := After(s, es);
      && Alive(t, 1) && OwnsUnrecordedChild(t.procs[1].pc) && ChildOf(t.procs[1].pc.section) in t.daemons
      && Strays(Next(t, Crash(1))) && Strays(Next(t, Throw(1)))
  {
    hide Strays, CarefulRun, Run, After, Next, Leads;
    var s1, s2 := Early(Absent, TryCreate, {}), Early(Stamp(1, 0), Holding(ReadRun), {});
    var s3, s4 := Early(Stamp(1, 0), Holding(Walk(0)), {}), Early(Stamp(1, 0), Holding(Probe(0, 9)), {9});
    FirstSteps();
    NoEvents(s4);
    CarefulFrom(s3, Step(1, Spawn(9)), s4, []);
    CarefulFrom(s2, Step(1, Fresh), s3, [Step(1, Spawn(9))] + []);
    CarefulFrom(s1, Step(1, Go), s2, [Step(1, Fresh)] + ([Step(1, Spawn(9))] + []));
    CarefulFrom(s, Start(1), s1, [Step(1, Go)] + ([Step(1, Fresh)] + ([Step(1, Spawn(9))] + [])));
    ChildIsLost(s4);
  }

  lemma NoEvents(s: State)
    ensures Run(s, []) && CarefulRun(s, []) && After(s, []) == s
  {
  }

  lemma ChildIsLost(s: State)
    requires Alive(s, 1) && s.procs[1].pc == Holding(Probe(0, 9)) && Owned(s.lf, 1) && s.bf.Absent? && s.run.None? && 9 in s.daemons
    ensures Strays(Next(s, Crash(1))) && Strays(Next(s, Throw(1)))
  {
    hide Strays;
    assert !AllRecorded(s);
    NewcomerFreesLock(Next(s, Crash(1)));
    var t1 := Next(s, Throw(1));
    var t2 := Next(t1, Step(1, Go));
    StraysNow(Next(t2, Step(1, Go)));
    StraysBefore(t2, Step(1, Go));
    StraysBefore(t1, Step(1, Go));
  }

  lemma CarefulBefore(s: State, e: Event, es: seq<Event>)
    requires Enabled(s, e) && Guarded(s, e) && KeepsChild(s, e) && Run(Next(s, e), es) && CarefulRun(Next(s, e), es)
    ensures Run(s, [e] + es) && CarefulRun(s, [e] + es) && After(s, [e] + es) == After(Next(s, e), es)
  {
    assert ([e] + es)[1..] == es;
  }

  /** The condition is exact: an `up` that throws there frees the lock and leaves its child unrecorded iff the child lives. */
  lemma LosingAChildIsExact(s: State, es: seq<Event>, p: int)
    requires Initial(s) && Run(s, es) && CarefulRun(s, es)
    requires var t := After(s, es); Alive(t, p) && OwnsUnrecordedChild(t.procs[p].pc)
    ensures
      var t := After(s, es);
      var fs := [Throw(p), Step(p, Go), Step(p, Go)];
      Run(t, fs) && After(t, fs).lf.Absent? && (AllRecorded(After(t, fs)) <==> ChildOf(t.procs[p].pc.section) !in t.daemons)
  {
    DaemonsRun(s, es);
    var t := After(s, es);
    assert ProcOk(t, p) && SectionOk(t, t.procs[p].pc.section);
    var t1 := Next(t, Throw(p));
    var t2 := Next(t1, Step(p, Go));
    var t3 := Next(t2, Step(p, Go));
    GuardedBefore(t2, Step(p, Go), []);
    GuardedBefore(t1, Step(p, Go), [Step(p, Go)] + []);
    GuardedBefore(t, Throw(p), [Step(p, Go)] + ([Step(p, Go)] + []));
    assert [Throw(p)] + ([Step(p, Go)] + ([Step(p, Go)] + [])) == [Throw(p), Step(p, Go), Step(p, Go)];
    var c := ChildOf(t.procs[p].pc.section);
    assert AllRecorded(t3) <==> c !in t.daemons;
  }
}
