/**
 What becomes of an `up` that meets a live holder or breaker of the cold-start lock, and of one inside the locked
 section: when it waits, when it gives up, when it gets the lock, which port it tries next.
 */
module ColdStartWaits {

  import opened ColdStart
  import opened Options

  // ----- giving up

  /** The time at which p starts in this run, if it does. */
  ghost function StartTime(s: State, es: seq<Event>, p: int): int
    requires Run(s, es)
    decreases |es|
  {
    if es == [] then 0 else if es[0] == Start(p) then s.now else StartTime(Next(s, es[0]), es[1..], p)
  }

  lemma NextKeepsProcs(s: State, e: Event, p: int)
    requires Enabled(s, e) && p in s.procs
    ensures p in Next(s, e).procs && Next(s, e).procs[p].deadline == s.procs[p].deadline && Next(s, e).now >= s.now
    ensures Next(s, e).procs[p].pc.Failed? && !s.procs[p].pc.Failed? ==> s.now >= s.procs[p].deadline
  {
  }

  lemma {:induction false} DeadlineStays(s: State, es: seq<Event>, p: int)
    requires Run(s, es) && p in s.procs && (s.procs[p].pc.Failed? ==> s.now >= s.procs[p].deadline)
    ensures p in After(s, es).procs && After(s, es).procs[p].deadline == s.procs[p].deadline && After(s, es).now >= s.now
    ensures After(s, es).procs[p].pc.Failed? ==> After(s, es).now >= s.procs[p].deadline
    decreases |es|
  {
    hide Next, Enabled;
    if es != [] {
      NextKeepsProcs(s, es[0], p);
      DeadlineStays(Next(s, es[0]), es[1..], p);
    }
  }

  /** Over every run: an `up` that has given up was started at least 60 seconds before. */
  lemma {:induction false} FailedIsOverdue(s: State, es: seq<Event>, p: int)
    requires Run(s, es) && p !in s.procs && p in After(s, es).procs
    ensures After(s, es).procs[p].deadline == StartTime(s, es, p) + 60000
    ensures After(s, es).procs[p].pc.Failed? ==> After(s, es).now >= StartTime(s, es, p) + 60000
    decreases |es|
  {
    if es != [] {
      var t := Next(s, es[0]);
      if p in t.procs {
        assert es[0] == Start(p);
        DeadlineStays(t, es[1..], p);
      } else {
        FailedIsOverdue(t, es[1..], p);
      }
    }
  }

  /** Stamped by a running process at most 30 seconds ago. */
  predicate Fresh(s: State, h: File) {
    h.Stamp? && h.pid in s.procs && s.procs[h.pid].alive && s.now - h.at <= 30000
  }

  predicate JustRead(pc: Pc, h: File) { pc == JudgeLock(h) || pc == JudgeBreak(h) }

  /**
   Behind a live, fresh holder or breaker an `up` tries again before its deadline and gives up after it; anything
   else it read it sets out to break, whatever the time.  Judging changes nothing else.
   */
  lemma WaiterDecides(s: State, p: int, h: File)
    requires Alive(s, p) && JustRead(s.procs[p].pc, h)
    ensures
      var t := Next(s, Step(p, Go));
      && t == s.(procs := s.procs[p := s.procs[p].(pc := t.procs[p].pc)])
      && (Fresh(s, h) && s.now < s.procs[p].deadline ==> t.procs[p].pc.TryCreate?)
      && (Fresh(s, h) && s.now >= s.procs[p].deadline ==> t.procs[p].pc.Failed?)
      && (!Fresh(s, h) ==> t.procs[p].pc == if s.procs[p].pc.JudgeLock? then TryBreak else UnlinkBreak)
  {
  }

  /** Nothing else makes an `up` give up. */
  lemma GivesUpBehindLiveOnly(s: State, e: Event, p: int)
    requires Enabled(s, e) && p in s.procs && !s.procs[p].pc.Failed? && Next(s, e).procs[p].pc.Failed?
    ensures e.Step? && e.p == p && s.now >= s.procs[p].deadline && exists h :: JustRead(s.procs[p].pc, h) && Fresh(s, h)
  {
    assert e.Step? && e.p == p;
    assert JustRead(s.procs[p].pc, s.procs[p].pc.h);
  }

  // ----- a waiter gets the lock once nobody else runs

  predicate Idle(pc: Pc) { pc.Done? || pc.Failed? }

  /** Missing, or left by nobody who is running. */
  predicate Left(s: State, f: File) {
    f.Stamp? ==> !Alive(s, f.pid)
  }

  /** p waits or breaks or holds; whoever else is running has ended its own `up`, and left neither file behind. */
  ghost predicate Unopposed(s: State, p: int) {
    && Alive(s, p) && !Idle(s.procs[p].pc) && !s.procs[p].pc.ReadOwnLock? && !s.procs[p].pc.UnlinkOwnLock?
    && (forall q :: Alive(s, q) && q != p ==> Idle(s.procs[q].pc))
    && (if s.procs[p].pc.Holding? then Owned(s.lf, p) else Left(s, s.lf))
    && (if InBreak(s.procs[p].pc) then Owned(s.bf, p) else Left(s, s.bf))
  }

  /** An upper bound of the steps p still takes, whatever it read before. */
  function StepsToLock(s: State, p: int): nat
    requires p in s.procs
  {
    var free := if s.lf.Absent? then 1 else if s.bf.Absent? || Owned(s.bf, p) then 10 else 17;
    match s.procs[p].pc
    case TryCreate => free
    case ReadLock => if s.bf.Absent? then 9 else 16
    case JudgeLock(h) => if !IsStale(s, h) then 18 else if s.bf.Absent? then 8 else 15
    case TryBreak => if s.bf.Absent? then 7 else 14
    case ReadBreak => 13
    case JudgeBreak(h) => if IsStale(s, h) then 12 else 18
    case UnlinkBreak => 11
    case Reread => 6
    case Rejudge(h, _) => if IsStale(s, h) then 5 else 13
    case Unlink => 4
    case ReadOwnBreak => if s.lf.Absent? then 3 else 12
    case UnlinkOwnBreak => if s.lf.Absent? then 2 else 11
    case _ => 0
  }

  lemma OwnStepNearsLock(s: State, p: int)
    requires Unopposed(s, p) && StepsToLock(s, p) > 0 && s.now < s.procs[p].deadline
    ensures Enabled(s, Step(p, Go)) && Unopposed(Next(s, Step(p, Go)), p)
    ensures StepsToLock(Next(s, Step(p, Go)), p) < StepsToLock(s, p)
  {
    var t := Next(s, Step(p, Go));
    assert forall q :: Alive(t, q) <==> Alive(s, q);
    assert forall q :: Alive(t, q) && q != p ==> t.procs[q] == s.procs[q];
  }

  lemma TimeKeepsUnopposed(s: State, e: Event, p: int)
    requires Unopposed(s, p) && Enabled(s, e) && e.Tick?
    ensures Unopposed(Next(s, e), p) && StepsToLock(Next(s, e), p) <= StepsToLock(s, p) && Next(s, e).procs == s.procs
  {
    var t := Next(s, e);
    assert forall q :: Alive(t, q) <==> Alive(s, q);
  }

  /** p holds the lock at some point of this run. */
  ghost predicate Acquires(s: State, es: seq<Event>, p: int)
    requires Run(s, es)
    decreases |es|
  {
    (p in s.procs && s.procs[p].pc.Holding?) || (es != [] && Acquires(Next(s, es[0]), es[1..], p))
  }

  /**
   An `up` that waited for a holder, or for a breaker, and is left alone with what they left, gets the lock: by its
   18th step from then on it has held it, unless its deadline passes first, and until then it does not give up.
   */
  lemma {:induction false} WaiterAcquires(s: State, es: seq<Event>, p: int)
    requires Unopposed(s, p) && Run(s, es) && OnlyTimeAnd(es, p) && After(s, es).now < s.procs[p].deadline
    ensures StepsToLock(s, p) <= 18 && (StepsToLock(s, p) == 0 <==> s.procs[p].pc.Holding?)
    ensures OwnSteps(es, p) >= StepsToLock(s, p) ==> Acquires(s, es, p)
    ensures !Acquires(s, es, p) ==> Unopposed(After(s, es), p)
    decreases |es|
  {
    if es != [] && !s.procs[p].pc.Holding? {
      var t := Next(s, es[0]);
      assert es[0] in es;
      TimeGoesOn(t, es[1..]);
      assert t.now >= s.now;
      if es[0].Step? {
        OwnStepNearsLock(s, p);
        NextKeepsProcs(s, es[0], p);
      } else {
        TimeKeepsUnopposed(s, es[0], p);
      }
      WaiterAcquires(t, es[1..], p);
    }
  }

  lemma {:induction false} TimeGoesOn(s: State, es: seq<Event>)
    requires Run(s, es)
    ensures After(s, es).now >= s.now
    decreases |es|
  {
    if es != [] { TimeGoesOn(Next(s, es[0]), es[1..]); }
  }

  // ----- who removes what

  /** A release takes the lock, and a breaker its mutex, off the disk exactly if it still carries the own stamp. */
  lemma ReleaseDecides(s: State, p: int)
    requires Alive(s, p) && (s.procs[p].pc.ReadOwnLock? || s.procs[p].pc.ReadOwnBreak?)
    ensures
      var t, lock := Next(s, Step(p, Go)), s.procs[p].pc.ReadOwnLock?;
      var after := if lock then Done else TryCreate;
      && t.lf == s.lf && t.bf == s.bf
      && (if Owned(if lock then s.lf else s.bf, p) then
            && t.procs[p].pc != after && Enabled(t, Step(p, Go))
            && var u := Next(t, Step(p, Go));
               u.procs[p].pc == after && (if lock then u.lf.Absent? && u.bf == s.bf else u.bf.Absent? && u.lf == s.lf)
          else t.procs[p].pc == after)
  {
  }

  /** What the environment does: time passes, a process dies where it is, a daemon dies; and nothing else with it. */
  lemma EnvironmentActs(s: State, e: Event)
    requires Enabled(s, e) && (e.Tick? || e.Crash? || e.DaemonDies? || e.Start?)
    ensures
      var t := Next(s, e);
      && t.lf == s.lf && t.bf == s.bf && t.run == s.run && t.now == (if e.Tick? then s.now + e.ms else s.now)
      && t.daemons == (if e.DaemonDies? then s.daemons - {e.d} else s.daemons)
      && (forall q :: q in s.procs ==> q in t.procs && t.procs[q].pc == s.procs[q].pc && (Alive(t, q) <==> Alive(s, q) && e != Crash(q)))
      && (e.Start? ==> e.p !in s.procs && Alive(t, e.p) && t.procs[e.p].pc.TryCreate?)
  {
  }

  /** Stamped by a live holder, and by a live breaker, at most 30 seconds ago. */
  ghost predicate HeldFresh(s: State) {
    && (forall p :: Holds(s, p) ==> Owned(s.lf, p) && Fresh(s, s.lf))
    && (forall p :: Alive(s, p) && InBreak(s.procs[p].pc) ==> Owned(s.bf, p) && Fresh(s, s.bf))
  }

  lemma HeldFreshStep(s: State, e: Event)
    requires Inv(s) && HeldFresh(s) && Enabled(s, e) && Guarded(s, e)
    ensures HeldFresh(Next(s, e))
  {
    InvStep(s, e);
    var t := Next(s, e);
    forall p | Holds(t, p) ensures Owned(t.lf, p) && Fresh(t, t.lf) {
      assert ProcOk(t, p);
      assert p in s.procs ==> ProcOk(s, p);
    }
    forall p | Alive(t, p) && InBreak(t.procs[p].pc) ensures Owned(t.bf, p) && Fresh(t, t.bf) {
      assert ProcOk(t, p);
    }
  }

  lemma {:induction false} HeldFreshRun(s: State, es: seq<Event>)
    requires Inv(s) && HeldFresh(s) && Run(s, es) && GuardedRun(s, es)
    ensures HeldFresh(After(s, es))
    decreases |es|
  {
    hide HeldFresh, Inv, Next, Enabled, Guarded;
    if es != [] {
      InvStep(s, es[0]);
      HeldFreshStep(s, es[0]);
      HeldFreshRun(Next(s, es[0]), es[1..]);
    }
  }

  /**
   Over every guarded run: whoever reads the lock of a running holder, or the mutex of a running breaker, finds it
   fresh, so by `WaiterDecides` it waits and does not set out to break it.
   */
  lemma HoldersAreFresh(s: State, es: seq<Event>)
    requires Initial(s) && Run(s, es) && GuardedRun(s, es)
    ensures HeldFresh(After(s, es))
  {
    HeldFreshRun(s, es) by { StartsFresh(s); }
  }

  lemma StartsFresh(s: State)
    requires Initial(s)
    ensures Inv(s) && HeldFresh(s)
  {
  }

  // ----- inside the locked section

  /** With a recorded daemon that answers well nothing is touched; otherwise it is stopped first; then the first port is next. */
  lemma RecordDecides(s: State, p: int, c: Choice)
    requires Alive(s, p) && s.procs[p].pc == Holding(ReadRun) && Enabled(s, Step(p, c))
    ensures
      var t := Next(s, Step(p, c));
      && t.daemons == s.daemons && t.run == s.run && (c.Reuse? || c.Replace? || c.Fresh?)
      && (c.Fresh? <==> s.run.None? || s.run.value !in s.daemons)
      && (c.Reuse? ==> t.procs[p].pc.ReadOwnLock?)
      && (c.Fresh? ==> t.procs[p].pc == Holding(Walk(0)))
    ensures
      c.Replace? ==>
        var t := Next(s, Step(p, c));
        && t.procs[p].pc.Holding? && Enabled(t, Step(p, Go))
        && var u := Next(t, Step(p, Go));
           u.daemons == s.daemons - {s.run.value} && u.run == s.run && u.procs[p].pc == Holding(Walk(0))
  {
  }

  /**
   A child that serves its port is recorded and left alone.  Any other is stopped and not recorded; the next port is
   tried exactly if the child had died or, with the port not pinned, somebody else answered there.
   */
  lemma ProbeDecides(s: State, p: int, i: nat, child: int, c: Choice)
    requires Alive(s, p) && s.procs[p].pc == Holding(Probe(i, child)) && Enabled(s, Step(p, c))
    ensures
      var t := Next(s, Step(p, c));
      && t.daemons == s.daemons && t.run == s.run && Enabled(t, Step(p, Go))
      && var u := Next(t, Step(p, Go));
         if c.Mine? then u.run == Some(child) && u.daemons == s.daemons && u.procs[p].pc.ReadOwnLock?
         else
           && u.run == s.run && child !in u.daemons && (forall d :: d in s.daemons && d != child ==> d in u.daemons)
           && u.procs[p].pc == (if c == ChildDead || c == Foreign(false) then Holding(Walk(i + 1)) else ReadOwnLock)
  {
  }

  /** At most 64 ports are tried: a child is spawned for the ports 0 to 63 only, and after the last the `up` ends. */
  lemma PortDecides(s: State, p: int, i: nat, c: Choice)
    requires Alive(s, p) && s.procs[p].pc == Holding(Walk(i)) && Enabled(s, Step(p, c))
    ensures
      var t := Next(s, Step(p, c));
      && t.run == s.run && (c.Spawn? || c.Skip? ==> i < 64)
      && (if c.Spawn? then t.daemons == s.daemons + {c.child} && c.child !in s.daemons && t.procs[p].pc == Holding(Probe(i, c.child))
          else t.daemons == s.daemons && t.procs[p].pc == if c.Skip? then Holding(Walk(i + 1)) else ReadOwnLock)
    ensures i < 64 ==> Enabled(s, Step(p, Skip))
  {
  }

  predicate PortOf(pc: Pc, last: nat) {
    pc.Holding? ==>
      match pc.section
      case Walk(i) => i <= last
      case Probe(i, _) => i < last
      case Reap(i, _, _) => i < last
      case _ => true
  }

  lemma {:induction false} PortsAreBounded(s: State, es: seq<Event>)
    requires Run(s, es) && forall p :: p in s.procs ==> PortOf(s.procs[p].pc, 64)
    ensures forall p :: p in After(s, es).procs ==> PortOf(After(s, es).procs[p].pc, 64)
    decreases |es|
  {
    if es != [] {
      var t := Next(s, es[0]);
      forall p | p in t.procs ensures PortOf(t.procs[p].pc, 64) {
        assert p in s.procs ==> PortOf(s.procs[p].pc, 64);
      }
      PortsAreBounded(t, es[1..]);
    }
  }
}
