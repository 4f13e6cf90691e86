/**
 A scheduler that was stopped and started again any number of times, beside one that never stopped and was fed the same
 calls: when their entries count alike.
 */
module BreakerSessions {

  import opened Options
  import opened BreakerCore
  import opened BreakerHistory
  import opened BreakerRestart

  /** One restart and what is called afterwards: the file was written with its providers in this order, at this time. */
  datatype Phase = Phase(ks: seq<string>, written: int, cfg: Config, boot: Core, now: int, ops: seq<Op>)

  function Restored(cfg: Config, c: Core, p: Phase): Core {
    Restore(p.cfg, p.boot, Snapshot(cfg.digest, c, p.ks, p.written), p.now)
  }

  /** The breaker after its first calls, which began empty, and these restarts. */
  function Session(cfg: Config, ops: seq<Op>, phases: seq<Phase>): Core {
    if phases == [] then Run(cfg, EMPTY, ops)
    else
      var p := phases[|phases| - 1];
      Run(p.cfg, Restored(cfg, Session(cfg, ops, phases[..|phases| - 1]), p), p.ops)
  }

  /** All that was called. */
  function Calls(ops: seq<Op>, phases: seq<Phase>): seq<Op> {
    if phases == [] then ops else Calls(ops, phases[..|phases| - 1]) + phases[|phases| - 1].ops
  }

  /** The breaker that never stopped. */
  function Unstopped(cfg: Config, ops: seq<Op>, phases: seq<Phase>): Core {
    Run(cfg, EMPTY, Calls(ops, phases))
  }

  /** The new scheduler has recorded nothing, and the file lists what the old one kept. */
  ghost predicate Boots(c: Core, p: Phase) {
    AtBoot(p.boot) && Lists(p.ks, c)
  }

  ghost predicate AllBoot(cfg: Config, ops: seq<Op>, phases: seq<Phase>) {
    phases == []
    || (AllBoot(cfg, ops, phases[..|phases| - 1]) && Boots(Session(cfg, ops, phases[..|phases| - 1]), phases[|phases| - 1]))
  }

  /** Every scheduler runs with the same threshold and hash; the probe intervals may differ. */
  ghost predicate Uniform(cfg: Config, phases: seq<Phase>) {
    cfg.threshold > 0 && forall i :: 0 <= i < |phases| ==> SameRules(cfg, phases[i].cfg)
  }

  ghost predicate SameRules(cfg: Config, cfg': Config) { cfg.threshold == cfg'.threshold && cfg.digest == cfg'.digest }

  lemma {:induction false} RunConcat(cfg: Config, c: Core, a: seq<Op>, b: seq<Op>)
    ensures Run(cfg, c, a + b) == Run(cfg, Run(cfg, c, a), b)
    decreases |b|
  {
    if b == [] {
      assert a + b == a;
    } else {
      assert (a + b)[..|a + b| - 1] == a + b[..|b| - 1];
      RunConcat(cfg, c, a, b[..|b| - 1]);
    }
  }

  // ----- what each restart resumes

  /** Every provider entry a breaker ever keeps is named `provider:class`, however often it was restarted. */
  lemma {:induction false} KeysAreNamed(cfg: Config, ops: seq<Op>, phases: seq<Phase>)
    requires AllBoot(cfg, ops, phases)
    ensures KeysNamed(Session(cfg, ops, phases))
    decreases |phases|
  {
    if phases == [] {
      RunKeepsNames(cfg, EMPTY, ops);
    } else {
      var n := |phases| - 1;
      var p, c := phases[n], Session(cfg, ops, phases[..n]);
      KeysAreNamed(cfg, ops, phases[..n]);
      RestoreKeepsNames(cfg, c, p);
      RunKeepsNames(p.cfg, Restored(cfg, c, p), p.ops);
    }
  }

  lemma RestoreKeepsNames(cfg: Config, c: Core, p: Phase)
    requires KeysNamed(c) && Boots(c, p)
    ensures KeysNamed(Restored(cfg, c, p))
  {
    hide Restore, Snapshot, NamesProvider;
    forall k | k in Restored(cfg, c, p).byProvider ensures NamesProvider(k) {
      ResumesExactly(cfg.digest, c, p.ks, p.written, p.cfg, p.boot, p.now, "", k);
    }
  }

  /**
   Whatever restarts went before, the next one resumes exactly the open and half-open entries whose last failure is
   younger than the new probe interval, with their streak, their times and the persisted form of their key.
   */
  lemma RestartResumesExactly(cfg: Config, ops: seq<Op>, phases: seq<Phase>, p: Phase, agent: string, pkey: string)
    requires AllBoot(cfg, ops, phases) && Boots(Session(cfg, ops, phases), p)
    ensures
      var c := Session(cfg, ops, phases);
      var r := Restored(cfg, c, p);
      && (agent in r.byAgent <==> Recent(p.cfg, AgentEntry(c, agent), p.written, p.now))
      && (agent in r.byAgent ==> r.byAgent[agent] == Back(Save(cfg.digest, AgentEntry(c, agent))))
      && (pkey in r.byProvider <==> Recent(p.cfg, ProviderEntry(c, pkey), p.written, p.now))
      && (pkey in r.byProvider ==> r.byProvider[pkey] == Back(Save(cfg.digest, ProviderEntry(c, pkey))))
  {
    KeysAreNamed(cfg, ops, phases);
    ResumesExactly(cfg.digest, Session(cfg, ops, phases), p.ks, p.written, p.cfg, p.boot, p.now, agent, pkey);
  }

  // ----- agents

  /** The error classes and the unclassified last lines that occur. */
  datatype Words = Words(classes: set<string>, tails: set<string>)

  /** Tails, class names and persisted tails are told apart. */
  ghost predicate Shaped(digest: string -> string, w: Words) {
    && w.classes !! w.tails
    && "" !in w.classes && "" !in w.tails && "(no-output)" !in w.tails
    && (forall k :: k in w.classes + w.tails ==> !IsHashed(k))
    && (forall s :: s in w.tails ==> EightHex(digest(s)))
  }

  predicate Speaks(w: Words, op: Op) {
    op.Fired? ==>
      if op.f.errorClass.Some? then op.f.errorClass.value in w.classes else op.f.lastLine == "" || op.f.lastLine in w.tails
  }

  /** Where an agent entry's key can come from. */
  predicate Spoken(w: Words, e: Entry) {
    e.key.None? ||
    if e.lastErrorClass.Some? then e.key == e.lastErrorClass && e.key.value in w.classes
    else e.key.value == "(no-output)" || e.key.value in w.tails
  }

  ghost predicate SpeaksAll(w: Words, ops: seq<Op>) {
    forall op :: op in ops ==> Speaks(w, op)
  }

  /** If the entry's key is an unclassified tail, no other tail has its eight digits. */
  ghost predicate Lone(digest: string -> string, w: Words, e: Entry) {
    e.key.Some? && e.lastErrorClass.None? && e.key.value in w.tails ==>
      forall t :: t in w.tails && digest(t) == digest(e.key.value) ==> t == e.key.value
  }

  /** u never stopped, r did: the same count, and the same key or still the persisted form of a tail nobody shares. */
  ghost predicate Twin(digest: string -> string, w: Words, u: Entry, r: Entry) {
    && u.streak == r.streak && u.open == r.open && u.lastErrorClass == r.lastErrorClass && u.key.Some? == r.key.Some?
    && (u.key.Some? ==> r.key == u.key || (r.key.value == PersistedKey(digest, u.key.value, u.lastErrorClass) && Lone(digest, w, u)))
  }

  lemma Hashed(digest: string -> string, s: string)
    requires EightHex(digest(s)) && !IsHashed(s) && s != "(no-output)"
    ensures var h := PersistedKey(digest, s, None); IsHashed(h) && h != "(no-output)" && h[20..28] == digest(s)
  {
    var h := PersistedKey(digest, s, None);
    assert h == "(unclassified tail #" + digest(s) + ")";
    assert h[..20] == "(unclassified tail #" && h[28] == ')' && h[20..28] == digest(s);
    assert forall i :: 20 <= i < 28 ==> h[i] == digest(s)[i - 20];
  }

  /** Both twins judge alike whether a failure continues their streak. */
  lemma TwinsContinueAlike(digest: string -> string, w: Words, u: Entry, r: Entry, f: Fire)
    requires Shaped(digest, w) && Speaks(w, Fired(f)) && Spoken(w, u) && Twin(digest, w, u, r) && u.key.Some?
    ensures Continues(digest, u.key.value, KeyOf(f), f.errorClass) <==> Continues(digest, r.key.value, KeyOf(f), f.errorClass)
  {
    var key, k := KeyOf(f), u.key.value;
    if r.key != u.key && k in w.tails {
      Hashed(digest, k);
      if key in w.tails && f.errorClass.None? {
        Hashed(digest, key);
        ContinuesOnSameKey(digest, k, key, f.errorClass);
      }
    }
  }

  lemma FailedTwins(cfg: Config, cfg': Config, w: Words, u: Entry, r: Entry, f: Fire)
    requires SameRules(cfg, cfg') && Shaped(cfg.digest, w) && Speaks(w, Fired(f))
    requires Spoken(w, u) && Twin(cfg.digest, w, u, r)
    ensures Spoken(w, FailAgent(u, cfg, f)) && Twin(cfg.digest, w, FailAgent(u, cfg, f), FailAgent(r, cfg', f))
  {
    hide PersistedKey, Lone, IsHashed;
    if u.key.Some? { TwinsContinueAlike(cfg.digest, w, u, r, f); }
  }

  lemma AgentTwinStep(cfg: Config, cfg': Config, w: Words, u: Core, r: Core, op: Op, agent: string)
    requires cfg.threshold > 0 && SameRules(cfg, cfg') && Shaped(cfg.digest, w) && Speaks(w, op)
    requires Spoken(w, AgentEntry(u, agent)) && Twin(cfg.digest, w, AgentEntry(u, agent), AgentEntry(r, agent))
    ensures Spoken(w, AgentEntry(Apply(cfg, u, op), agent))
    ensures Twin(cfg.digest, w, AgentEntry(Apply(cfg, u, op), agent), AgentEntry(Apply(cfg', r, op), agent))
  {
    hide Apply, FailAgent, Shaped;
    AgentStep(cfg, u, op, agent);
    AgentStep(cfg', r, op, agent);
    var o := AgentOutcome(op, agent);
    if o.Some? && o.value.Bad? {
      var ue :| SameCount(AgentEntry(u, agent), ue) && AgentEntry(Apply(cfg, u, op), agent) == FailAgent(ue, cfg, op.f);
      var re :| SameCount(AgentEntry(r, agent), re) && AgentEntry(Apply(cfg', r, op), agent) == FailAgent(re, cfg', op.f);
      FailedTwins(cfg, cfg', w, ue, re, op.f);
    }
  }

  lemma {:induction false} AgentsInLockstep(cfg: Config, cfg': Config, w: Words, u: Core, r: Core, ops: seq<Op>, agent: string)
    requires cfg.threshold > 0 && SameRules(cfg, cfg') && Shaped(cfg.digest, w) && SpeaksAll(w, ops)
    requires Spoken(w, AgentEntry(u, agent)) && Twin(cfg.digest, w, AgentEntry(u, agent), AgentEntry(r, agent))
    ensures Spoken(w, AgentEntry(Run(cfg, u, ops), agent))
    ensures Twin(cfg.digest, w, AgentEntry(Run(cfg, u, ops), agent), AgentEntry(Run(cfg', r, ops), agent))
    decreases |ops|
  {
    hide Apply, Twin, Spoken, Shaped, Speaks;
    if ops != [] {
      var before := ops[..|ops| - 1];
      assert forall op :: op in before ==> op in ops;
      AgentsInLockstep(cfg, cfg', w, u, r, before, agent);
      AgentTwinStep(cfg, cfg', w, Run(cfg, u, before), Run(cfg', r, before), ops[|ops| - 1], agent);
    }
  }

  /** A restart that resumes one twin leaves it a twin when the other's key is lone, also if it was persisted before. */
  lemma RestoredTwins(digest: string -> string, w: Words, u: Entry, r: Entry)
    requires Shaped(digest, w) && Spoken(w, u) && Twin(digest, w, u, r) && r.open
    ensures
      var s := Back(Save(digest, r));
      && s.streak == u.streak && s.open == u.open && s.lastErrorClass == u.lastErrorClass
      && s.key == (if u.key.None? then None else Some(PersistedKey(digest, u.key.value, u.lastErrorClass)))
    ensures Lone(digest, w, u) ==> Twin(digest, w, u, Back(Save(digest, r)))
  {
    hide Lone, IsHashed;
    if u.key.Some? && u.key.value in w.tails && u.lastErrorClass.None? { PersistedKeyIsIdempotent(digest, u.key.value, None); }
  }

  /** Each restart resumed the agent's entry, which in the breaker that never stopped had a lone key. */
  ghost predicate AgentKept(cfg: Config, w: Words, ops: seq<Op>, phases: seq<Phase>, agent: string) {
    phases == []
    || (var before, p := phases[..|phases| - 1], phases[|phases| - 1];
        && AgentKept(cfg, w, ops, before, agent)
        && Recent(p.cfg, AgentEntry(Session(cfg, ops, before), agent), p.written, p.now)
        && Lone(cfg.digest, w, AgentEntry(Unstopped(cfg, ops, before), agent)))
  }

  lemma {:induction false} AgentsFollow(cfg: Config, w: Words, ops: seq<Op>, phases: seq<Phase>, agent: string)
    requires Uniform(cfg, phases) && AllBoot(cfg, ops, phases) && Shaped(cfg.digest, w) && SpeaksAll(w, Calls(ops, phases))
    requires AgentKept(cfg, w, ops, phases, agent)
    ensures
      var u := AgentEntry(Unstopped(cfg, ops, phases), agent);
      Spoken(w, u) && Twin(cfg.digest, w, u, AgentEntry(Session(cfg, ops, phases), agent))
    decreases |phases|
  {
    hide Restored, Twin, Spoken, Shaped, Lone, Recent, Run, Boots, Speaks;
    if phases == [] {
      NothingYet(cfg, w);
      AgentsInLockstep(cfg, cfg, w, EMPTY, EMPTY, ops, agent);
    } else {
      var n := |phases| - 1;
      var before, p := phases[..n], phases[n];
      assert forall i :: 0 <= i < n ==> before[i] == phases[i];
      assert forall op :: op in Calls(ops, before) || op in p.ops ==> op in Calls(ops, phases);
      AgentsFollow(cfg, w, ops, before, agent);
      RestartResumesExactly(cfg, ops, before, p, agent, "");
      var u, c := Unstopped(cfg, ops, before), Session(cfg, ops, before);
      ResumedTwin(cfg, w, u, c, p, agent);
      AgentsInLockstep(cfg, p.cfg, w, u, Restored(cfg, c, p), p.ops, agent);
      RunConcat(cfg, EMPTY, Calls(ops, before), p.ops);
    }
  }

  lemma NothingYet(cfg: Config, w: Words)
    ensures Spoken(w, FRESH) && Twin(cfg.digest, w, FRESH, FRESH)
  {
  }

  lemma ResumedTwin(cfg: Config, w: Words, u: Core, c: Core, p: Phase, agent: string)
    requires Shaped(cfg.digest, w) && Spoken(w, AgentEntry(u, agent)) && Twin(cfg.digest, w, AgentEntry(u, agent), AgentEntry(c, agent))
    requires Recent(p.cfg, AgentEntry(c, agent), p.written, p.now)
    requires agent in Restored(cfg, c, p).byAgent && Restored(cfg, c, p).byAgent[agent] == Back(Save(cfg.digest, AgentEntry(c, agent)))
    ensures Lone(cfg.digest, w, AgentEntry(u, agent)) ==> Twin(cfg.digest, w, AgentEntry(u, agent), AgentEntry(Restored(cfg, c, p), agent))
    ensures
      var e, r := AgentEntry(u, agent), AgentEntry(Restored(cfg, c, p), agent);
      && r.streak == e.streak && r.open && e.open
      && r.key == (if e.key.None? then None else Some(PersistedKey(cfg.digest, e.key.value, e.lastErrorClass)))
  {
    RestoredTwins(cfg.digest, w, AgentEntry(u, agent), AgentEntry(c, agent));
  }

  ghost predicate SameVerdicts(e: Entry, e': Entry) { e.streak == e'.streak && e.open == e'.open }

  ghost predicate AgentsAlike(cfg: Config, u: Core, cfg': Config, r: Core, w: Words, agent: string) {
    forall more :: SpeaksAll(w, more) ==> SameVerdicts(AgentEntry(Run(cfg, u, more), agent), AgentEntry(Run(cfg', r, more), agent))
  }

  /**
   After any number of restarts that kept it in step, one more restart resumes an agent's entry.  It then has the
   streak and the open flag of a breaker that never stopped, whatever these words say is fired, if and only if that
   breaker's key is no unclassified tail whose eight digits another tail shares.
   */
  lemma ResumedAgentsInLockstep(cfg: Config, w: Words, ops: seq<Op>, phases: seq<Phase>, p: Phase, agent: string)
    requires Uniform(cfg, phases) && SameRules(cfg, p.cfg) && AllBoot(cfg, ops, phases) && Boots(Session(cfg, ops, phases), p)
    requires Shaped(cfg.digest, w) && SpeaksAll(w, Calls(ops, phases)) && AgentKept(cfg, w, ops, phases, agent)
    requires Recent(p.cfg, AgentEntry(Session(cfg, ops, phases), agent), p.written, p.now)
    ensures
      var u := Unstopped(cfg, ops, phases);
      AgentsAlike(cfg, u, p.cfg, Restored(cfg, Session(cfg, ops, phases), p), w, agent) <==> Lone(cfg.digest, w, AgentEntry(u, agent))
  {
    hide Restored, Shaped, Lone, Recent, Run, Boots, Speaks, Session, Calls;
    var u, c := Unstopped(cfg, ops, phases), Session(cfg, ops, phases);
    var r := Restored(cfg, c, p);
    AgentsFollow(cfg, w, ops, phases, agent);
    RestartResumesExactly(cfg, ops, phases, p, agent, "");
    ResumedTwin(cfg, w, u, c, p, agent);
    if Lone(cfg.digest, w, AgentEntry(u, agent)) {
      forall more | SpeaksAll(w, more)
        ensures SameVerdicts(AgentEntry(Run(cfg, u, more), agent), AgentEntry(Run(p.cfg, r, more), agent))
      {
        AgentsInLockstep(cfg, p.cfg, w, u, r, more, agent);
      }
    } else {
      OpenHasStreak(cfg, Calls(ops, phases), agent);
      SharedDigitsSlip(cfg, p.cfg, w, u, r, agent);
    }
  }

  /** An open entry has failures to its streak. */
  lemma {:induction false} OpenHasStreak(cfg: Config, ops: seq<Op>, agent: string)
    requires cfg.threshold > 0
    ensures var e := AgentEntry(Run(cfg, EMPTY, ops), agent); e.open ==> e.streak > 0
    decreases |ops|
  {
    if ops != [] {
      OpenHasStreak(cfg, ops[..|ops| - 1], agent);
      AgentStep(cfg, Run(cfg, EMPTY, ops[..|ops| - 1]), ops[|ops| - 1], agent);
    }
  }

  /** The tail that shares the digits continues the resumed streak and starts the other one again. */
  lemma SharedDigitsSlip(cfg: Config, cfg': Config, w: Words, u: Core, r: Core, agent: string)
    requires cfg.threshold > 0 && SameRules(cfg, cfg') && Shaped(cfg.digest, w) && !Lone(cfg.digest, w, AgentEntry(u, agent))
    requires
      var e, s := AgentEntry(u, agent), AgentEntry(r, agent);
      e.streak > 0 && s.streak == e.streak && s.key == (if e.key.None? then None else Some(PersistedKey(cfg.digest, e.key.value, e.lastErrorClass)))
    ensures !AgentsAlike(cfg, u, cfg', r, w, agent)
  {
    var e, s := AgentEntry(u, agent), AgentEntry(r, agent);
    var t :| t in w.tails && cfg.digest(t) == cfg.digest(e.key.value) && t != e.key.value;
    var f := Fire(agent, 1, None, t, Null, false, 0);
    var more := [] + [Fired(f)];
    RunOn(cfg, u, [], Fired(f));
    RunOn(cfg', r, [], Fired(f));
    RunsOn(cfg, u);
    RunsOn(cfg', r);
    Hashed(cfg.digest, e.key.value);
    Hashed(cfg.digest, t);
    AgentFails(cfg, u, f);
    AgentFails(cfg', r, f);
    assert SpeaksAll(w, more);
  }

  lemma AgentFails(cfg: Config, c: Core, f: Fire)
    requires cfg.threshold > 0 && f.exitCode != 0 && f.errorClass.None? && !f.interrupted
    ensures
      var e := AgentEntry(c, f.agent);
      AgentEntry(Apply(cfg, c, Fired(f)), f.agent).streak ==
      if e.key.Some? && Continues(cfg.digest, e.key.value, KeyOf(f), None) then e.streak + 1 else 1
  {
    AgentStep(cfg, c, Fired(f), f.agent);
  }

  /**
   The digits matter: after a streak of one unclassified tail, the resumed and the uninterrupted entry agree on
   the next unclassified tail iff it is the same tail or has other digits.
   */
  lemma CollisionsAreTheOnlySlip(cfg: Config, e: Entry, f: Fire)
    requires e.key.Some? && e.lastErrorClass.None? && e.streak > 0 && e.open
    requires f.errorClass.None? && f.lastLine != ""
    requires forall s :: s in [e.key.value, f.lastLine] ==> EightHex(cfg.digest(s)) && !IsHashed(s) && s != "(no-output)"
    ensures FailAgent(e, cfg, f).streak == FailAgent(Back(Save(cfg.digest, e)), cfg, f).streak <==>
            (e.key.value == f.lastLine || cfg.digest(e.key.value) != cfg.digest(f.lastLine))
  {
    assert e.key.value in [e.key.value, f.lastLine] && f.lastLine in [e.key.value, f.lastLine];
    Hashed(cfg.digest, e.key.value);
    Hashed(cfg.digest, f.lastLine);
  }

  // ----- provider entries

  predicate ProviderTwin(u: Entry, r: Entry) {
    u.streak == r.streak && u.open == r.open && (u.streak > 0 ==> u.key == r.key && u.lastErrorClass == r.lastErrorClass)
  }

  /** As far as one provider entry can tell, these lane tables are the same. */
  ghost predicate SameReach(u: map<string, Option<string>>, r: map<string, Option<string>>, pkey: string) {
    forall a :: (a in u <==> a in r) && Reaches(u, a, pkey) == Reaches(r, a, pkey)
  }

  predicate Reaches(lanes: map<string, Option<string>>, agent: string, pkey: string) {
    OnLane(LaneFor(lanes, agent, Undefined), pkey)
  }

  lemma ReachAfter(u: Core, r: Core, op: Op, pkey: string)
    requires SameReach(u.lanes, r.lanes, pkey)
    ensures LaneOutcome(op, LaneNow(u, op), pkey) == LaneOutcome(op, LaneNow(r, op), pkey)
  {
    if op.Fired? {
      var f := op.f;
      assert Reaches(u.lanes, f.agent, pkey) == Reaches(r.lanes, f.agent, pkey);
      assert OnLane(LaneNow(u, op), pkey) == OnLane(LaneNow(r, op), pkey);
    }
  }

  lemma LanesAfterOp(cfg: Config, c: Core, op: Op)
    requires cfg.threshold > 0
    ensures
      Apply(cfg, c, op).lanes ==
      match op
      case Fired(f) => LanesAfter(c.lanes, f.agent, f.provider)
      case Seeded(a, lane) => if a in c.lanes then c.lanes else c.lanes[a := lane]
      case _ => c.lanes
  {
  }

  lemma ReachStays(cfg: Config, cfg': Config, u: Core, r: Core, op: Op, pkey: string)
    requires cfg.threshold > 0 && cfg'.threshold > 0 && SameReach(u.lanes, r.lanes, pkey)
    ensures SameReach(Apply(cfg, u, op).lanes, Apply(cfg', r, op).lanes, pkey)
  {
    LanesAfterOp(cfg, u, op);
    LanesAfterOp(cfg', r, op);
    hide Apply;
    forall a
      ensures a in Apply(cfg, u, op).lanes <==> a in Apply(cfg', r, op).lanes
      ensures Reaches(Apply(cfg, u, op).lanes, a, pkey) == Reaches(Apply(cfg', r, op).lanes, a, pkey)
    {
      assert (a in u.lanes <==> a in r.lanes) && Reaches(u.lanes, a, pkey) == Reaches(r.lanes, a, pkey);
    }
  }

  lemma ProviderTwinStep(cfg: Config, cfg': Config, u: Core, r: Core, op: Op, pkey: string)
    requires cfg.threshold == cfg'.threshold > 0 && LaneOutcome(op, LaneNow(u, op), pkey) == LaneOutcome(op, LaneNow(r, op), pkey)
    requires ProviderTwin(ProviderEntry(u, pkey), ProviderEntry(r, pkey))
    ensures ProviderTwin(ProviderEntry(Apply(cfg, u, op), pkey), ProviderEntry(Apply(cfg', r, op), pkey))
  {
    hide Apply, LaneOutcome, LaneNow;
    ProviderStep(cfg, u, op, pkey);
    ProviderStep(cfg', r, op, pkey);
  }

  lemma {:induction false} ProvidersInLockstep(cfg: Config, cfg': Config, u: Core, r: Core, ops: seq<Op>, pkey: string)
    requires cfg.threshold == cfg'.threshold > 0 && SameReach(u.lanes, r.lanes, pkey)
    requires ProviderTwin(ProviderEntry(u, pkey), ProviderEntry(r, pkey))
    ensures ProviderTwin(ProviderEntry(Run(cfg, u, ops), pkey), ProviderEntry(Run(cfg', r, ops), pkey))
    ensures SameReach(Run(cfg, u, ops).lanes, Run(cfg', r, ops).lanes, pkey)
    decreases |ops|
  {
    hide Apply, SameReach, ProviderTwin;
    if ops != [] {
      var before, op := ops[..|ops| - 1], ops[|ops| - 1];
      ProvidersInLockstep(cfg, cfg', u, r, before, pkey);
      ReachAfter(Run(cfg, u, before), Run(cfg', r, before), op, pkey);
      ProviderTwinStep(cfg, cfg', Run(cfg, u, before), Run(cfg', r, before), op, pkey);
      ReachStays(cfg, cfg', Run(cfg, u, before), Run(cfg', r, before), op, pkey);
    }
  }

  /** Every fire says its provider, or that it has none, as both callers of `record` do. */
  ghost predicate SaysProvider(ops: seq<Op>) {
    forall op :: op in ops && op.Fired? ==> !op.f.provider.Undefined?
  }

  /** The lane a fire names is the lane it counts for, whatever the table holds. */
  lemma NamedLaneCounts(u: Core, r: Core, op: Op, pkey: string)
    requires op.Fired? ==> !op.f.provider.Undefined?
    ensures LaneOutcome(op, LaneNow(u, op), pkey) == LaneOutcome(op, LaneNow(r, op), pkey)
  {
  }

  lemma {:induction false} NamedProvidersInLockstep(cfg: Config, cfg': Config, u: Core, r: Core, ops: seq<Op>, pkey: string)
    requires cfg.threshold == cfg'.threshold > 0 && SaysProvider(ops)
    requires ProviderTwin(ProviderEntry(u, pkey), ProviderEntry(r, pkey))
    ensures ProviderTwin(ProviderEntry(Run(cfg, u, ops), pkey), ProviderEntry(Run(cfg', r, ops), pkey))
    decreases |ops|
  {
    hide Apply, ProviderTwin;
    if ops != [] {
      var before, op := ops[..|ops| - 1], ops[|ops| - 1];
      assert forall x :: x in before ==> x in ops;
      NamedProvidersInLockstep(cfg, cfg', u, r, before, pkey);
      NamedLaneCounts(Run(cfg, u, before), Run(cfg', r, before), op, pkey);
      ProviderTwinStep(cfg, cfg', Run(cfg, u, before), Run(cfg', r, before), op, pkey);
    }
  }

  /** An open provider entry counts failures of its class, and the class is its key, which is written as it is. */
  predicate Classed(e: Entry) {
    && (e.open ==> e.streak > 0)
    && (e.streak > 0 ==> e.key.Some? && e.lastErrorClass == e.key && e.key.value in PROVIDER_SCOPED)
  }

  lemma {:induction false} ProviderKeysSurvive(cfg: Config, ops: seq<Op>, pkey: string)
    requires cfg.threshold > 0
    ensures Classed(ProviderEntry(Run(cfg, EMPTY, ops), pkey))
    decreases |ops|
  {
    if ops != [] {
      ProviderKeysSurvive(cfg, ops[..|ops| - 1], pkey);
      ProviderStep(cfg, Run(cfg, EMPTY, ops[..|ops| - 1]), ops[|ops| - 1], pkey);
    }
  }

  lemma RestoredProviderTwins(digest: string -> string, u: Entry, r: Entry)
    requires Classed(u) && ProviderTwin(u, r) && r.open
    ensures ProviderTwin(u, Back(Save(digest, r)))
  {
  }

  /** Each restart resumed the provider's entry. */
  ghost predicate ProviderKept(cfg: Config, ops: seq<Op>, phases: seq<Phase>, pkey: string) {
    phases == []
    || (var before, p := phases[..|phases| - 1], phases[|phases| - 1];
        && ProviderKept(cfg, ops, before, pkey)
        && Recent(p.cfg, ProviderEntry(Session(cfg, ops, before), pkey), p.written, p.now))
  }

  /** And left the same agents reaching it as in the breaker that never stopped. */
  ghost predicate ReachKept(cfg: Config, ops: seq<Op>, phases: seq<Phase>, pkey: string) {
    phases == []
    || (var before, p := phases[..|phases| - 1], phases[|phases| - 1];
        && ReachKept(cfg, ops, before, pkey)
        && SameReach(Unstopped(cfg, ops, before).lanes, Session(cfg, ops, before).lanes + p.boot.lanes, pkey))
  }

  /** The calls after the first restart. */
  ghost predicate PhasesSayProvider(phases: seq<Phase>) {
    forall i :: 0 <= i < |phases| ==> SaysProvider(phases[i].ops)
  }

  lemma {:induction false} ProvidersFollow(cfg: Config, ops: seq<Op>, phases: seq<Phase>, pkey: string)
    requires Uniform(cfg, phases) && AllBoot(cfg, ops, phases) && ProviderKept(cfg, ops, phases, pkey)
    ensures
      ReachKept(cfg, ops, phases, pkey) || PhasesSayProvider(phases) ==>
        ProviderTwin(ProviderEntry(Unstopped(cfg, ops, phases), pkey), ProviderEntry(Session(cfg, ops, phases), pkey))
    ensures ReachKept(cfg, ops, phases, pkey) ==> SameReach(Unstopped(cfg, ops, phases).lanes, Session(cfg, ops, phases).lanes, pkey)
    decreases |phases|
  {
    hide Restored, ProviderTwin, SameReach, Recent, Run, Boots, SaysProvider;
    if phases == [] {
      SelfTwin(Run(cfg, EMPTY, ops), pkey);
    } else if ReachKept(cfg, ops, phases, pkey) || PhasesSayProvider(phases) {
      var n := |phases| - 1;
      var before, p := phases[..n], phases[n];
      assert forall i :: 0 <= i < n ==> before[i] == phases[i];
      ProvidersFollow(cfg, ops, before, pkey);
      var u, c := Unstopped(cfg, ops, before), Session(cfg, ops, before);
      ProviderKeysSurvive(cfg, Calls(ops, before), pkey);
      RestartResumesExactly(cfg, ops, before, p, "", pkey);
      ResumedProviderTwin(cfg, u, c, p, pkey);
      var r := Restored(cfg, c, p);
      RunConcat(cfg, EMPTY, Calls(ops, before), p.ops);
      if ReachKept(cfg, ops, phases, pkey) {
        ProvidersInLockstep(cfg, p.cfg, u, r, p.ops, pkey);
      } else {
        assert SaysProvider(phases[n].ops);
        NamedProvidersInLockstep(cfg, p.cfg, u, r, p.ops, pkey);
      }
    }
  }

  lemma SelfTwin(c: Core, pkey: string)
    ensures ProviderTwin(ProviderEntry(c, pkey), ProviderEntry(c, pkey)) && SameReach(c.lanes, c.lanes, pkey)
  {
  }

  lemma ResumedProviderTwin(cfg: Config, u: Core, c: Core, p: Phase, pkey: string)
    requires p.cfg.threshold > 0 && Classed(ProviderEntry(u, pkey)) && ProviderTwin(ProviderEntry(u, pkey), ProviderEntry(c, pkey))
    requires Recent(p.cfg, ProviderEntry(c, pkey), p.written, p.now)
    requires pkey in Restored(cfg, c, p).byProvider && Restored(cfg, c, p).byProvider[pkey] == Back(Save(cfg.digest, ProviderEntry(c, pkey)))
    ensures
      var r := Restored(cfg, c, p);
      && ProviderTwin(ProviderEntry(u, pkey), ProviderEntry(r, pkey)) && r.lanes == c.lanes + p.boot.lanes
      && ProviderEntry(u, pkey).open && ProviderEntry(r, pkey).open
  {
    RestoredProviderTwins(cfg.digest, ProviderEntry(u, pkey), ProviderEntry(c, pkey));
  }

  /**
   After any number of restarts, one more resumes a provider's entry.  It then has the streak and the open flag of a
   breaker that never stopped, whatever lanes were seeded at any boot, as long as every fire since the first restart
   says its provider or that it has none.
   */
  lemma ResumedProvidersInLockstep(cfg: Config, ops: seq<Op>, phases: seq<Phase>, p: Phase, more: seq<Op>, pkey: string)
    requires Uniform(cfg, phases) && SameRules(cfg, p.cfg) && AllBoot(cfg, ops, phases) && Boots(Session(cfg, ops, phases), p)
    requires ProviderKept(cfg, ops, phases, pkey) && PhasesSayProvider(phases) && SaysProvider(more)
    requires Recent(p.cfg, ProviderEntry(Session(cfg, ops, phases), pkey), p.written, p.now)
    ensures
      SameVerdicts(ProviderEntry(Run(cfg, Unstopped(cfg, ops, phases), more), pkey),
                   ProviderEntry(Run(p.cfg, Restored(cfg, Session(cfg, ops, phases), p), more), pkey))
  {
    var u, c := Unstopped(cfg, ops, phases), Session(cfg, ops, phases);
    hide Restored, Recent, Run, Boots, SaysProvider, Session;
    ProvidersFollow(cfg, ops, phases, pkey);
    ProviderKeysSurvive(cfg, Calls(ops, phases), pkey);
    RestartResumesExactly(cfg, ops, phases, p, "", pkey);
    ResumedProviderTwin(cfg, u, c, p, pkey);
    NamedProvidersInLockstep(cfg, p.cfg, u, Restored(cfg, c, p), more, pkey);
  }

  ghost predicate ProvidersAlike(cfg: Config, u: Core, cfg': Config, r: Core, pkey: string) {
    forall more :: SameVerdicts(ProviderEntry(Run(cfg, u, more), pkey), ProviderEntry(Run(cfg', r, more), pkey))
  }

  /**
   With fires that leave the provider out, whose lane is then looked up, it does so if and only if the lanes known
   after the boot let the same agents reach the entry as in the breaker that never stopped.
   */
  lemma LanesDecide(cfg: Config, ops: seq<Op>, phases: seq<Phase>, p: Phase, pkey: string)
    requires Uniform(cfg, phases) && SameRules(cfg, p.cfg) && AllBoot(cfg, ops, phases) && Boots(Session(cfg, ops, phases), p)
    requires ProviderKept(cfg, ops, phases, pkey) && ReachKept(cfg, ops, phases, pkey)
    requires Recent(p.cfg, ProviderEntry(Session(cfg, ops, phases), pkey), p.written, p.now)
    ensures
      var u, c := Unstopped(cfg, ops, phases), Session(cfg, ops, phases);
      ProvidersAlike(cfg, u, p.cfg, Restored(cfg, c, p), pkey) <==> SameReach(u.lanes, c.lanes + p.boot.lanes, pkey)
  {
    var u, c := Unstopped(cfg, ops, phases), Session(cfg, ops, phases);
    var r := Restored(cfg, c, p);
    hide Restored, Recent, Run, Boots, Session, NamesProvider, ReachKept;
    ProvidersFollow(cfg, ops, phases, pkey);
    ProviderKeysSurvive(cfg, Calls(ops, phases), pkey);
    RestartResumesExactly(cfg, ops, phases, p, "", pkey);
    ResumedProviderTwin(cfg, u, c, p, pkey);
    if SameReach(u.lanes, r.lanes, pkey) {
      forall more ensures SameVerdicts(ProviderEntry(Run(cfg, u, more), pkey), ProviderEntry(Run(p.cfg, r, more), pkey)) {
        ProvidersInLockstep(cfg, p.cfg, u, r, more, pkey);
      }
    } else {
      KeysAreNamed(cfg, ops, phases);
      var more := Slip(cfg, p.cfg, u, r, pkey);
      assert !SameVerdicts(ProviderEntry(Run(cfg, u, more), pkey), ProviderEntry(Run(p.cfg, r, more), pkey));
    }
  }

  /** Some success then clears the entry of one scheduler and not of the other. */
  lemma Slip(cfg: Config, cfg': Config, c: Core, r: Core, pkey: string) returns (more: seq<Op>)
    requires cfg.threshold > 0 && cfg'.threshold > 0 && !SameReach(c.lanes, r.lanes, pkey) && c.lanes.Keys <= r.lanes.Keys
    requires ProviderEntry(c, pkey).open && ProviderEntry(r, pkey).open && NamesProvider(pkey)
    ensures !SameVerdicts(ProviderEntry(Run(cfg, c, more), pkey), ProviderEntry(Run(cfg', r, more), pkey))
  {
    hide Apply, Run;
    var a :| !(a in c.lanes <==> a in r.lanes) || Reaches(c.lanes, a, pkey) != Reaches(r.lanes, a, pkey);
    var good := Fire(a, 0, None, "", Undefined, false, 0);
    RunsOn(cfg, c);
    RunsOn(cfg', r);
    if Reaches(c.lanes, a, pkey) != Reaches(r.lanes, a, pkey) {
      more := [] + [Fired(good)];
      SuccessClears(cfg, c, good, pkey);
      SuccessClears(cfg', r, good, pkey);
      RunOn(cfg, c, [], Fired(good));
      RunOn(cfg', r, [], Fired(good));
    } else {
      var p := ProviderOf(pkey);
      var seed := Seeded(a, Some(p));
      more := [] + [seed] + [Fired(good)];
      RunOn(cfg, c, [], seed);
      RunOn(cfg', r, [], seed);
      RunOn(cfg, c, [] + [seed], Fired(good));
      RunOn(cfg', r, [] + [seed], Fired(good));
      SeedsLane(cfg, c, a, p);
      SeedsLane(cfg', r, a, p);
      SuccessClears(cfg, Apply(cfg, c, seed), good, pkey);
      SuccessClears(cfg', Apply(cfg', r, seed), good, pkey);
    }
  }

  lemma ProviderOf(pkey: string) returns (p: string)
    requires NamesProvider(pkey)
    ensures p != "" && p + ":" <= pkey
  {
    var i :| 0 < i < |pkey| && pkey[i] == ':';
    p := pkey[..i];
    assert pkey[..i + 1] == p + ":";
  }

  lemma SeedsLane(cfg: Config, c: Core, a: string, p: string)
    ensures Apply(cfg, c, Seeded(a, Some(p))) == (if a in c.lanes then c else c.(lanes := c.lanes[a := Some(p)]))
  {
  }

  lemma SuccessClears(cfg: Config, c: Core, good: Fire, pkey: string)
    requires cfg.threshold > 0 && good.exitCode == 0 && !good.interrupted && good.provider.Undefined? && ProviderEntry(c, pkey).open
    ensures ProviderEntry(Apply(cfg, c, Fired(good)), pkey).open <==> !Reaches(c.lanes, good.agent, pkey)
  {
    ProviderStep(cfg, c, Fired(good), pkey);
  }

  lemma RunsOn(cfg: Config, c: Core)
    ensures Run(cfg, c, []) == c
  {
  }

  lemma RunOn(cfg: Config, c: Core, ops: seq<Op>, op: Op)
    ensures Run(cfg, c, ops + [op]) == Apply(cfg, Run(cfg, c, ops), op)
  {
    assert (ops + [op])[..|ops|] == ops;
  }

  // ----- runs that slip

  /** A first call and a restart at once after it, whose file lists these provider entries. */
  function AtOnce(ks: seq<string>, cfg: Config, boot: Core): Phase { Phase(ks, 1, cfg, boot, 1, []) }

  /** Two tails with the same digits: the restarted scheduler takes the second for the first. */
  lemma SharedDigitsWitness(cfg: Config, w: Words, first: Op, second: Op)
    requires cfg == Config(1, 10, _ => "00000000") && w == Words({}, {"a", "b"})
    requires first == Fired(Fire("x", 1, None, "a", Null, false, 0)) && second == Fired(Fire("x", 1, None, "b", Null, false, 1))
    ensures
      var p := AtOnce([], cfg, EMPTY);
      var u, c := Unstopped(cfg, [first], []), Session(cfg, [first], []);
      && Shaped(cfg.digest, w) && SpeaksAll(w, [first]) && Boots(c, p) && Recent(cfg, AgentEntry(c, "x"), 1, 1)
      && AgentEntry(Run(cfg, u, [second]), "x").streak == 1 && AgentEntry(Run(cfg, Restored(cfg, c, p), [second]), "x").streak == 2
  {
    hide Run, Apply, PersistedKey;
    var c := Session(cfg, [first], []);
    var r := Restored(cfg, c, AtOnce([], cfg, EMPTY));
    FirstFails(cfg, first);
    assert EightHex("00000000");
    ResumesExactly(cfg.digest, c, [], 1, cfg, EMPTY, 1, "x", "");
    OneCall(cfg, c, second);
    OneCall(cfg, r, second);
    Hashed(cfg.digest, "a");
    SameDigits(cfg.digest);
    AgentFails(cfg, c, second.f);
    AgentFails(cfg, r, second.f);
  }

  lemma FirstFails(cfg: Config, first: Op)
    requires cfg.threshold == 1 && first == Fired(Fire("x", 1, None, "a", Null, false, 0))
    ensures Run(cfg, EMPTY, [first]) == Core(map["x" := Entry(Some("a"), 1, true, Some(0), Some(0), None, false, None)], map[], map["x" := None])
  {
    OneCall(cfg, EMPTY, first);
  }

  lemma SameDigits(digest: string -> string)
    requires digest("a") == digest("b")
    ensures PersistedKey(digest, "a", None) == PersistedKey(digest, "b", None)
  {
    assert !IsHashed("a") && !IsHashed("b");
  }

  lemma OneCall(cfg: Config, c: Core, op: Op)
    ensures Run(cfg, c, [op]) == Apply(cfg, c, op)
  {
    assert [op][..0] == [];
  }

  /** The lane of x is seeded otherwise at boot: a success that leaves the provider out clears only one of the entries. */
  lemma SeededLaneWitness(cfg: Config, first: Op, second: Op)
    requires cfg.threshold == 1 && cfg.probeMs == 10
    requires first == Fired(Fire("x", 1, Some("auth"), "", Named("p"), false, 0)) && second == Fired(Fire("x", 0, None, "", Undefined, false, 1))
    ensures
      var p := AtOnce(["p:auth"], cfg, Core(map[], map[], map["x" := Some("q")]));
      var u, c := Unstopped(cfg, [first], []), Session(cfg, [first], []);
      && Boots(c, p) && Recent(cfg, ProviderEntry(c, "p:auth"), 1, 1) && !SameReach(u.lanes, c.lanes + p.boot.lanes, "p:auth")
      && !ProviderEntry(Run(cfg, u, [second]), "p:auth").open
      && ProviderEntry(Run(cfg, Restored(cfg, c, p), [second]), "p:auth").open
  {
    var p := AtOnce(["p:auth"], cfg, Core(map[], map[], map["x" := Some("q")]));
    hide Run, Apply, Restore, Snapshot;
    var c := Session(cfg, [first], []);
    var r := Restored(cfg, c, p);
    FirstOpens(cfg, first);
    assert NamesProvider("p:auth") by { assert "p:auth"[1] == ':'; }
    assert KeysNamed(c);
    ResumesExactly(cfg.digest, c, p.ks, 1, cfg, p.boot, 1, "", "p:auth");
    OneCall(cfg, c, second);
    OneCall(cfg, r, second);
    assert r.lanes == c.lanes + p.boot.lanes by { RestoredLanes(cfg, c, p); }
    assert "p" + ":" <= "p:auth" && ("q" + ":")[0] != "p:auth"[0];
    assert Reaches(c.lanes, "x", "p:auth") && !Reaches(c.lanes + p.boot.lanes, "x", "p:auth");
    SuccessClears(cfg, c, second.f, "p:auth");
    SuccessClears(cfg, r, second.f, "p:auth");
  }

  lemma FirstOpens(cfg: Config, first: Op)
    requires cfg.threshold == 1 && first == Fired(Fire("x", 1, Some("auth"), "", Named("p"), false, 0))
    ensures
      Run(cfg, EMPTY, [first]) ==
      Core(map[], map["p:auth" := Entry(Some("auth"), 1, true, Some(0), Some(0), Some("auth"), false, None)], map["x" := Some("p")])
  {
    OneCall(cfg, EMPTY, first);
    assert "p" + ":" + "auth" == "p:auth";
  }

  lemma RestoredLanes(cfg: Config, c: Core, p: Phase)
    requires p.cfg.threshold > 0
    ensures Restored(cfg, c, p).lanes == c.lanes + p.boot.lanes
  {
  }
}
