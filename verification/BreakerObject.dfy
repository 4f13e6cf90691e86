/** The breaker as the object the scheduler holds: its maps are updated in place, and it announces what opens and closes. */
module BreakerObject {

  import opened Options
  import opened BreakerCore
  import BreakerRestart

  datatype EntryId = OfAgent(agent: string) | OfProvider(pkey: string)

  /** onEvent(agent, "open" | "close", ...) about one entry. */
  datatype Notice = Notice(id: EntryId, opens: bool)

  /** What has been said about one entry, in order. */
  function Said(notices: seq<Notice>, id: EntryId): seq<bool> {
    if notices == [] then []
    else Said(notices[..|notices| - 1], id) + if notices[|notices| - 1].id == id then [notices[|notices| - 1].opens] else []
  }

  function OpenIn(c: Core, id: EntryId): bool {
    match id
    case OfAgent(a) => AgentEntry(c, a).open
    case OfProvider(k) => ProviderEntry(c, k).open
  }

  /** Each notice says the opposite of the one before it, starting from the state at boot; the last one matches the entry. */
  ghost predicate Alternates(start: bool, said: seq<bool>, open: bool) {
    && (forall i :: 0 <= i < |said| ==> said[i] == if i % 2 == 0 then !start else start)
    && open == (if |said| % 2 == 0 then start else !start)
  }

  /** What must be said when an entry goes from was to now. */
  function Flip(was: bool, now: bool): seq<bool> {
    if was == now then [] else [now]
  }

  lemma FlipAlternates(start: bool, said: seq<bool>, was: bool, now: bool)
    requires Alternates(start, said, was)
    ensures Alternates(start, said + Flip(was, now), now)
  {
  }

  class Breaker {
    const cfg: Config
    var byAgent: map<string, Entry>
    var byProvider: map<string, Entry>
    var agentProvider: map<string, Option<string>>
    var notices: seq<Notice>
    ghost var start: Core

    ghost function Value(): Core
      reads this
    {
      Core(byAgent, byProvider, agentProvider)
    }

    ghost predicate Valid()
      reads this
    {
      forall id :: Alternates(OpenIn(start, id), Said(notices, id), OpenIn(Value(), id))
    }

    constructor (cfg: Config)
      ensures Value() == EMPTY && Valid() && notices == [] && this.cfg == cfg
    {
      this.cfg := cfg;
      byAgent, byProvider, agentProvider, notices := map[], map[], map[], [];
      start := EMPTY;
    }

    method Notify(id: EntryId, opens: bool)
      modifies this`notices
      ensures notices == old(notices) + [Notice(id, opens)]
      ensures forall i :: Said(notices, i) == Said(old(notices), i) + if i == id then [opens] else []
    {
      notices := notices + [Notice(id, opens)];
      assert notices[..|notices| - 1] == old(notices);
    }

    method EndLaneProbe(p: Option<string>)
      modifies this`byProvider
      ensures byProvider == Unprobed(old(byProvider), p)
    {
      ghost var was := byProvider;
      var todo := if p.Some? then byProvider.Keys else {};
      while todo != {}
        invariant todo <= byProvider.Keys == was.Keys
        invariant p.None? ==> todo == {}
        invariant forall k :: k in was ==> byProvider[k] == (if k in todo then was[k] else Unprobed(was, p)[k])
        decreases |todo|
      {
        var k :| k in todo;
        if p.value + ":" <= k {
          byProvider := byProvider[k := byProvider[k].(probeInFlight := false)];
        }
        todo := todo - {k};
      }
      assert byProvider == Unprobed(was, p);
    }

    /** The probe that was in flight on this lane is over. */
    method EndProbe(agent: string, p: Option<string>)
      modifies this`byAgent, this`byProvider
      ensures Value() == BreakerCore.EndProbe(old(Value()), agent, p)
    {
      if agent in byAgent {
        byAgent := byAgent[agent := byAgent[agent].(probeInFlight := false)];
      }
      EndLaneProbe(p);
    }

    /** Every flip between the two states, and nothing else, was announced. */
    ghost predicate Announced(was: Core, said: seq<Notice>)
      reads this
    {
      forall id :: Said(notices, id) == Said(said, id) + Flip(OpenIn(was, id), OpenIn(Value(), id))
    }

    /** Sets a provider entry, announcing its flip if there is one. */
    method PutProvider(pkey: string, e: Entry, ghost was: Core, ghost said: seq<Notice>)
      requires Announced(was, said)
      requires OpenIn(was, OfProvider(pkey)) == OpenIn(Value(), OfProvider(pkey))
      modifies this`byProvider, this`notices
      ensures byProvider == old(byProvider)[pkey := e]
      ensures Announced(was, said)
    {
      ghost var before := Value();
      var open := pkey in byProvider && byProvider[pkey].open;
      if open != e.open { Notify(OfProvider(pkey), e.open); }
      byProvider := byProvider[pkey := e];
      assert forall id :: id != OfProvider(pkey) ==> OpenIn(Value(), id) == OpenIn(before, id);
    }

    /** Sets an agent's entry, announcing its flip if there is one. */
    method PutAgent(agent: string, e: Entry, ghost was: Core, ghost said: seq<Notice>)
      requires Announced(was, said)
      requires OpenIn(was, OfAgent(agent)) == OpenIn(Value(), OfAgent(agent))
      modifies this`byAgent, this`notices
      ensures byAgent == old(byAgent)[agent := e]
      ensures Announced(was, said)
    {
      ghost var before := Value();
      var open := agent in byAgent && byAgent[agent].open;
      if open != e.open { Notify(OfAgent(agent), e.open); }
      byAgent := byAgent[agent := e];
      assert forall id :: id != OfAgent(agent) ==> OpenIn(Value(), id) == OpenIn(before, id);
    }

    /** Closes a provider's entry, unless there is nothing to clear. */
    method Clear(k: string, ghost was: Core, ghost said: seq<Notice>)
      requires k in byProvider
      requires Announced(was, said) && OpenIn(was, OfProvider(k)) == OpenIn(Value(), OfProvider(k))
      modifies this`byProvider, this`notices
      ensures byProvider == if IsClear(old(byProvider)[k]) then old(byProvider) else old(byProvider)[k := FRESH]
      ensures Announced(was, said)
    {
      hide Announced, OpenIn;
      var pe := byProvider[k];
      if pe.open || pe.streak > 0 || pe.cooldownUntil.Some? { PutProvider(k, FRESH, was, said); }
    }

    /** Closes every entry of a lane. */
    method ClearLane(p: Option<string>, ghost was: Core, ghost said: seq<Notice>)
      requires Announced(was, said)
      requires forall k :: OpenIn(was, OfProvider(k)) == OpenIn(Value(), OfProvider(k))
      modifies this`byProvider, this`notices
      ensures byProvider == Cleared(old(byProvider), p)
      ensures Announced(was, said)
    {
      hide Announced;
      var todo := if p.Some? then byProvider.Keys else {};
      while todo != {}
        invariant todo <= byProvider.Keys == old(byProvider).Keys
        invariant p.None? ==> todo == {}
        invariant forall k :: k in byProvider ==> byProvider[k] == (if k in todo then old(byProvider)[k] else Cleared(old(byProvider), p)[k])
        invariant Announced(was, said)
        decreases |todo|
      {
        var k :| k in todo;
        if p.value + ":" <= k {
          assert OpenIn(was, OfProvider(k)) == OpenIn(old(Value()), OfProvider(k));
          Clear(k, was, said);
        }
        todo := todo - {k};
      }
      assert byProvider == Cleared(old(byProvider), p);
    }

    /** A success closes the agent's entry and every entry of its lane. */
    method Succeed(agent: string, p: Option<string>, ghost was: Core, ghost said: seq<Notice>)
      requires Announced(was, said)
      requires forall id :: OpenIn(was, id) == OpenIn(Value(), id)
      modifies this`byAgent, this`byProvider, this`notices
      ensures Value() == BreakerCore.Succeed(old(Value()), agent, p)
      ensures Announced(was, said)
    {
      hide Announced, Cleared;
      PutAgent(agent, FRESH, was, said);
      assert forall k :: OpenIn(old(Value()), OfProvider(k)) == OpenIn(Value(), OfProvider(k));
      ClearLane(p, was, said);
    }

    /** A failure extends the one streak it belongs to. */
    method Fail(f: Fire, ghost was: Core, ghost said: seq<Notice>)
      requires f.exitCode != 0
      requires Announced(was, said)
      requires forall id :: OpenIn(was, id) == OpenIn(Value(), id)
      modifies this`byAgent, this`byProvider, this`notices
      ensures Value() == Failed(cfg, old(Value()), f)
      ensures Announced(was, said)
    {
      if ProviderScoped(f) {
        var pkey := ProviderKey(f);
        PutProvider(pkey, FailProvider(if pkey in byProvider then byProvider[pkey] else FRESH, cfg.threshold, f), was, said);
      } else {
        PutAgent(f.agent, FailAgent(if f.agent in byAgent then byAgent[f.agent] else FRESH, cfg, f), was, said);
      }
    }

    /**
     A fire ended.  The maps become what Record says, and for every entry exactly its flip is announced, so
     that open and close notices keep alternating.
     */
    method Record(f: Fire)
      requires Valid()
      modifies this`byAgent, this`byProvider, this`agentProvider, this`notices
      ensures Value() == BreakerCore.Record(cfg, old(Value()), f)
      ensures Announced(old(Value()), old(notices))
      ensures Valid()
    {
      ghost var was, said := Value(), notices;
      if cfg.threshold == 0 { return; }
      agentProvider := LanesAfter(agentProvider, f.agent, f.provider);
      var p := LaneFor(agentProvider, f.agent, f.provider);
      EndProbe(f.agent, p);
      EndedProbe(was, agentProvider, f.agent, p);
      assert Announced(was, said);
      if !f.interrupted {
        if f.exitCode == 0 {
          Succeed(f.agent, p, was, said);
        } else {
          Fail(f, was, said);
        }
      }
      KeepsAlternating(was, said);
    }

    lemma KeepsAlternating(was: Core, said: seq<Notice>)
      requires forall id :: Alternates(OpenIn(start, id), Said(said, id), OpenIn(was, id))
      requires Announced(was, said)
      ensures Valid()
    {
      forall id ensures Alternates(OpenIn(start, id), Said(notices, id), OpenIn(Value(), id)) {
        FlipAlternates(OpenIn(start, id), Said(said, id), OpenIn(was, id), OpenIn(Value(), id));
      }
    }

    /** Marks the open entries of a lane. */
    method ProbeLane(p: Option<string>) returns (any: bool)
      modifies this`byProvider
      ensures byProvider == Probed(old(byProvider), p)
      ensures any <==> LaneOpen(old(byProvider), p, {})
    {
      ghost var was := byProvider;
      any := false;
      var todo := if p.Some? then byProvider.Keys else {};
      while todo != {}
        invariant todo <= byProvider.Keys == was.Keys
        invariant p.None? ==> todo == {}
        invariant forall k :: k in was ==> byProvider[k] == (if k in todo then was[k] else Probed(was, p)[k])
        invariant any <==> LaneOpen(was, p, todo)
        decreases |todo|
      {
        var k :| k in todo;
        if p.value + ":" <= k && byProvider[k].open {
          byProvider := byProvider[k := byProvider[k].(probeInFlight := true)];
          any := true;
          assert OnLane(p, k);
        }
        todo := todo - {k};
      }
      assert byProvider == Probed(was, p);
    }

    /** The scheduler launches a fire on an open lane: that fire is the probe. */
    method MarkProbe(agent: string, provider: Arg) returns (any: bool)
      requires Valid()
      modifies this`byAgent, this`byProvider
      ensures Value() == BreakerCore.MarkProbe(cfg, old(Value()), agent, provider)
      ensures Valid()
      ensures any <==>
              && cfg.threshold > 0
              && (AgentEntry(old(Value()), agent).open || LaneOpen(old(byProvider), LaneFor(agentProvider, agent, provider), {}))
    {
      ghost var was := Value();
      if cfg.threshold == 0 { return false; }
      var own := agent in byAgent && byAgent[agent].open;
      if own {
        byAgent := byAgent[agent := byAgent[agent].(probeInFlight := true)];
      }
      var lane := ProbeLane(LaneFor(agentProvider, agent, provider));
      any := own || lane;
      ProbingOpensNothing(cfg, was, agent, provider);
    }

    /** Whether the agent's own entry or any entry of its lane is open. */
    method IsOpen(agent: string) returns (open: bool)
      ensures open == BreakerCore.IsOpen(Value(), agent)
    {
      if agent in byAgent && byAgent[agent].open { return true; }
      var p := LaneFor(agentProvider, agent, Undefined);
      var todo := if p.Some? then byProvider.Keys else {};
      while todo != {}
        invariant todo <= byProvider.Keys
        invariant p.None? ==> todo == {}
        invariant !LaneOpen(byProvider, p, todo)
        decreases |todo|
      {
        var k :| k in todo;
        if p.value + ":" <= k && byProvider[k].open {
          assert OnLane(p, k);
          return true;
        }
        todo := todo - {k};
      }
      assert !LaneOpen(byProvider, p, {});
      return false;
    }

    /**
     The interval a slot is rescheduled with: its own while closed, and while open the longer of that and the probe
     interval; the next probe time is then kept with the agent, and nothing else changes.
     */
    method IntervalFor(agent: string, baseMs: int, now: int) returns (ms: int)
      requires Valid()
      modifies this`byAgent
      ensures ms == Interval(cfg, old(Value()), agent, baseMs)
      ensures Value() == Reschedule(cfg, old(Value()), agent, baseMs, now)
      ensures !BreakerCore.IsOpen(old(Value()), agent) ==> ms == baseMs && byAgent == old(byAgent)
      ensures
        BreakerCore.IsOpen(old(Value()), agent) ==>
          && ms >= baseMs && ms >= cfg.probeMs && (ms == baseMs || ms == cfg.probeMs)
          && byAgent == old(byAgent)[agent := AgentEntry(old(Value()), agent).(cooldownUntil := Some(now + ms))]
      ensures Valid()
    {
      var open := IsOpen(agent);
      if !open { return baseMs; }
      ghost var was := Value();
      ms := if baseMs < cfg.probeMs then cfg.probeMs else baseMs;
      var e := if agent in byAgent then byAgent[agent] else FRESH;
      byAgent := byAgent[agent := e.(cooldownUntil := Some(now + ms))];
      assert forall id :: OpenIn(Value(), id) == OpenIn(was, id);
    }

    method SeedProvider(agent: string, provider: Option<string>)
      requires Valid()
      modifies this`agentProvider
      ensures Value() == Seed(old(Value()), agent, provider)
      ensures Valid()
    {
      ghost var was := Value();
      if agent !in agentProvider { agentProvider := agentProvider[agent := provider]; }
      assert forall id :: OpenIn(Value(), id) == OpenIn(was, id);
    }

    method ResumeAgents(file: BreakerRestart.File, now: int)
      modifies this`byAgent
      ensures byAgent == BreakerRestart.ResumeAgents(cfg, old(byAgent), file, file.agents.Keys, now)
    {
      var todo, done := file.agents.Keys, {};
      assert byAgent == BreakerRestart.ResumeAgents(cfg, old(byAgent), file, done, now);
      while todo != {}
        invariant todo + done == file.agents.Keys
        invariant byAgent == BreakerRestart.ResumeAgents(cfg, old(byAgent), file, done, now)
        decreases |todo|
      {
        var a :| a in todo;
        BreakerRestart.ResumeOne(cfg, old(byAgent), file, done, a, now);
        todo, done := todo - {a}, done + {a};
        if BreakerRestart.Resumes(cfg, file.agents[a], file, now) {
          byAgent := byAgent[a := BreakerRestart.Back(file.agents[a])];
        }
      }
      assert done == file.agents.Keys;
    }

    method ResumeProviders(file: BreakerRestart.File, now: int)
      modifies this`byProvider
      ensures byProvider == BreakerRestart.ResumeProviders(cfg, old(byProvider), file, |file.providers|, now)
    {
      for i := 0 to |file.providers|
        invariant byProvider == BreakerRestart.ResumeProviders(cfg, old(byProvider), file, i, now)
      {
        var s := file.providers[i];
        if BreakerRestart.Resumes(cfg, s.entry, file, now) {
          byProvider := byProvider[BreakerRestart.Name(s) := BreakerRestart.Back(s.entry)];
        }
      }
    }

    /** At boot, before any notice: the file's fresh open entries are taken over. */
    method Restore(file: BreakerRestart.File, now: int)
      requires notices == []
      modifies this`byAgent, this`byProvider, this`agentProvider, this`start
      ensures Value() == BreakerRestart.Restore(cfg, old(Value()), file, now)
      ensures start == Value() && Valid()
    {
      if cfg.threshold > 0 {
        agentProvider := file.lanes + agentProvider;
        ResumeAgents(file, now);
        ResumeProviders(file, now);
      }
      start := Value();
    }
  }

  ghost predicate LaneOpen(entries: map<string, Entry>, p: Option<string>, except: set<string>) {
    exists k :: k in entries && k !in except && OnLane(p, k) && entries[k].open
  }

  lemma EndedProbe(c: Core, lanes: map<string, Option<string>>, agent: string, p: Option<string>)
    ensures forall id :: OpenIn(BreakerCore.EndProbe(c.(lanes := lanes), agent, p), id) == OpenIn(c, id)
  {
  }

  lemma ProbingOpensNothing(cfg: Config, c: Core, agent: string, provider: Arg)
    ensures forall id :: OpenIn(BreakerCore.MarkProbe(cfg, c, agent, provider), id) == OpenIn(c, id)
  {
  }
}
