/**
 What the breaker's entries say about the history of fires.  The definitions here look only at the history:
 a streak is a suffix of an entry's outcomes, and an entry is open because some suffix once was long enough.
 */
module BreakerHistory {

  import opened Options
  import opened BreakerCore

  /** What one fire means to one entry. */
  datatype Outcome = Ok | Bad(key: string, errorClass: Option<string>)

  // ----- the outcomes that concern an agent's entry

  function AgentOutcome(op: Op, agent: string): Option<Outcome> {
    if op.Fired? && op.f.agent == agent && !op.f.interrupted then
      if op.f.exitCode == 0 then Some(Ok)
      else if ProviderScoped(op.f) then None
      else Some(Bad(KeyOf(op.f), op.f.errorClass))
    else None
  }

  function Extend(rel: seq<Outcome>, o: Option<Outcome>): seq<Outcome> {
    if o.Some? then rel + [o.value] else rel
  }

  function AgentOutcomes(ops: seq<Op>, agent: string): seq<Outcome> {
    if ops == [] then [] else Extend(AgentOutcomes(ops[..|ops| - 1], agent), AgentOutcome(ops[|ops| - 1], agent))
  }

  // ----- the outcomes that concern a provider entry

  /** The provider an agent was last said to run on. */
  function LastLane(ops: seq<Op>, agent: string): Option<Option<string>> {
    if ops == [] then None
    else
      var before := LastLane(ops[..|ops| - 1], agent);
      match ops[|ops| - 1]
      case Fired(f) =>
        if f.agent != agent || f.provider.Undefined? then before
        else Some(if f.provider.Named? then Some(f.provider.name) else None)
      case Seeded(a, lane) => if a == agent && before.None? then Some(lane) else before
      case _ => before
  }

  function LastLaneName(ops: seq<Op>, agent: string): Option<string> {
    match LastLane(ops, agent)
    case Some(Some(n)) => if n == "" then None else Some(n)
    case _ => None
  }

  /** What one call means to a provider entry, given the lane its agent runs on. */
  function LaneOutcome(op: Op, lane: Option<string>, pkey: string): Option<Outcome> {
    if op.Fired? && !op.f.interrupted then
      if op.f.exitCode == 0 then (if OnLane(lane, pkey) then Some(Ok) else None)
      else if ProviderScoped(op.f) && ProviderKey(op.f) == pkey then Some(Bad(KeyOf(op.f), op.f.errorClass))
      else None
    else None
  }

  function ProviderOutcome(before: seq<Op>, op: Op, pkey: string): Option<Outcome> {
    LaneOutcome(op, if op.Fired? then LastLaneName(before + [op], op.f.agent) else None, pkey)
  }

  function ProviderOutcomes(ops: seq<Op>, pkey: string): seq<Outcome> {
    if ops == [] then []
    else Extend(ProviderOutcomes(ops[..|ops| - 1], pkey), ProviderOutcome(ops[..|ops| - 1], ops[|ops| - 1], pkey))
  }

  // ----- streaks

  /** The last n outcomes are failures, each continuing the key of the one before it. */
  ghost predicate IsRun(digest: string -> string, rel: seq<Outcome>, n: nat) {
    && n <= |rel|
    && (forall i :: |rel| - n <= i < |rel| ==> rel[i].Bad?)
    && (forall i :: |rel| - n < i < |rel| ==> Joins(digest, rel, i))
  }

  /** Outcome i continues the failure before it. */
  predicate Joins(digest: string -> string, rel: seq<Outcome>, i: nat)
    requires 0 < i < |rel|
  {
    rel[i - 1].Bad? && rel[i].Bad? && Continues(digest, rel[i - 1].key, rel[i].key, rel[i].errorClass)
  }

  /** n is the length of the longest such run. */
  ghost predicate IsStreak(digest: string -> string, rel: seq<Outcome>, n: nat) {
    IsRun(digest, rel, n) && !IsRun(digest, rel, n + 1)
  }

  /** Since the last success, some streak reached the threshold. */
  ghost predicate Tripped(digest: string -> string, rel: seq<Outcome>, threshold: nat) {
    exists m, n :: 0 <= m <= |rel| && 0 <= n && IsStreak(digest, rel[..m], n) && n >= threshold && NoOkFrom(rel, m)
  }

  ghost predicate NoOkFrom(rel: seq<Outcome>, m: nat) {
    forall i :: m <= i < |rel| ==> rel[i].Bad?
  }

  function StreakAfter(digest: string -> string, rel: seq<Outcome>, n: nat, o: Outcome): nat {
    match o
    case Ok => 0
    case Bad(key, cls) => if n > 0 && rel != [] && rel[|rel| - 1].Bad? && Continues(digest, rel[|rel| - 1].key, key, cls) then n + 1 else 1
  }

  lemma StreakStep(digest: string -> string, rel: seq<Outcome>, n: nat, o: Outcome)
    requires IsStreak(digest, rel, n)
    ensures IsStreak(digest, rel + [o], StreakAfter(digest, rel, n, o))
  {
    hide IsRun, Continues;
    var m := StreakAfter(digest, rel, n, o);
    RunAfter(digest, rel, o, m);
    RunAfter(digest, rel, o, n);
    RunAfter(digest, rel, o, 0);
    RunIsBad(digest, rel, n);
    if m > 0 { RunAfter(digest, rel, o, m - 1); }
  }

  /** A run of the history so far goes on with the next outcome if that is a failure and continues the last one. */
  lemma RunAfter(digest: string -> string, rel: seq<Outcome>, o: Outcome, k: nat)
    ensures
      IsRun(digest, rel + [o], k + 1) <==>
      o.Bad? && IsRun(digest, rel, k) && (k > 0 ==> Continues(digest, rel[|rel| - 1].key, o.key, o.errorClass))
    ensures IsRun(digest, rel + [o], 0) && IsRun(digest, rel, 0)
  {
    hide Continues;
    var more := rel + [o];
    assert forall i :: 0 <= i < |rel| ==> more[i] == rel[i];
    assert forall i :: 0 < i < |rel| ==> Joins(digest, more, i) == Joins(digest, rel, i);
    if IsRun(digest, more, k + 1) {
      assert more[|rel|] == o;
      assert k > 0 ==> Joins(digest, more, |rel|);
    }
  }

  lemma RunIsBad(digest: string -> string, rel: seq<Outcome>, n: nat)
    requires IsRun(digest, rel, n)
    ensures n <= |rel| && (n > 0 ==> rel[|rel| - 1].Bad?)
  {
  }

  lemma StreakIsUnique(digest: string -> string, rel: seq<Outcome>, m: nat, n: nat)
    requires IsStreak(digest, rel, m) && IsStreak(digest, rel, n)
    ensures m == n
  {
    if m < n { assert IsRun(digest, rel, m + 1); }
    if n < m { assert IsRun(digest, rel, n + 1); }
  }

  lemma TripStep(digest: string -> string, rel: seq<Outcome>, n: nat, o: Outcome, threshold: nat)
    requires threshold > 0 && IsStreak(digest, rel, n)
    ensures Tripped(digest, rel + [o], threshold) <==>
            o.Bad? && (Tripped(digest, rel, threshold) || StreakAfter(digest, rel, n, o) >= threshold)
  {
    var more := rel + [o];
    var k := StreakAfter(digest, rel, n, o);
    StreakStep(digest, rel, n, o);
    assert more[..|more|] == more;
    if o.Bad? && k >= threshold {
      assert IsStreak(digest, more[..|more|], k) && NoOkFrom(more, |more|);
    }
    if o.Bad? && Tripped(digest, rel, threshold) {
      var m, j :| 0 <= m <= |rel| && 0 <= j && IsStreak(digest, rel[..m], j) && j >= threshold && NoOkFrom(rel, m);
      assert more[..m] == rel[..m];
      assert IsStreak(digest, more[..m], j) && NoOkFrom(more, m);
    }
    if Tripped(digest, more, threshold) {
      var m, j :| 0 <= m <= |more| && 0 <= j && IsStreak(digest, more[..m], j) && j >= threshold && NoOkFrom(more, m);
      if m == |more| {
        StreakIsUnique(digest, more, j, k);
      } else {
        assert more[|rel|].Bad?;
        assert more[..m] == rel[..m];
        assert forall i :: m <= i < |rel| ==> more[i] == rel[i];
        assert NoOkFrom(rel, m);
      }
    }
  }

  // ----- the agent entries refine the history

  ghost predicate Mirrors(digest: string -> string, e: Entry, rel: seq<Outcome>, threshold: nat) {
    && IsStreak(digest, rel, e.streak)
    && (e.streak > 0 ==> rel != [] && rel[|rel| - 1].Bad? && e.key == Some(rel[|rel| - 1].key))
    && (e.streak == 0 ==> e.key.None?)
    && (e.open <==> Tripped(digest, rel, threshold))
  }

  /** The entries differ at most in their times and their probe flag. */
  predicate SameCount(e: Entry, e': Entry) {
    e.streak == e'.streak && e.open == e'.open && e.key == e'.key && e.lastErrorClass == e'.lastErrorClass
  }

  lemma NeverTripped(digest: string -> string, rel: seq<Outcome>, threshold: nat)
    requires rel == [] && threshold > 0
    ensures IsStreak(digest, rel, 0) && !Tripped(digest, rel, threshold)
  {
  }

  lemma MirrorsOk(digest: string -> string, e: Entry, rel: seq<Outcome>, threshold: nat)
    requires Mirrors(digest, e, rel, threshold) && threshold > 0
    ensures Mirrors(digest, FRESH, rel + [Ok], threshold)
  {
    StreakStep(digest, rel, e.streak, Ok);
    TripStep(digest, rel, e.streak, Ok, threshold);
  }

  lemma MirrorsBad(cfg: Config, e: Entry, rel: seq<Outcome>, f: Fire)
    requires Mirrors(cfg.digest, e, rel, cfg.threshold) && cfg.threshold > 0
    ensures Mirrors(cfg.digest, FailAgent(e, cfg, f), rel + [Bad(KeyOf(f), f.errorClass)], cfg.threshold)
  {
    StreakStep(cfg.digest, rel, e.streak, Bad(KeyOf(f), f.errorClass));
    TripStep(cfg.digest, rel, e.streak, Bad(KeyOf(f), f.errorClass), cfg.threshold);
  }

  /** A call changes an agent's count only through an outcome of that agent. */
  lemma AgentStep(cfg: Config, c: Core, op: Op, agent: string)
    requires cfg.threshold > 0
    ensures
      var e, e' := AgentEntry(c, agent), AgentEntry(Apply(cfg, c, op), agent);
      match AgentOutcome(op, agent) {
        case None => SameCount(e, e')
        case Some(Ok) => e' == FRESH
        case Some(Bad(_, _)) => exists e0 :: SameCount(e, e0) && e' == FailAgent(e0, cfg, op.f)
      }
  {
    if op.Fired? && AgentOutcome(op, agent).Some? && op.f.exitCode != 0 {
      var lanes := LanesAfter(c.lanes, agent, op.f.provider);
      var p := LaneFor(lanes, agent, op.f.provider);
      var e0 := AgentEntry(EndProbe(c.(lanes := lanes), agent, p), agent);
      assert SameCount(AgentEntry(c, agent), e0);
      assert AgentEntry(Apply(cfg, c, op), agent) == FailAgent(e0, cfg, op.f);
    }
  }

  lemma AgentMirrorStep(cfg: Config, e: Entry, e': Entry, rel: seq<Outcome>, op: Op, o: Option<Outcome>)
    requires Mirrors(cfg.digest, e, rel, cfg.threshold) && cfg.threshold > 0
    requires match o {
        case None => SameCount(e, e')
        case Some(Ok) => e' == FRESH
        case Some(Bad(key, cls)) => op.Fired? && key == KeyOf(op.f) && cls == op.f.errorClass && exists e0 :: SameCount(e, e0) && e' == FailAgent(e0, cfg, op.f)
      }
    ensures Mirrors(cfg.digest, e', Extend(rel, o), cfg.threshold)
  {
    match o {
      case None =>
      case Some(Ok) => MirrorsOk(cfg.digest, e, rel, cfg.threshold);
      case Some(Bad(_, _)) =>
        var e0 :| SameCount(e, e0) && e' == FailAgent(e0, cfg, op.f);
        MirrorsBad(cfg, e0, rel, op.f);
    }
  }

  /**
   For every run of a breaker that started empty: an agent's streak is its longest run of continuing
   agent-scoped failures, its key is the last of them, and it is open iff such a run reached the threshold
   since its last success.  Interrupted and provider-scoped fires and every other agent's leave it alone.
   */
  lemma {:induction false} AgentRefinesHistory(cfg: Config, ops: seq<Op>, agent: string)
    requires cfg.threshold > 0
    ensures Mirrors(cfg.digest, AgentEntry(Run(cfg, EMPTY, ops), agent), AgentOutcomes(ops, agent), cfg.threshold)
    decreases |ops|
  {
    if ops == [] {
      NeverTripped(cfg.digest, [], cfg.threshold);
    } else {
      var before, op := ops[..|ops| - 1], ops[|ops| - 1];
      var c := Run(cfg, EMPTY, before);
      AgentRefinesHistory(cfg, before, agent);
      AgentStep(cfg, c, op, agent);
      AgentMirrorStep(cfg, AgentEntry(c, agent), AgentEntry(Apply(cfg, c, op), agent), AgentOutcomes(before, agent), op, AgentOutcome(op, agent));
    }
  }

  // ----- the provider entries refine the history

  /** n failures follow the last success. */
  ghost predicate SinceOk(rel: seq<Outcome>, n: nat) {
    n <= |rel| && NoOkFrom(rel, |rel| - n) && (n == |rel| || rel[|rel| - n - 1].Ok?)
  }

  ghost predicate MirrorsProvider(e: Entry, rel: seq<Outcome>, threshold: nat) {
    && SinceOk(rel, e.streak)
    && (e.open <==> e.streak >= threshold)
    && (e.streak > 0 ==> e.key == Some(rel[|rel| - 1].key))
    && (e.streak == 0 ==> e.key.None?)
  }

  lemma {:induction false} LanesRefineHistory(cfg: Config, ops: seq<Op>, agent: string)
    requires cfg.threshold > 0
    ensures
      var lanes := Run(cfg, EMPTY, ops).lanes;
      LastLane(ops, agent) == if agent in lanes then Some(lanes[agent]) else None
    decreases |ops|
  {
    if ops != [] { LanesRefineHistory(cfg, ops[..|ops| - 1], agent); }
  }

  lemma LaneIsLastLane(cfg: Config, before: seq<Op>, f: Fire)
    requires cfg.threshold > 0
    ensures
      var lanes := LanesAfter(Run(cfg, EMPTY, before).lanes, f.agent, f.provider);
      LaneFor(lanes, f.agent, f.provider) == LastLaneName(before + [Fired(f)], f.agent)
  {
    LanesRefineHistory(cfg, before, f.agent);
    assert (before + [Fired(f)])[..|before|] == before;
  }

  lemma LastColon(q: string, c: string, i: nat)
    requires ':' !in c && i < |q + ":" + c| && (q + ":" + c)[i] == ':'
    ensures i <= |q|
  {
    if i > |q| { NoColonAfter(q, c, i); }
  }

  lemma NoColonAfter(q: string, c: string, i: nat)
    requires ':' !in c && |q| < i < |q + ":" + c|
    ensures (q + ":" + c)[i] != ':'
  {
    assert (q + ":" + c)[i] == c[i - |q| - 1];
  }

  /** Two scoped fires with the same entry have the same class: no class name contains a colon. */
  lemma SameProviderKey(p: string, c: string, p': string, c': string)
    requires ':' !in c && ':' !in c' && p + ":" + c == p' + ":" + c'
    ensures p == p' && c == c'
  {
    var k := p + ":" + c;
    assert k[|p|] == ':' && k[|p'|] == ':';
    LastColon(p, c, |p'|);
    LastColon(p', c', |p|);
    assert k[..|p|] == p && k[..|p'|] == p';
    assert k[|p| + 1..] == c && k[|p'| + 1..] == c';
  }

  lemma ScopedClassesHaveNoColon(c: string)
    requires c in PROVIDER_SCOPED
    ensures ':' !in c
  {
  }

  /** A provider entry only ever counts one class. */
  lemma {:induction false} ProviderOutcomesAgree(ops: seq<Op>, f: Fire, pkey: string)
    ensures ProviderScoped(f) && ProviderKey(f) == pkey ==>
              forall o :: o in ProviderOutcomes(ops, pkey) && o.Bad? ==> o.key == KeyOf(f)
    decreases |ops|
  {
    if ops != [] && ProviderScoped(f) {
      ProviderOutcomesAgree(ops[..|ops| - 1], f, pkey);
      var op := ops[|ops| - 1];
      if op.Fired? && ProviderScoped(op.f) && ProviderKey(op.f) == ProviderKey(f) {
        ScopedClassesHaveNoColon(op.f.errorClass.value);
        ScopedClassesHaveNoColon(f.errorClass.value);
        SameProviderKey(op.f.provider.name, op.f.errorClass.value, f.provider.name, f.errorClass.value);
      }
    }
  }

  function LaneNow(c: Core, op: Op): Option<string> {
    if op.Fired? then LaneFor(LanesAfter(c.lanes, op.f.agent, op.f.provider), op.f.agent, op.f.provider) else None
  }

  /** A call changes a provider's count only through an outcome on its lane. */
  lemma ProviderStep(cfg: Config, c: Core, op: Op, pkey: string)
    requires cfg.threshold > 0
    ensures
      var e, e' := ProviderEntry(c, pkey), ProviderEntry(Apply(cfg, c, op), pkey);
      match LaneOutcome(op, LaneNow(c, op), pkey) {
        case None => SameCount(e, e')
        case Some(Ok) => e'.streak == 0 && !e'.open && (SameCount(e, e') || e' == FRESH)
        case Some(Bad(_, _)) => exists e0 :: SameCount(e, e0) && e' == FailProvider(e0, cfg.threshold, op.f)
      }
  {
    if op.Fired? {
      var f := op.f;
      var lanes := LanesAfter(c.lanes, f.agent, f.provider);
      var c1 := EndProbe(c.(lanes := lanes), f.agent, LaneFor(lanes, f.agent, f.provider));
      var e0 := ProviderEntry(c1, pkey);
      assert SameCount(ProviderEntry(c, pkey), e0);
      if !f.interrupted && f.exitCode != 0 && ProviderScoped(f) && ProviderKey(f) == pkey {
        assert ProviderEntry(Apply(cfg, c, op), pkey) == FailProvider(e0, cfg.threshold, f);
      }
    }
  }

  lemma ProviderMirrorStep(cfg: Config, e: Entry, e': Entry, rel: seq<Outcome>, op: Op, o: Option<Outcome>)
    requires MirrorsProvider(e, rel, cfg.threshold) && cfg.threshold > 0
    requires match o {
        case None => SameCount(e, e')
        case Some(Ok) => e'.streak == 0 && !e'.open && (SameCount(e, e') || e' == FRESH)
        case Some(Bad(key, _)) => op.Fired? && op.f.errorClass.Some? && key == KeyOf(op.f) && (forall x :: x in rel && x.Bad? ==> x.key == key)
          && exists e0 :: SameCount(e, e0) && e' == FailProvider(e0, cfg.threshold, op.f)
      }
    ensures MirrorsProvider(e', Extend(rel, o), cfg.threshold)
  {
    if o.Some? && o.value.Bad? {
      assert e.streak > 0 ==> rel[|rel| - 1] in rel;
      assert SinceOk(rel + [o.value], e.streak + 1);
    } else if o.Some? {
      assert SinceOk(rel + [Ok], 0);
    }
  }

  /**
   For every run of a breaker that started empty: a provider entry counts its class's failures, from all
   agents, since any success on the lane, and is open iff that count has reached the threshold.
   */
  lemma {:induction false} ProviderRefinesHistory(cfg: Config, ops: seq<Op>, pkey: string)
    requires cfg.threshold > 0
    ensures MirrorsProvider(ProviderEntry(Run(cfg, EMPTY, ops), pkey), ProviderOutcomes(ops, pkey), cfg.threshold)
    decreases |ops|
  {
    if ops != [] {
      var before, op := ops[..|ops| - 1], ops[|ops| - 1];
      var c := Run(cfg, EMPTY, before);
      ProviderRefinesHistory(cfg, before, pkey);
      ProviderStep(cfg, c, op, pkey);
      if op.Fired? {
        LaneIsLastLane(cfg, before, op.f);
        ProviderOutcomesAgree(before, op.f, pkey);
      }
      ProviderMirrorStep(cfg, ProviderEntry(c, pkey), ProviderEntry(Apply(cfg, c, op), pkey), ProviderOutcomes(before, pkey), op, ProviderOutcome(before, op, pkey));
    }
  }

  /** A success on lane p clears lane q's entries iff q is p, or q extends p with a colon. */
  lemma LaneReach(p: string, q: string, errorClass: string)
    requires p != "" && errorClass in PROVIDER_SCOPED
    ensures OnLane(Some(p), q + ":" + errorClass) <==> p == q || p + ":" <= q
  {
    ScopedClassesHaveNoColon(errorClass);
    var k := q + ":" + errorClass;
    if p + ":" <= k {
      assert k[|p|] == ':' && k[..|p|] == p;
      LastColon(q, errorClass, |p|);
      assert k[..|q|] == q;
      if |p| < |q| { assert q[..|p| + 1] == p + ":"; }
    }
    if p + ":" <= q { assert k[..|p| + 1] == p + ":"; }
  }

  /**
   A success on one lane clears the open entry of another: the agent x fails on the lane "a:b", and y succeeds on the
   lane "a".  Without that success the entry stays open.
   */
  lemma OtherLaneIsCleared(cfg: Config, x: string, y: string, bad: Fire, good: Fire)
    requires cfg.threshold == 1 && x != y
    requires bad == Fire(x, 1, Some("auth"), "", Named("a:b"), false, 0)
    requires good == Fire(y, 0, None, "", Named("a"), false, 1)
    ensures ProviderEntry(Run(cfg, EMPTY, [Fired(bad)]), "a:b:auth").open
    ensures ProviderEntry(Run(cfg, EMPTY, [Fired(bad), Fired(good)]), "a:b:auth") == FRESH
  {
    hide Run;
    RunNext(cfg, [], Fired(bad));
    RunNext(cfg, [Fired(bad)], Fired(good));
    assert [] + [Fired(bad)] == [Fired(bad)] && [Fired(bad)] + [Fired(good)] == [Fired(bad), Fired(good)];
    assert ProviderKey(bad) == "a:b:auth";
    assert "a" + ":" <= "a:b:auth";
  }

  lemma RunNext(cfg: Config, ops: seq<Op>, op: Op)
    ensures Run(cfg, EMPTY, ops + [op]) == Apply(cfg, Run(cfg, EMPTY, ops), op) && Run(cfg, EMPTY, []) == EMPTY
  {
    assert (ops + [op])[..|ops|] == ops;
  }

  /** Unless an output line spells a persisted key, a streak continues exactly on the same key. */
  lemma ContinuesOnSameKey(digest: string -> string, prev: string, key: string, errorClass: Option<string>)
    requires EightHex(digest(key)) && !IsHashed(prev)
    ensures Continues(digest, prev, key, errorClass) <==> key == prev
  {
    PersistedShape(digest, key, errorClass);
  }
}
