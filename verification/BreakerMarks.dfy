/**
 The times and flags a breaker's entries carry beside their count: when the last failure was, when the entry opened,
 whether a probe is under way and when the next one is due, each told from the history of calls.
 */
module BreakerMarks {

  import opened BreakerCore
  import opened BreakerHistory
  import opened Options

  // ----- keys on disk, and no breaker at all

  /** A persisted tail is these words around eight small hexadecimal digits. */
  lemma HashedIff(key: string)
    ensures
      IsHashed(key) <==>
      exists digits :: key == "(unclassified tail #" + digits + ")" && |digits| == 8 && forall i :: 0 <= i < 8 ==> digits[i] in "0123456789abcdef"
  {
    forall c: char ensures IsHex(c) <==> c in "0123456789abcdef" {}
    if IsHashed(key) {
      var digits := key[20..28];
      assert key == key[..20] + digits + [key[28]];
      assert forall i :: 0 <= i < 8 ==> digits[i] == key[20 + i];
    }
    if digits :| key == "(unclassified tail #" + digits + ")" && |digits| == 8 && forall i :: 0 <= i < 8 ==> digits[i] in "0123456789abcdef" {
      assert key[..20] == "(unclassified tail #" && key[28] == ')';
      assert forall i :: 20 <= i < 28 ==> key[i] == digits[i - 20];
    }
  }

  /** With threshold zero nothing is recorded and nothing is ever open, so no interval is stretched. */
  lemma {:induction false} ZeroNeverOpens(cfg: Config, ops: seq<Op>, agent: string, baseMs: int)
    requires cfg.threshold == 0
    ensures
      var c := Run(cfg, EMPTY, ops);
      c.byAgent == map[] && c.byProvider == map[] && !IsOpen(c, agent) && Interval(cfg, c, agent, baseMs) == baseMs
    decreases |ops|
  {
    if ops != [] {
      ZeroNeverOpens(cfg, ops[..|ops| - 1], agent, baseMs);
      if ops[|ops| - 1].Rescheduled? { ZeroNeverOpens(cfg, ops[..|ops| - 1], ops[|ops| - 1].agent, baseMs); }
    }
  }

  // ----- an agent's entry

  /** The last failure that counted for the agent since its last success. */
  function LastFailure(ops: seq<Op>, agent: string): Option<Fire> {
    if ops == [] then None
    else
      match AgentOutcome(ops[|ops| - 1], agent)
      case None => LastFailure(ops[..|ops| - 1], agent)
      case Some(Ok) => None
      case Some(Bad(_, _)) => Some(ops[|ops| - 1].f)
  }

  /** The time of the call since which the entry has been open. */
  function OpenSince(cfg: Config, ops: seq<Op>, agent: string): Option<int> {
    if ops == [] || !AgentEntry(Run(cfg, EMPTY, ops), agent).open then None
    else if AgentEntry(Run(cfg, EMPTY, ops[..|ops| - 1]), agent).open then OpenSince(cfg, ops[..|ops| - 1], agent)
    else if ops[|ops| - 1].Fired? then Some(ops[|ops| - 1].f.at) else None
  }

  /** A probe was marked while the entry was open, and none of the agent's fires has ended since. */
  function ProbePending(cfg: Config, ops: seq<Op>, agent: string): bool {
    if ops == [] then false
    else
      var before, last := ops[..|ops| - 1], ops[|ops| - 1];
      if last.Fired? && last.f.agent == agent then false
      else if last.Probing? && last.agent == agent && AgentEntry(Run(cfg, EMPTY, before), agent).open then true
      else ProbePending(cfg, before, agent)
  }

  /** The next probe time of the last rescheduling while open, unless an outcome came after it. */
  function NextProbe(cfg: Config, ops: seq<Op>, agent: string): Option<int> {
    if ops == [] then None
    else
      var before, last := ops[..|ops| - 1], ops[|ops| - 1];
      if AgentOutcome(last, agent).Some? then None
      else if last.Rescheduled? && last.agent == agent && IsOpen(Run(cfg, EMPTY, before), agent) then
        Some(last.now + if last.baseMs < cfg.probeMs then cfg.probeMs else last.baseMs)
      else NextProbe(cfg, before, agent)
  }

  ghost predicate Marked(cfg: Config, ops: seq<Op>, agent: string, e: Entry) {
    var f := LastFailure(ops, agent);
    && e.lastFailureAt == (if f.Some? then Some(f.value.at) else None)
    && e.lastErrorClass == (if f.Some? then f.value.errorClass else None)
    && e.openedAt == OpenSince(cfg, ops, agent) && (e.open <==> e.openedAt.Some?)
    && e.probeInFlight == ProbePending(cfg, ops, agent)
    && e.cooldownUntil == NextProbe(cfg, ops, agent)
  }

  /** What one call leaves of an agent's marks. */
  lemma CallMarks(cfg: Config, c: Core, op: Op, agent: string)
    requires cfg.threshold > 0
    ensures
      var e, e' := AgentEntry(c, agent), AgentEntry(Apply(cfg, c, op), agent);
      match op
      case Fired(f) =>
        if f.agent != agent then e' == e
        else
          && !e'.probeInFlight
          && (match AgentOutcome(op, agent)
              case None => e' == e.(probeInFlight := false)
              case Some(Ok) => e' == FRESH
              case Some(Bad(_, _)) =>
                && e'.lastFailureAt == Some(f.at) && e'.lastErrorClass == f.errorClass && e'.cooldownUntil.None?
                && e'.openedAt == (if e'.open && !e.open then Some(f.at) else e.openedAt) && (e.open ==> e'.open))
      case Probing(a, _) => e' == if a == agent && e.open then e.(probeInFlight := true) else e
      case Rescheduled(a, base, now) =>
        e' == if a == agent && IsOpen(c, agent) then e.(cooldownUntil := Some(now + if base < cfg.probeMs then cfg.probeMs else base)) else e
      case Seeded(_, _) => e' == e
  {
  }

  /** Over every run: the marks of an agent's entry are what the history says. */
  lemma {:induction false} AgentMarksRefineHistory(cfg: Config, ops: seq<Op>, agent: string)
    requires cfg.threshold > 0
    ensures Marked(cfg, ops, agent, AgentEntry(Run(cfg, EMPTY, ops), agent))
    decreases |ops|
  {
    hide Apply, IsOpen;
    if ops != [] {
      var before, op := ops[..|ops| - 1], ops[|ops| - 1];
      AgentMarksRefineHistory(cfg, before, agent);
      CallMarks(cfg, Run(cfg, EMPTY, before), op, agent);
    }
  }

  /** An open breaker is never retried sooner than its probe interval, and a closed one exactly as often as before. */
  lemma IntervalIsTheLonger(cfg: Config, c: Core, agent: string, baseMs: int)
    ensures
      var ms := Interval(cfg, c, agent, baseMs);
      if IsOpen(c, agent) then ms >= baseMs && ms >= cfg.probeMs && (ms == baseMs || ms == cfg.probeMs) else ms == baseMs
  {
  }

  /** An agent is held back by its own entry, or by any entry of the provider it was last said to run on. */
  lemma HeldBackIff(c: Core, agent: string)
    ensures
      IsOpen(c, agent) <==>
      || (agent in c.byAgent && c.byAgent[agent].open)
      || (agent in c.lanes && c.lanes[agent].Some? && c.lanes[agent].value != ""
          && exists k :: k in c.byProvider && c.lanes[agent].value + ":" <= k && c.byProvider[k].open)
  {
    if agent in c.lanes && c.lanes[agent].Some? && c.lanes[agent].value != "" {
      forall k ensures OnLane(LaneFor(c.lanes, agent, Undefined), k) <==> c.lanes[agent].value + ":" <= k {}
    }
  }

  // ----- a provider's entry

  function LaneFailure(ops: seq<Op>, pkey: string): Option<Fire> {
    if ops == [] then None
    else
      match ProviderOutcome(ops[..|ops| - 1], ops[|ops| - 1], pkey)
      case None => LaneFailure(ops[..|ops| - 1], pkey)
      case Some(Ok) => None
      case Some(Bad(_, _)) => Some(ops[|ops| - 1].f)
  }

  function LaneOpenSince(cfg: Config, ops: seq<Op>, pkey: string): Option<int> {
    if ops == [] || !ProviderEntry(Run(cfg, EMPTY, ops), pkey).open then None
    else if ProviderEntry(Run(cfg, EMPTY, ops[..|ops| - 1]), pkey).open then LaneOpenSince(cfg, ops[..|ops| - 1], pkey)
    else if ops[|ops| - 1].Fired? then Some(ops[|ops| - 1].f.at) else None
  }

  /** A probe was marked on the lane while the entry was open, and no fire on the lane has ended since. */
  function LaneProbePending(cfg: Config, ops: seq<Op>, pkey: string): bool {
    if ops == [] then false
    else
      var before, last := ops[..|ops| - 1], ops[|ops| - 1];
      if last.Fired? && OnLane(LastLaneName(ops, last.f.agent), pkey) then false
      else if last.Probing? && ProbeLane(before, last, pkey) && ProviderEntry(Run(cfg, EMPTY, before), pkey).open then true
      else LaneProbePending(cfg, before, pkey)
  }

  /** The lane a probe is marked on: the named one, or else the one the agent was last said to run on. */
  predicate ProbeLane(before: seq<Op>, probing: Op, pkey: string)
    requires probing.Probing?
  {
    match probing.provider
    case Named(p) => p != "" && p + ":" <= pkey
    case _ => OnLane(LastLaneName(before, probing.agent), pkey)
  }

  ghost predicate LaneMarked(cfg: Config, ops: seq<Op>, pkey: string, e: Entry) {
    var f := LaneFailure(ops, pkey);
    && (e.streak > 0 ==> f.Some?)
    && (f.Some? ==> e.lastFailureAt == Some(f.value.at) && e.lastErrorClass == f.value.errorClass)
    && e.openedAt == LaneOpenSince(cfg, ops, pkey) && (e.open <==> e.openedAt.Some?)
    && (e.open ==> e.probeInFlight == LaneProbePending(cfg, ops, pkey)) && (e.probeInFlight ==> e.open)
    && e.cooldownUntil.None?
  }

  lemma LaneCallMarks(cfg: Config, c: Core, op: Op, pkey: string, lane: Option<string>)
    requires cfg.threshold > 0 && (op.Fired? ==> lane == LaneNow(c, op)) && (op.Probing? ==> lane == LaneFor(c.lanes, op.agent, op.provider))
    ensures
      var e, e' := ProviderEntry(c, pkey), ProviderEntry(Apply(cfg, c, op), pkey);
      match op
      case Fired(f) =>
        var ended := if OnLane(lane, pkey) then e.(probeInFlight := false) else e;
        (match LaneOutcome(op, lane, pkey)
         case None => e' == ended
         case Some(Ok) => e' == FRESH || (e' == ended && IsClear(e))
         case Some(Bad(_, _)) =>
           && e'.lastFailureAt == Some(f.at) && e'.lastErrorClass == f.errorClass && e'.cooldownUntil == e.cooldownUntil
           && OnLane(lane, pkey) && !e'.probeInFlight
           && e'.openedAt == (if e'.open && !e.open then Some(f.at) else e.openedAt) && (e.open ==> e'.open))
      case Probing(_, _) => e' == if OnLane(lane, pkey) && e.open then e.(probeInFlight := true) else e
      case _ => e' == e
  {
  }

  lemma ProbeLaneIs(cfg: Config, before: seq<Op>, probing: Op, pkey: string)
    requires cfg.threshold > 0 && probing.Probing?
    ensures OnLane(LaneFor(Run(cfg, EMPTY, before).lanes, probing.agent, probing.provider), pkey) <==> ProbeLane(before, probing, pkey)
  {
    LanesRefineHistory(cfg, before, probing.agent);
  }

  /** Over every run: so are the marks of a provider's entry. */
  lemma {:induction false} ProviderMarksRefineHistory(cfg: Config, ops: seq<Op>, pkey: string)
    requires cfg.threshold > 0
    ensures LaneMarked(cfg, ops, pkey, ProviderEntry(Run(cfg, EMPTY, ops), pkey))
    decreases |ops|
  {
    hide Apply, OnLane, LastLaneName, LaneNow, LaneFor, ProbeLane;
    if ops != [] {
      var before, op := ops[..|ops| - 1], ops[|ops| - 1];
      var c := Run(cfg, EMPTY, before);
      ProviderMarksRefineHistory(cfg, before, pkey);
      ProviderStep(cfg, c, op, pkey);
      assert before + [op] == ops;
      if op.Fired? {
        LaneOfFire(cfg, before, op);
        LaneCallMarks(cfg, c, op, pkey, LaneNow(c, op));
      } else if op.Probing? {
        ProbeLaneIs(cfg, before, op, pkey);
        LaneCallMarks(cfg, c, op, pkey, LaneFor(c.lanes, op.agent, op.provider));
      } else {
        LaneCallMarks(cfg, c, op, pkey, None);
      }
    }
  }

  lemma LaneOfFire(cfg: Config, before: seq<Op>, op: Op)
    requires cfg.threshold > 0 && op.Fired?
    ensures LaneNow(Run(cfg, EMPTY, before), op) == LastLaneName(before + [op], op.f.agent)
  {
    LaneIsLastLane(cfg, before, op.f);
  }
}
