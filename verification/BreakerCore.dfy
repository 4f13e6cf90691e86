/**
 The failure-streak circuit breaker: its state, and what each call does to it.

 The breaker keeps one entry per agent and one per `provider:errorClass`.  `BreakerObject` holds the object
 whose methods update those maps; here every call is a function on their value, so that runs can be compared
 with the history of fires (`BreakerHistory`) and with a restarted breaker (`BreakerRestart`).
 */
module BreakerCore {

  import opened Options

  datatype Entry = Entry(
    key: Option<string>,
    streak: nat,
    open: bool,
    openedAt: Option<int>,
    lastFailureAt: Option<int>,
    lastErrorClass: Option<string>,
    probeInFlight: bool,
    cooldownUntil: Option<int>)

  const FRESH := Entry(None, 0, false, None, None, None, false, None)

  const PROVIDER_SCOPED: set<string> := {"spend-limit", "rate-limit", "auth", "session-limit"}

  /** The provider argument: left out, null, or a name. */
  datatype Arg = Undefined | Null | Named(name: string)

  /** One ended fire; lastLine is the trimmed last line of its output. */
  datatype Fire = Fire(
    agent: string, exitCode: int, errorClass: Option<string>, lastLine: string, provider: Arg, interrupted: bool, at: int)

  /** --breaker, --breaker-probe, and the eight hex digits persistedKey derives from an unclassified tail. */
  datatype Config = Config(threshold: nat, probeMs: int, digest: string -> string)

  datatype Core = Core(byAgent: map<string, Entry>, byProvider: map<string, Entry>, lanes: map<string, Option<string>>)

  const EMPTY := Core(map[], map[], map[])

  function AgentEntry(c: Core, agent: string): Entry {
    if agent in c.byAgent then c.byAgent[agent] else FRESH
  }

  function ProviderEntry(c: Core, pkey: string): Entry {
    if pkey in c.byProvider then c.byProvider[pkey] else FRESH
  }

  // ----- keys

  function KeyOf(f: Fire): string {
    if f.errorClass.Some? then f.errorClass.value else if f.lastLine == "" then "(no-output)" else f.lastLine
  }

  predicate IsHex(c: char) { '0' <= c <= '9' || 'a' <= c <= 'f' }

  /** /^\(unclassified tail #[0-9a-f]{8}\)$/ */
  predicate IsHashed(key: string) {
    && |key| == 29 && key[..20] == "(unclassified tail #" && key[28] == ')'
    && forall i :: 20 <= i < 28 ==> IsHex(key[i])
  }

  function PersistedKey(digest: string -> string, key: string, errorClass: Option<string>): string {
    if (errorClass.Some? && errorClass.value != "") || key == "(no-output)" || IsHashed(key) then key
    else "(unclassified tail #" + digest(key) + ")"
  }

  predicate EightHex(d: string) {
    |d| == 8 && forall i :: 0 <= i < 8 ==> IsHex(d[i])
  }

  /** What is written is the key itself or a hashed form. */
  lemma PersistedShape(digest: string -> string, key: string, errorClass: Option<string>)
    requires EightHex(digest(key))
    ensures PersistedKey(digest, key, errorClass) == key || IsHashed(PersistedKey(digest, key, errorClass))
  {
    var h := "(unclassified tail #" + digest(key) + ")";
    assert h[..20] == "(unclassified tail #" && h[28] == ')';
    assert forall i :: 20 <= i < 28 ==> h[i] == digest(key)[i - 20];
  }

  /** A failure with this key continues a streak kept under prev. */
  predicate Continues(digest: string -> string, prev: string, key: string, errorClass: Option<string>) {
    key == prev || prev == PersistedKey(digest, key, errorClass)
  }

  // ----- lanes

  function LanesAfter(lanes: map<string, Option<string>>, agent: string, provider: Arg): map<string, Option<string>> {
    match provider
    case Undefined => lanes
    case Null => lanes[agent := None]
    case Named(n) => lanes[agent := Some(n)]
  }

  /** `provider ?? _agentProvider.get(agent)`, with the empty name as falsy as null. */
  function LaneFor(lanes: map<string, Option<string>>, agent: string, provider: Arg): (p: Option<string>)
    ensures p != Some("")
  {
    var p := if provider.Named? then Some(provider.name) else if agent in lanes then lanes[agent] else None;
    if p == Some("") then None else p
  }

  predicate OnLane(p: Option<string>, pkey: string) {
    p.Some? && p.value + ":" <= pkey
  }

  predicate ProviderScoped(f: Fire) {
    && f.exitCode != 0 && f.errorClass.Some? && f.errorClass.value in PROVIDER_SCOPED
    && f.provider.Named? && f.provider.name != ""
  }

  function ProviderKey(f: Fire): string
    requires ProviderScoped(f)
  {
    f.provider.name + ":" + f.errorClass.value
  }

  // ----- record

  function Unprobed(entries: map<string, Entry>, p: Option<string>): map<string, Entry> {
    map k | k in entries :: if OnLane(p, k) then entries[k].(probeInFlight := false) else entries[k]
  }

  function EndProbe(c: Core, agent: string, p: Option<string>): Core {
    Core(
      if agent in c.byAgent then c.byAgent[agent := c.byAgent[agent].(probeInFlight := false)] else c.byAgent,
      Unprobed(c.byProvider, p),
      c.lanes)
  }

  predicate IsClear(e: Entry) {
    !e.open && e.streak == 0 && e.cooldownUntil.None?
  }

  function Cleared(entries: map<string, Entry>, p: Option<string>): map<string, Entry> {
    map k | k in entries :: if OnLane(p, k) && !IsClear(entries[k]) then FRESH else entries[k]
  }

  function Succeed(c: Core, agent: string, p: Option<string>): Core {
    Core(c.byAgent[agent := FRESH], Cleared(c.byProvider, p), c.lanes)
  }

  /** A streak that reaches the threshold opens a closed entry. */
  function Trip(e: Entry, threshold: nat, at: int): Entry {
    if !e.open && e.streak >= threshold then e.(open := true, openedAt := Some(at)) else e
  }

  function FailProvider(e: Entry, threshold: nat, f: Fire): Entry
    requires f.errorClass.Some?
  {
    var key := KeyOf(f);
    var e1 := if e.key == Some(key) then e.(streak := e.streak + 1) else e.(key := Some(key), streak := 1);
    Trip(e1.(lastFailureAt := Some(f.at), lastErrorClass := f.errorClass), threshold, f.at)
  }

  function FailAgent(e: Entry, cfg: Config, f: Fire): Entry {
    var key := KeyOf(f);
    var same := e.key.Some? && Continues(cfg.digest, e.key.value, key, f.errorClass);
    var e1 := e.(key := Some(key), streak := if same then e.streak + 1 else 1);
    Trip(e1.(lastFailureAt := Some(f.at), lastErrorClass := f.errorClass, cooldownUntil := None), cfg.threshold, f.at)
  }

  function Failed(cfg: Config, c: Core, f: Fire): Core {
    if ProviderScoped(f) then
      c.(byProvider := c.byProvider[ProviderKey(f) := FailProvider(ProviderEntry(c, ProviderKey(f)), cfg.threshold, f)])
    else
      c.(byAgent := c.byAgent[f.agent := FailAgent(AgentEntry(c, f.agent), cfg, f)])
  }

  function Record(cfg: Config, c: Core, f: Fire): Core {
    if cfg.threshold == 0 then c
    else
      var lanes := LanesAfter(c.lanes, f.agent, f.provider);
      var p := LaneFor(lanes, f.agent, f.provider);
      var c1 := EndProbe(c.(lanes := lanes), f.agent, p);
      if f.interrupted then c1
      else if f.exitCode == 0 then Succeed(c1, f.agent, p)
      else Failed(cfg, c1, f)
  }

  // ----- the calls that never decide a streak

  function Probed(entries: map<string, Entry>, p: Option<string>): map<string, Entry> {
    map k | k in entries :: if OnLane(p, k) && entries[k].open then entries[k].(probeInFlight := true) else entries[k]
  }

  function MarkProbe(cfg: Config, c: Core, agent: string, provider: Arg): Core {
    if cfg.threshold == 0 then c
    else
      Core(
        if agent in c.byAgent && c.byAgent[agent].open then c.byAgent[agent := c.byAgent[agent].(probeInFlight := true)] else c.byAgent,
        Probed(c.byProvider, LaneFor(c.lanes, agent, provider)),
        c.lanes)
  }

  predicate IsOpen(c: Core, agent: string) {
    || AgentEntry(c, agent).open
    || exists k :: k in c.byProvider && OnLane(LaneFor(c.lanes, agent, Undefined), k) && c.byProvider[k].open
  }

  function Interval(cfg: Config, c: Core, agent: string, baseMs: int): int {
    if !IsOpen(c, agent) then baseMs else if baseMs < cfg.probeMs then cfg.probeMs else baseMs
  }

  function Reschedule(cfg: Config, c: Core, agent: string, baseMs: int, now: int): Core {
    if !IsOpen(c, agent) then c
    else c.(byAgent := c.byAgent[agent := AgentEntry(c, agent).(cooldownUntil := Some(now + Interval(cfg, c, agent, baseMs)))])
  }

  function Seed(c: Core, agent: string, provider: Option<string>): Core {
    if agent in c.lanes then c else c.(lanes := c.lanes[agent := provider])
  }

  // ----- runs

  datatype Op =
    | Fired(f: Fire)
    | Probing(agent: string, provider: Arg)
    | Rescheduled(agent: string, baseMs: int, now: int)
    | Seeded(agent: string, lane: Option<string>)

  function Apply(cfg: Config, c: Core, op: Op): Core {
    match op
    case Fired(f) => Record(cfg, c, f)
    case Probing(a, p) => MarkProbe(cfg, c, a, p)
    case Rescheduled(a, base, now) => Reschedule(cfg, c, a, base, now)
    case Seeded(a, p) => Seed(c, a, p)
  }

  function Run(cfg: Config, c: Core, ops: seq<Op>): Core {
    if ops == [] then c else Apply(cfg, Run(cfg, c, ops[..|ops| - 1]), ops[|ops| - 1])
  }
}
