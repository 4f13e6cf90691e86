/**
 Stopping and starting again: what breaker.json keeps, and what a restart resumes from it.  `BreakerSessions` compares
 a scheduler that was restarted any number of times with one that never stopped.
 */
module BreakerRestart {

  import opened Options
  import opened BreakerCore
  import opened BreakerHistory

  datatype State = Closed | Open | HalfOpen

  datatype Saved = Saved(
    state: State, streak: nat, openedAt: Option<int>, lastFailureAt: Option<int>, lastErrorClass: Option<string>, lastReason: Option<string>)

  datatype SavedProvider = SavedProvider(provider: string, errorClass: string, entry: Saved)

  datatype File = File(
    agents: map<string, Saved>, providers: seq<SavedProvider>, lanes: map<string, Option<string>>, updatedAt: int)

  // ----- snapshot

  function Save(digest: string -> string, e: Entry): Saved {
    Saved(
      if e.open then if e.probeInFlight then HalfOpen else Open else Closed,
      e.streak, e.openedAt, e.lastFailureAt, e.lastErrorClass,
      if e.key.None? then None else Some(PersistedKey(digest, e.key.value, e.lastErrorClass)))
  }

  function FirstColon(k: string, from: nat): (i: nat)
    requires from <= |k|
    ensures from <= i <= |k| && (i < |k| ==> k[i] == ':')
    ensures i == |k| ==> ':' !in k[from..]
    decreases |k| - from
  {
    if from == |k| || k[from] == ':' then from else FirstColon(k, from + 1)
  }

  /** A provider entry is written under the two halves of its key; a key without a colon never occurs (`RunKeepsNames`). */
  function SaveProvider(digest: string -> string, k: string, e: Entry): SavedProvider {
    var i := FirstColon(k, 0);
    if i < |k| then SavedProvider(k[..i], k[i + 1..], Save(digest, e))
    else SavedProvider(if k == "" then "" else k[..|k| - 1], k, Save(digest, e))
  }

  function Name(s: SavedProvider): string { s.provider + ":" + s.errorClass }

  predicate Carries(e: Entry) { e.open || e.streak > 0 }

  /** ks is the order in which the provider entries that carry state are met. */
  ghost predicate Lists(ks: seq<string>, c: Core) {
    && (forall i, j :: 0 <= i < j < |ks| ==> ks[i] != ks[j])
    && (forall k :: k in ks <==> k in c.byProvider && Carries(c.byProvider[k]))
  }

  function Snapshot(digest: string -> string, c: Core, ks: seq<string>, now: int): File {
    File(
      map a | a in c.byAgent && (Carries(c.byAgent[a]) || c.byAgent[a].probeInFlight) :: Save(digest, c.byAgent[a]),
      seq(|ks|, i requires 0 <= i < |ks| => SaveProvider(digest, ks[i], ProviderEntry(c, ks[i]))),
      c.lanes, now)
  }

  // ----- restore

  function Age(s: Saved, file: File, now: int): int {
    now - if s.lastFailureAt.Some? then s.lastFailureAt.value else if s.openedAt.Some? then s.openedAt.value else file.updatedAt
  }

  predicate Resumes(cfg: Config, s: Saved, file: File, now: int) {
    !s.state.Closed? && Age(s, file, now) < cfg.probeMs
  }

  function Back(s: Saved): Entry {
    Entry(s.lastReason, s.streak, true, s.openedAt, s.lastFailureAt, s.lastErrorClass, false, None)
  }

  /** The agents among these whose saved entry is resumed. */
  function ResumeAgents(cfg: Config, entries: map<string, Entry>, file: File, agents: set<string>, now: int): map<string, Entry> {
    entries + map a | a in agents && a in file.agents && Resumes(cfg, file.agents[a], file, now) :: Back(file.agents[a])
  }

  lemma ResumeOne(cfg: Config, entries: map<string, Entry>, file: File, done: set<string>, a: string, now: int)
    requires a in file.agents
    ensures
      var m := ResumeAgents(cfg, entries, file, done, now);
      ResumeAgents(cfg, entries, file, done + {a}, now) ==
      if Resumes(cfg, file.agents[a], file, now) then m[a := Back(file.agents[a])] else m
  {
    var s := file.agents[a];
    if Resumes(cfg, s, file, now) {
      assert ResumeAgents(cfg, entries, file, done + {a}, now) == ResumeAgents(cfg, entries, file, done, now)[a := Back(s)];
    } else {
      assert ResumeAgents(cfg, entries, file, done + {a}, now) == ResumeAgents(cfg, entries, file, done, now);
    }
  }

  function ResumeProviders(cfg: Config, entries: map<string, Entry>, file: File, n: nat, now: int): map<string, Entry>
    requires n <= |file.providers|
  {
    if n == 0 then entries
    else
      var before, s := ResumeProviders(cfg, entries, file, n - 1, now), file.providers[n - 1];
      if Resumes(cfg, s.entry, file, now) then before[Name(s) := Back(s.entry)] else before
  }

  function Restore(cfg: Config, c: Core, file: File, now: int): Core {
    if cfg.threshold == 0 then c
    else Core(
      ResumeAgents(cfg, c.byAgent, file, file.agents.Keys, now),
      ResumeProviders(cfg, c.byProvider, file, |file.providers|, now),
      file.lanes + c.lanes)
  }

  /** A scheduler at boot: it has seeded lanes and recorded nothing. */
  predicate AtBoot(c: Core) { c.byAgent == map[] && c.byProvider == map[] }

  // ----- the key on disk

  lemma PersistedKeyIsIdempotent(digest: string -> string, key: string, errorClass: Option<string>)
    requires EightHex(digest(key))
    ensures PersistedKey(digest, PersistedKey(digest, key, errorClass), errorClass) == PersistedKey(digest, key, errorClass)
  {
    PersistedShape(digest, key, errorClass);
  }

  // ----- what is resumed

  lemma FirstColonIsFirst(k: string, i: nat, from: nat)
    requires from <= i < |k| && k[i] == ':'
    ensures FirstColon(k, from) <= i
    decreases i - from
  {
    if from < i && k[from] != ':' { FirstColonIsFirst(k, i, from + 1); }
  }

  lemma NameOfSaved(digest: string -> string, k: string, e: Entry)
    requires ':' in k
    ensures Name(SaveProvider(digest, k, e)) == k
  {
    var j :| 0 <= j < |k| && k[j] == ':';
    FirstColonIsFirst(k, j, 0);
    var i := FirstColon(k, 0);
    assert k == k[..i] + [k[i]] + k[i + 1..];
  }

  /** `provider:class`, with a provider. */
  predicate NamesProvider(pkey: string) {
    exists i :: 0 < i < |pkey| && pkey[i] == ':'
  }

  ghost predicate KeysNamed(c: Core) {
    forall k :: k in c.byProvider ==> NamesProvider(k)
  }

  lemma {:induction false} RunKeepsNames(cfg: Config, c: Core, ops: seq<Op>)
    requires KeysNamed(c)
    ensures KeysNamed(Run(cfg, c, ops))
    decreases |ops|
  {
    if ops != [] {
      var before, op := ops[..|ops| - 1], ops[|ops| - 1];
      RunKeepsNames(cfg, c, before);
      if op.Fired? && ProviderScoped(op.f) {
        assert ProviderKey(op.f)[|op.f.provider.name|] == ':';
      }
    }
  }

  /** Whether a provider entry is resumed, told from the live breaker: open, and its last failure recent enough. */
  predicate Recent(cfg: Config, e: Entry, written: int, now: int) {
    && cfg.threshold > 0 && e.open
    && now - (if e.lastFailureAt.Some? then e.lastFailureAt.value else if e.openedAt.Some? then e.openedAt.value else written) < cfg.probeMs
  }

  lemma RecentSaved(cfg: Config, digest: string -> string, e: Entry, file: File, now: int)
    requires cfg.threshold > 0
    ensures Resumes(cfg, Save(digest, e), file, now) <==> Recent(cfg, e, file.updatedAt, now)
  {
  }

  lemma SavedAt(digest: string -> string, c: Core, ks: seq<string>, written: int, i: nat)
    requires Lists(ks, c) && i < |ks|
    requires KeysNamed(c)
    ensures var s := Snapshot(digest, c, ks, written).providers[i]; Name(s) == ks[i] && s.entry == Save(digest, ProviderEntry(c, ks[i]))
  {
    assert ks[i] in ks;
    NameOfSaved(digest, ks[i], ProviderEntry(c, ks[i]));
  }

  /** Slot i of the file is entry ks[i]. */
  ghost predicate Slot(digest: string -> string, c: Core, ks: seq<string>, file: File, i: nat) {
    i < |ks| && i < |file.providers| && Name(file.providers[i]) == ks[i] && file.providers[i].entry == Save(digest, ProviderEntry(c, ks[i]))
  }

  lemma {:induction false} ProvidersResumed(cfg: Config, digest: string -> string, c: Core, ks: seq<string>, file: File, now: int, n: nat, k: string)
    requires cfg.threshold > 0 && n <= |ks| == |file.providers|
    requires forall i :: 0 <= i < n ==> Slot(digest, c, ks, file, i)
    ensures
      var m := ResumeProviders(cfg, map[], file, n, now);
      && (k in m <==> k in ks[..n] && Recent(cfg, ProviderEntry(c, k), file.updatedAt, now))
      && (k in m ==> m[k] == Back(Save(digest, ProviderEntry(c, k))))
    decreases n
  {
    if n > 0 {
      ProvidersResumed(cfg, digest, c, ks, file, now, n - 1, k);
      assert Slot(digest, c, ks, file, n - 1);
      RecentSaved(cfg, digest, ProviderEntry(c, ks[n - 1]), file, now);
      TakeNext(ks, n - 1, k);
    }
  }

  lemma TakeNext(ks: seq<string>, n: nat, k: string)
    requires n < |ks|
    ensures k in ks[..n + 1] <==> k in ks[..n] || k == ks[n]
  {
    assert ks[..n + 1] == ks[..n] + [ks[n]];
  }

  /**
   Restoring a snapshot at boot resumes exactly the open and half-open entries whose last failure is younger
   than the new probe interval, with their streak, their times and the persisted form of their key.
   */
  lemma ResumesExactly(digest: string -> string, c: Core, ks: seq<string>, written: int, cfg: Config, boot: Core, now: int, agent: string, pkey: string)
    requires KeysNamed(c) && AtBoot(boot) && Lists(ks, c)
    ensures
      var r := Restore(cfg, boot, Snapshot(digest, c, ks, written), now);
      && (agent in r.byAgent <==> Recent(cfg, AgentEntry(c, agent), written, now))
      && (agent in r.byAgent ==> r.byAgent[agent] == Back(Save(digest, AgentEntry(c, agent))))
      && (pkey in r.byProvider <==> Recent(cfg, ProviderEntry(c, pkey), written, now))
      && (pkey in r.byProvider ==> r.byProvider[pkey] == Back(Save(digest, ProviderEntry(c, pkey))))
  {
    if cfg.threshold > 0 {
      var file := Snapshot(digest, c, ks, written);
      forall i: nat | i < |ks| ensures Slot(digest, c, ks, file, i) { SavedAt(digest, c, ks, written, i); }
      ProvidersResumed(cfg, digest, c, ks, file, now, |ks|, pkey);
      assert ks[..|ks|] == ks;
    }
  }

  /** What comes back of an entry: open, not probing, due at no set time, with its count, times, class and persisted key. */
  ghost predicate ComesBack(digest: string -> string, e: Entry, r: Entry) {
    && r.open && !r.probeInFlight && r.cooldownUntil.None? && r.streak == e.streak
    && r.openedAt == e.openedAt && r.lastFailureAt == e.lastFailureAt && r.lastErrorClass == e.lastErrorClass
    && (r.key.Some? <==> e.key.Some?) && (r.key.Some? ==> r.key.value == PersistedKey(digest, e.key.value, e.lastErrorClass))
  }

  /** Every entry a breaker holds after boot comes back from the one it had when the file was written. */
  lemma ResumedComesBack(digest: string -> string, c: Core, ks: seq<string>, written: int, cfg: Config, boot: Core, now: int, agent: string, pkey: string)
    requires KeysNamed(c) && AtBoot(boot) && Lists(ks, c)
    ensures
      var r := Restore(cfg, boot, Snapshot(digest, c, ks, written), now);
      && (agent in r.byAgent ==> ComesBack(digest, AgentEntry(c, agent), r.byAgent[agent]))
      && (pkey in r.byProvider ==> ComesBack(digest, ProviderEntry(c, pkey), r.byProvider[pkey]))
  {
    hide Restore, Snapshot;
    ResumesExactly(digest, c, ks, written, cfg, boot, now, agent, pkey);
  }

  /** The file holds an agent's entry exactly if that is open, counts something or is being probed, and says which. */
  lemma FileHolds(digest: string -> string, c: Core, ks: seq<string>, written: int, agent: string)
    ensures
      var file, e := Snapshot(digest, c, ks, written), AgentEntry(c, agent);
      && (agent in file.agents <==> e.open || e.streak > 0 || e.probeInFlight)
      && (agent in file.agents ==>
            && (file.agents[agent].state.Closed? <==> !e.open)
            && (file.agents[agent].state.HalfOpen? <==> e.open && e.probeInFlight)
            && file.agents[agent].streak == e.streak)
      && file.lanes == c.lanes && file.updatedAt == written
  {
  }

  /** And exactly the provider entries that are open or count something. */
  lemma FileListsProviders(digest: string -> string, c: Core, ks: seq<string>, written: int, pkey: string)
    requires KeysNamed(c) && Lists(ks, c)
    ensures
      var file, e := Snapshot(digest, c, ks, written), ProviderEntry(c, pkey);
      (exists i :: 0 <= i < |file.providers| && Name(file.providers[i]) == pkey) <==> e.open || e.streak > 0
  {
    var file := Snapshot(digest, c, ks, written);
    forall i: nat | i < |ks| ensures Name(file.providers[i]) == ks[i] { SavedAt(digest, c, ks, written, i); }
    if pkey in ks {
      var i :| 0 <= i < |ks| && ks[i] == pkey;
      assert Name(file.providers[i]) == pkey;
    }
  }
}
