/**
 The daemon's notifiers.  Each tick decides from the events ledger alone whether to send, and appends a marker
 after a real send; the next tick, in this process or after a restart, reads the markers back.
 */
module Notifiers {

  import opened Options

  datatype Kind = Done | BlockedMarker | ReviewMarker | ApprovalMarker | NoProgressMarker | DegradedMarker | RecoveredMarker | Other

  /** One ledger row; subject is the ticket or approval it is about, or empty. */
  datatype Event = Event(kind: Kind, subject: string, at: int)

  /** What became of an attempt to send; a delivered message's marker is written at some later time. */
  datatype Outcome = Delivered(at: int) | Failed

  /** CHANNEL_SEND_CAP */
  const SEND_CAP: nat := 60

  /** SELECT MAX(created_at) of the events of one kind about one subject. */
  function Latest(ledger: seq<Event>, kind: Kind, subject: string): Option<int> {
    if ledger == [] then None
    else
      var before, e := Latest(ledger[..|ledger| - 1], kind, subject), ledger[|ledger| - 1];
      if e.kind == kind && e.subject == subject && (before.None? || before.value < e.at) then Some(e.at) else before
  }

  lemma {:induction false} LatestIs(ledger: seq<Event>, kind: Kind, subject: string)
    ensures
      match Latest(ledger, kind, subject)
      case None => forall i :: 0 <= i < |ledger| ==> !(ledger[i].kind == kind && ledger[i].subject == subject)
      case Some(m) =>
        && (exists i :: 0 <= i < |ledger| && ledger[i] == Event(kind, subject, m))
        && forall i :: 0 <= i < |ledger| && ledger[i].kind == kind && ledger[i].subject == subject ==> ledger[i].at <= m
    decreases |ledger|
  {
    if ledger != [] {
      var before := ledger[..|ledger| - 1];
      LatestIs(before, kind, subject);
      assert forall i :: 0 <= i < |before| ==> before[i] == ledger[i];
    }
  }

  lemma LatestNext(ledger: seq<Event>, e: Event, kind: Kind, subject: string)
    ensures
      var before := Latest(ledger, kind, subject);
      Latest(ledger + [e], kind, subject) ==
      if e.kind == kind && e.subject == subject && (before.None? || before.value < e.at) then Some(e.at) else before
  {
    assert (ledger + [e])[..|ledger|] == ledger;
  }

  // ----- reminders of what waits on a human

  /** A parked ticket, a review assigned to the operator, or a pending approval request. */
  datatype Item = Item(kind: Kind, subject: string)

  predicate IsReminder(kind: Kind) { kind.BlockedMarker? || kind.ReviewMarker? || kind.ApprovalMarker? }

  function Due(ledger: seq<Event>, i: Item, now: int, cadence: int): bool {
    var last := Latest(ledger, i.kind, i.subject);
    last.None? || now - last.value >= cadence
  }

  datatype Ticked = Ticked(ledger: seq<Event>, sent: nat)

  /** The first items in order, until the cap is reached; dry: a dry run sends and writes nothing. */
  function Remind(t: Ticked, items: seq<Item>, outcomes: seq<Outcome>, now: int, cadence: int, dry: bool): Ticked
    requires |items| == |outcomes|
  {
    if items == [] then t
    else
      var before := Remind(t, items[..|items| - 1], outcomes[..|items| - 1], now, cadence, dry);
      RemindOne(before, items[|items| - 1], outcomes[|items| - 1], now, cadence, dry)
  }

  function RemindOne(t: Ticked, i: Item, outcome: Outcome, now: int, cadence: int, dry: bool): Ticked {
    if t.sent >= SEND_CAP || !Due(t.ledger, i, now, cadence) then t
    else if dry then Ticked(t.ledger, t.sent + 1)
    else
      match outcome
      case Failed => t
      case Delivered(at) => Ticked(t.ledger + [Event(i.kind, i.subject, at)], t.sent + 1)
  }

  // ----- no progress

  /** A ticket reached Done at or after this moment. */
  predicate DoneSince(ledger: seq<Event>, from: int) {
    exists i :: 0 <= i < |ledger| && ledger[i].kind.Done? && ledger[i].at >= from
  }

  predicate AnyBefore(ledger: seq<Event>, t: int) {
    exists i :: 0 <= i < |ledger| && ledger[i].at < t
  }

  /** Stalled, warmed up, and not already reported: no Done in the window, some history, and a Done since the last alert. */
  predicate StallIsNew(ledger: seq<Event>, now: int, window: int) {
    && !DoneSince(ledger, now - window) && AnyBefore(ledger, now - window)
    && var last := Latest(ledger, NoProgressMarker, "");
       last.None? || DoneSince(ledger, last.value + 1)
  }

  function NoProgress(ledger: seq<Event>, now: int, window: int, outcome: Outcome): seq<Event> {
    if StallIsNew(ledger, now, window) && outcome.Delivered? then ledger + [Event(NoProgressMarker, "", outcome.at)] else ledger
  }

  // ----- fire health

  datatype Health = Degraded | Healthy | Unsampled

  /** Too small a sample is neither degraded nor healthy. */
  function Reading(fires: nat, minFires: nat, rate: Option<real>, threshold: real): Health {
    if fires < minFires || rate.None? then Unsampled else if rate.value < threshold then Degraded else Healthy
  }

  predicate EpisodeOpen(ledger: seq<Event>) {
    var notified, recovered := Latest(ledger, DegradedMarker, ""), Latest(ledger, RecoveredMarker, "");
    notified.Some? && (recovered.None? || recovered.value < notified.value)
  }

  function FireHealth(ledger: seq<Event>, health: Health, outcome: Outcome): seq<Event> {
    if outcome.Failed? then ledger
    else if health.Degraded? && !EpisodeOpen(ledger) then ledger + [Event(DegradedMarker, "", outcome.at)]
    else if health.Healthy? && EpisodeOpen(ledger) then ledger + [Event(RecoveredMarker, "", outcome.at)]
    else ledger
  }

  // ----- runs of the daemon

  /**
   Ticks one at a time, anything else logged in between with any time, restarts anywhere: nothing but the ledger
   survives from one step to the next.
   */
  datatype Step =
    | Logged(e: Event)
    | RemindTick(items: seq<Item>, outcomes: seq<Outcome>, now: int, dry: bool)
    | ProgressTick(now: int, outcome: Outcome)
    | HealthTick(health: Health, outcome: Outcome)

  datatype Config = Config(cadence: int, window: int)

  predicate IsMarker(kind: Kind) { !kind.Done? && !kind.Other? }

  predicate WellFormed(s: Step) {
    match s
    case Logged(e) => !IsMarker(e.kind)
    case RemindTick(items, outcomes, now, _) =>
      |items| == |outcomes| && forall i :: 0 <= i < |items| ==> IsReminder(items[i].kind) && AtOrAfter(outcomes[i], now)
    case ProgressTick(now, outcome) => AtOrAfter(outcome, now)
    case HealthTick(_, _) => true
  }

  /** A marker is written no earlier than its tick began. */
  predicate AtOrAfter(outcome: Outcome, now: int) { outcome.Delivered? ==> outcome.at >= now }

  function Apply(cfg: Config, ledger: seq<Event>, s: Step): seq<Event>
    requires WellFormed(s)
  {
    match s
    case Logged(e) => ledger + [e]
    case RemindTick(items, outcomes, now, dry) => Remind(Ticked(ledger, 0), items, outcomes, now, cfg.cadence, dry).ledger
    case ProgressTick(now, outcome) => NoProgress(ledger, now, cfg.window, outcome)
    case HealthTick(health, outcome) => FireHealth(ledger, health, outcome)
  }

  function Run(cfg: Config, steps: seq<Step>): seq<Event>
    requires forall i :: 0 <= i < |steps| ==> WellFormed(steps[i])
  {
    if steps == [] then [] else Apply(cfg, Run(cfg, steps[..|steps| - 1]), steps[|steps| - 1])
  }

  // ----- reminders are at least the cadence apart, and capped

  ghost predicate Spaced(ledger: seq<Event>, cadence: int) {
    forall i, j :: 0 <= i < j < |ledger| && IsReminder(ledger[i].kind) && ledger[i].kind == ledger[j].kind && ledger[i].subject == ledger[j].subject ==>
      ledger[j].at - ledger[i].at >= cadence
  }

  lemma RemindOneSpaced(t: Ticked, i: Item, outcome: Outcome, now: int, cadence: int, dry: bool)
    requires Spaced(t.ledger, cadence) && AtOrAfter(outcome, now) && t.sent <= SEND_CAP
    ensures var u := RemindOne(t, i, outcome, now, cadence, dry); Spaced(u.ledger, cadence) && t.sent <= u.sent <= SEND_CAP && t.ledger <= u.ledger
  {
    LatestIs(t.ledger, i.kind, i.subject);
  }

  lemma {:induction false} RemindSpaced(t: Ticked, items: seq<Item>, outcomes: seq<Outcome>, now: int, cadence: int, dry: bool)
    requires |items| == |outcomes| && Spaced(t.ledger, cadence) && t.sent <= SEND_CAP
    requires forall i :: 0 <= i < |outcomes| ==> AtOrAfter(outcomes[i], now)
    ensures
      var u := Remind(t, items, outcomes, now, cadence, dry);
      Spaced(u.ledger, cadence) && t.sent <= u.sent <= SEND_CAP && t.ledger <= u.ledger
    decreases |items|
  {
    if items != [] {
      RemindSpaced(t, items[..|items| - 1], outcomes[..|items| - 1], now, cadence, dry);
      RemindOneSpaced(Remind(t, items[..|items| - 1], outcomes[..|items| - 1], now, cadence, dry), items[|items| - 1], outcomes[|items| - 1], now, cadence, dry);
    }
  }

  lemma SpacedAppend(ledger: seq<Event>, e: Event, cadence: int)
    requires Spaced(ledger, cadence) && !IsReminder(e.kind)
    ensures Spaced(ledger + [e], cadence)
  {
  }

  /** Over every run: two reminders about the same thing in the same state are at least the cadence apart. */
  lemma {:induction false} RemindersAreSpaced(cfg: Config, steps: seq<Step>)
    requires forall i :: 0 <= i < |steps| ==> WellFormed(steps[i])
    ensures Spaced(Run(cfg, steps), cfg.cadence)
    decreases |steps|
  {
    if steps != [] {
      var before, last := Run(cfg, steps[..|steps| - 1]), steps[|steps| - 1];
      RemindersAreSpaced(cfg, steps[..|steps| - 1]);
      match last {
        case Logged(e) => SpacedAppend(before, e, cfg.cadence);
        case RemindTick(items, outcomes, now, dry) => RemindSpaced(Ticked(before, 0), items, outcomes, now, cfg.cadence, dry);
        case ProgressTick(now, outcome) =>
          if outcome.Delivered? { SpacedAppend(before, Event(NoProgressMarker, "", outcome.at), cfg.cadence); }
        case HealthTick(_, outcome) =>
          if outcome.Delivered? {
            SpacedAppend(before, Event(DegradedMarker, "", outcome.at), cfg.cadence);
            SpacedAppend(before, Event(RecoveredMarker, "", outcome.at), cfg.cadence);
          }
      }
    }
  }

  // ----- what a tick leaves out stays due

  /** An item is skipped only because it is not due, the cap is reached, or its send failed. */
  lemma {:induction false} DueIsSent(t: Ticked, items: seq<Item>, outcomes: seq<Outcome>, now: int, cadence: int, i: nat)
    requires |items| == |outcomes| && i < |items| && t.sent <= SEND_CAP
    requires Due(t.ledger, items[i], now, cadence) && outcomes[i].Delivered? && (forall j :: 0 <= j < i ==> items[j] != items[i])
    ensures
      var u := Remind(t, items, outcomes, now, cadence, false);
      Event(items[i].kind, items[i].subject, outcomes[i].at) in u.ledger || u.sent == SEND_CAP
    decreases |items|
  {
    var n := |items| - 1;
    var before := Remind(t, items[..n], outcomes[..n], now, cadence, false);
    SentIsCapped(t, items[..n], outcomes[..n], now, cadence, false);
    if i < n {
      DueIsSent(t, items[..n], outcomes[..n], now, cadence, i);
    } else {
      OthersStayDue(t, items[..n], outcomes[..n], now, cadence, items[i]);
    }
  }

  lemma {:induction false} SentIsCapped(t: Ticked, items: seq<Item>, outcomes: seq<Outcome>, now: int, cadence: int, dry: bool)
    requires |items| == |outcomes| && t.sent <= SEND_CAP
    ensures t.sent <= Remind(t, items, outcomes, now, cadence, dry).sent <= SEND_CAP
    decreases |items|
  {
    if items != [] { SentIsCapped(t, items[..|items| - 1], outcomes[..|items| - 1], now, cadence, dry); }
  }

  lemma {:induction false} OthersStayDue(t: Ticked, items: seq<Item>, outcomes: seq<Outcome>, now: int, cadence: int, i: Item)
    requires |items| == |outcomes| && forall j :: 0 <= j < |items| ==> items[j] != i
    ensures Latest(Remind(t, items, outcomes, now, cadence, false).ledger, i.kind, i.subject) == Latest(t.ledger, i.kind, i.subject)
    decreases |items|
  {
    if items != [] {
      var n := |items| - 1;
      OthersStayDue(t, items[..n], outcomes[..n], now, cadence, i);
      var before := Remind(t, items[..n], outcomes[..n], now, cadence, false);
      if outcomes[n].Delivered? { LatestNext(before.ledger, Event(items[n].kind, items[n].subject, outcomes[n].at), i.kind, i.subject); }
    }
  }

  // ----- exactly what a tick sends

  predicate MarkedAfter(ledger: seq<Event>, kind: Kind, subject: string, from: int) {
    exists k :: 0 <= k < |ledger| && ledger[k].kind == kind && ledger[k].subject == subject && ledger[k].at > from
  }

  /** Due means: no reminder about it in this state was marked within the last cadence. */
  lemma DueIff(ledger: seq<Event>, i: Item, now: int, cadence: int)
    ensures Due(ledger, i, now, cadence) <==> !MarkedAfter(ledger, i.kind, i.subject, now - cadence)
  {
    LatestIs(ledger, i.kind, i.subject);
  }

  /** The items, in order, that no marker of this ledger holds back and whose send would succeed. */
  function Ready(ledger: seq<Event>, items: seq<Item>, outcomes: seq<Outcome>, now: int, cadence: int, dry: bool): (ready: seq<nat>)
    requires |items| == |outcomes|
    ensures forall k :: 0 <= k < |ready| ==> ready[k] < |items| && (dry || outcomes[ready[k]].Delivered?)
  {
    if items == [] then []
    else
      var n := |items| - 1;
      Ready(ledger, items[..n], outcomes[..n], now, cadence, dry) +
      if MarkedAfter(ledger, items[n].kind, items[n].subject, now - cadence) || (!dry && outcomes[n].Failed?) then [] else [n]
  }

  function Markers(items: seq<Item>, outcomes: seq<Outcome>, sent: seq<nat>): seq<Event>
    requires |items| == |outcomes| && forall k :: 0 <= k < |sent| ==> sent[k] < |items| && outcomes[sent[k]].Delivered?
  {
    seq(|sent|, k requires 0 <= k < |sent| => Event(items[sent[k]].kind, items[sent[k]].subject, outcomes[sent[k]].at))
  }

  ghost predicate DistinctItems(items: seq<Item>) {
    forall i, j :: 0 <= i < j < |items| ==> items[i] != items[j]
  }

  /**
   One tick over different items sends the first 60 that are ready, in order, leaves exactly their markers, and a
   dry run counts them and leaves none.
   */
  lemma {:induction false} TickSends(ledger: seq<Event>, items: seq<Item>, outcomes: seq<Outcome>, now: int, cadence: int, dry: bool)
    requires |items| == |outcomes| && DistinctItems(items)
    ensures
      var ready := Ready(ledger, items, outcomes, now, cadence, dry);
      var first := FirstOf(ready);
      Remind(Ticked(ledger, 0), items, outcomes, now, cadence, dry) == Ticked(if dry then ledger else ledger + Markers(items, outcomes, first), |first|)
    decreases |items|
  {
    if items == [] {
      assert ledger + [] == ledger;
    } else {
      var n := |items| - 1;
      assert forall i :: 0 <= i < n ==> items[..n][i] == items[i] && outcomes[..n][i] == outcomes[i];
      TickSends(ledger, items[..n], outcomes[..n], now, cadence, dry);
      TickStep(ledger, items, outcomes, now, cadence, dry);
    }
  }

  lemma TickStep(ledger: seq<Event>, items: seq<Item>, outcomes: seq<Outcome>, now: int, cadence: int, dry: bool)
    requires |items| == |outcomes| && items != [] && DistinctItems(items)
    requires
      var n := |items| - 1;
      var ready := Ready(ledger, items[..n], outcomes[..n], now, cadence, dry);
      var first := FirstOf(ready);
      Remind(Ticked(ledger, 0), items[..n], outcomes[..n], now, cadence, dry) ==
      Ticked(if dry then ledger else ledger + Markers(items[..n], outcomes[..n], first), |first|)
    ensures
      var ready := Ready(ledger, items, outcomes, now, cadence, dry);
      var first := FirstOf(ready);
      Remind(Ticked(ledger, 0), items, outcomes, now, cadence, dry) == Ticked(if dry then ledger else ledger + Markers(items, outcomes, first), |first|)
  {
    hide MarkedAfter, Due, Ready, Remind, Markers;
    var n := |items| - 1;
    var listed := Ready(ledger, items[..n], outcomes[..n], now, cadence, dry);
    var was := FirstOf(listed);
    var ready := Ready(ledger, items, outcomes, now, cadence, dry);
    var before := Remind(Ticked(ledger, 0), items[..n], outcomes[..n], now, cadence, dry);
    var takes := Due(before.ledger, items[n], now, cadence) && (dry || outcomes[n].Delivered?);
    StillDue(ledger, items, outcomes, now, cadence, dry);
    DueIff(ledger, items[n], now, cadence);
    LastReady(ledger, items, outcomes, now, cadence, dry);
    LastReminded(Ticked(ledger, 0), items, outcomes, now, cadence, dry);
    FirstNext(listed, n);
    if !dry { SameMarkers(items, outcomes, was); }
    if takes && |listed| < 60 && !dry { MarkersNext(items, outcomes, was, n); }
  }

  function FirstOf(ready: seq<nat>): seq<nat> { if |ready| <= 60 then ready else ready[..60] }

  lemma FirstNext(listed: seq<nat>, n: nat)
    ensures FirstOf(listed + [n]) == if |listed| < 60 then FirstOf(listed) + [n] else FirstOf(listed)
    ensures listed + [] == listed
  {
  }

  lemma LastReady(ledger: seq<Event>, items: seq<Item>, outcomes: seq<Outcome>, now: int, cadence: int, dry: bool)
    requires |items| == |outcomes| && items != []
    ensures
      var n := |items| - 1;
      Ready(ledger, items, outcomes, now, cadence, dry) ==
      Ready(ledger, items[..n], outcomes[..n], now, cadence, dry) +
      if MarkedAfter(ledger, items[n].kind, items[n].subject, now - cadence) || (!dry && outcomes[n].Failed?) then [] else [n]
  {
  }

  lemma LastReminded(t: Ticked, items: seq<Item>, outcomes: seq<Outcome>, now: int, cadence: int, dry: bool)
    requires |items| == |outcomes| && items != []
    ensures
      var n := |items| - 1;
      Remind(t, items, outcomes, now, cadence, dry) ==
      RemindOne(Remind(t, items[..n], outcomes[..n], now, cadence, dry), items[n], outcomes[n], now, cadence, dry)
  {
  }

  lemma SameMarkers(items: seq<Item>, outcomes: seq<Outcome>, sent: seq<nat>)
    requires |items| == |outcomes| && items != [] && forall k :: 0 <= k < |sent| ==> sent[k] < |items| - 1 && outcomes[..|items| - 1][sent[k]].Delivered?
    ensures forall k :: 0 <= k < |sent| ==> outcomes[sent[k]].Delivered?
    ensures Markers(items[..|items| - 1], outcomes[..|items| - 1], sent) == Markers(items, outcomes, sent)
  {
  }

  lemma MarkersNext(items: seq<Item>, outcomes: seq<Outcome>, sent: seq<nat>, n: nat)
    requires |items| == |outcomes| && n < |items| && outcomes[n].Delivered?
    requires forall k :: 0 <= k < |sent| ==> sent[k] < |items| && outcomes[sent[k]].Delivered?
    ensures Markers(items, outcomes, sent + [n]) == Markers(items, outcomes, sent) + [Event(items[n].kind, items[n].subject, outcomes[n].at)]
    ensures forall ledger: seq<Event> :: ledger + Markers(items, outcomes, sent + [n]) == (ledger + Markers(items, outcomes, sent)) + [Event(items[n].kind, items[n].subject, outcomes[n].at)]
  {
  }

  lemma StillDue(ledger: seq<Event>, items: seq<Item>, outcomes: seq<Outcome>, now: int, cadence: int, dry: bool)
    requires |items| == |outcomes| && items != [] && DistinctItems(items)
    ensures
      var n := |items| - 1;
      Due(Remind(Ticked(ledger, 0), items[..n], outcomes[..n], now, cadence, dry).ledger, items[n], now, cadence) <==> Due(ledger, items[n], now, cadence)
  {
    var n := |items| - 1;
    if dry {
      DryWritesNothing(Ticked(ledger, 0), items[..n], outcomes[..n], now, cadence);
    } else {
      assert forall j :: 0 <= j < n ==> items[..n][j] != items[n];
      OthersStayDue(Ticked(ledger, 0), items[..n], outcomes[..n], now, cadence, items[n]);
    }
  }

  lemma {:induction false} DryWritesNothing(t: Ticked, items: seq<Item>, outcomes: seq<Outcome>, now: int, cadence: int)
    requires |items| == |outcomes|
    ensures Remind(t, items, outcomes, now, cadence, true).ledger == t.ledger
    decreases |items|
  {
    if items != [] { DryWritesNothing(t, items[..|items| - 1], outcomes[..|items| - 1], now, cadence); }
  }

  predicate IsDone(e: Event) { e.kind == Done }

  /** No ticket reached Done since then, the loop is older than that, and one did after the last alert, if there was any. */
  ghost predicate Stalled(ledger: seq<Event>, since: int) {
    && (forall k :: 0 <= k < |ledger| && IsDone(ledger[k]) ==> ledger[k].at < since)
    && (exists k :: 0 <= k < |ledger| && ledger[k].at < since)
    && ((exists k :: 0 <= k < |ledger| && IsAlert(ledger[k])) ==>
          exists d :: 0 <= d < |ledger| && IsDone(ledger[d]) && forall k :: 0 <= k < |ledger| && IsAlert(ledger[k]) ==> ledger[k].at < ledger[d].at)
  }

  predicate IsAlert(e: Event) { e.kind == NoProgressMarker && e.subject == "" }

  lemma StalledIff(ledger: seq<Event>, now: int, window: int)
    ensures StallIsNew(ledger, now, window) <==> Stalled(ledger, now - window)
  {
    LatestIs(ledger, NoProgressMarker, "");
    var last := Latest(ledger, NoProgressMarker, "");
    if last.Some? {
      if d :| 0 <= d < |ledger| && IsDone(ledger[d]) && forall k :: 0 <= k < |ledger| && IsAlert(ledger[k]) ==> ledger[k].at < ledger[d].at {
        var k :| 0 <= k < |ledger| && ledger[k] == Event(NoProgressMarker, "", last.value);
        assert IsAlert(ledger[k]) && ledger[d].at >= last.value + 1;
      }
      if DoneSince(ledger, last.value + 1) {
        var d :| 0 <= d < |ledger| && ledger[d].kind.Done? && ledger[d].at >= last.value + 1;
        assert IsDone(ledger[d]);
      }
    } else {
      assert forall k :: 0 <= k < |ledger| ==> !IsAlert(ledger[k]);
    }
    assert forall k :: 0 <= k < |ledger| ==> (ledger[k].kind.Done? <==> IsDone(ledger[k]));
  }

  /** An alert of degraded health that no recovery came after. */
  ghost predicate Unrecovered(ledger: seq<Event>) {
    exists a :: 0 <= a < |ledger| && IsDegraded(ledger[a]) && forall r :: 0 <= r < |ledger| && IsRecovered(ledger[r]) ==> ledger[r].at < ledger[a].at
  }

  predicate IsDegraded(e: Event) { e.kind == DegradedMarker && e.subject == "" }
  predicate IsRecovered(e: Event) { e.kind == RecoveredMarker && e.subject == "" }

  lemma UnrecoveredIff(ledger: seq<Event>)
    ensures EpisodeOpen(ledger) <==> Unrecovered(ledger)
  {
    LatestIs(ledger, DegradedMarker, "");
    LatestIs(ledger, RecoveredMarker, "");
    var notified, recovered := Latest(ledger, DegradedMarker, ""), Latest(ledger, RecoveredMarker, "");
    if EpisodeOpen(ledger) {
      var a :| 0 <= a < |ledger| && ledger[a] == Event(DegradedMarker, "", notified.value);
      assert IsDegraded(ledger[a]);
    }
    if Unrecovered(ledger) {
      var a :| 0 <= a < |ledger| && IsDegraded(ledger[a]) && forall r :: 0 <= r < |ledger| && IsRecovered(ledger[r]) ==> ledger[r].at < ledger[a].at;
      if recovered.Some? {
        var r :| 0 <= r < |ledger| && ledger[r] == Event(RecoveredMarker, "", recovered.value);
        assert IsRecovered(ledger[r]);
      }
    }
  }

  // ----- one no-progress alert per stall

  /** An alert: the ledger it was decided on, when, and the time of its marker. */
  datatype Alert = Alert(seen: seq<Event>, decided: int, marked: int)

  function Alerts(cfg: Config, steps: seq<Step>): seq<Alert>
    requires forall i :: 0 <= i < |steps| ==> WellFormed(steps[i])
  {
    if steps == [] then []
    else
      var before, last := Alerts(cfg, steps[..|steps| - 1]), steps[|steps| - 1];
      var ledger := Run(cfg, steps[..|steps| - 1]);
      if last.ProgressTick? && last.outcome.Delivered? && StallIsNew(ledger, last.now, cfg.window) then
        before + [Alert(ledger, last.now, last.outcome.at)]
      else before
  }

  lemma {:induction false} RemindGrows(t: Ticked, items: seq<Item>, outcomes: seq<Outcome>, now: int, cadence: int, dry: bool)
    requires |items| == |outcomes|
    ensures t.ledger <= Remind(t, items, outcomes, now, cadence, dry).ledger
    decreases |items|
  {
    if items != [] { RemindGrows(t, items[..|items| - 1], outcomes[..|items| - 1], now, cadence, dry); }
  }

  lemma LedgerGrows(cfg: Config, ledger: seq<Event>, s: Step)
    requires WellFormed(s)
    ensures ledger <= Apply(cfg, ledger, s)
  {
    if s.RemindTick? { RemindGrows(Ticked(ledger, 0), s.items, s.outcomes, s.now, cfg.cadence, s.dry); }
  }

  /** Every alert decided before another is a marker in the ledger the later one was decided on. */
  lemma {:induction false} AlertsAreMarked(cfg: Config, steps: seq<Step>)
    requires forall i :: 0 <= i < |steps| ==> WellFormed(steps[i])
    ensures forall i :: 0 <= i < |Alerts(cfg, steps)| ==> Event(NoProgressMarker, "", Alerts(cfg, steps)[i].marked) in Run(cfg, steps)
    ensures forall j :: 0 <= j < |Alerts(cfg, steps)| ==>
              && Alerts(cfg, steps)[j].seen <= Run(cfg, steps)
              && StallIsNew(Alerts(cfg, steps)[j].seen, Alerts(cfg, steps)[j].decided, cfg.window)
              && Alerts(cfg, steps)[j].marked >= Alerts(cfg, steps)[j].decided
    ensures forall i, j :: 0 <= i < j < |Alerts(cfg, steps)| ==> Event(NoProgressMarker, "", Alerts(cfg, steps)[i].marked) in Alerts(cfg, steps)[j].seen
    decreases |steps|
  {
    hide StallIsNew, Latest, Remind;
    if steps != [] {
      var before, last := steps[..|steps| - 1], steps[|steps| - 1];
      AlertsAreMarked(cfg, before);
      LedgerGrows(cfg, Run(cfg, before), last);
      assert Run(cfg, before) <= Run(cfg, steps);
    }
  }

  /** The times of the no-progress markers, in order. */
  function AlertTimes(ledger: seq<Event>): seq<int> {
    if ledger == [] then [] else AlertTimes(ledger[..|ledger| - 1]) + if IsAlert(ledger[|ledger| - 1]) then [ledger[|ledger| - 1].at] else []
  }

  lemma AlertTimesNext(ledger: seq<Event>, e: Event)
    ensures AlertTimes(ledger + [e]) == if IsAlert(e) then AlertTimes(ledger) + [e.at] else AlertTimes(ledger)
  {
    assert (ledger + [e])[..|ledger|] == ledger;
  }

  lemma RemindOneKeepsAlerts(t: Ticked, i: Item, outcome: Outcome, now: int, cadence: int, dry: bool)
    requires IsReminder(i.kind)
    ensures AlertTimes(RemindOne(t, i, outcome, now, cadence, dry).ledger) == AlertTimes(t.ledger)
  {
    hide AlertTimes, Due;
    if outcome.Delivered? { AlertTimesNext(t.ledger, Event(i.kind, i.subject, outcome.at)); }
  }

  lemma {:induction false} RemindKeepsAlerts(t: Ticked, items: seq<Item>, outcomes: seq<Outcome>, now: int, cadence: int, dry: bool)
    requires |items| == |outcomes| && forall i :: 0 <= i < |items| ==> IsReminder(items[i].kind)
    ensures AlertTimes(Remind(t, items, outcomes, now, cadence, dry).ledger) == AlertTimes(t.ledger)
    decreases |items|
  {
    hide AlertTimes, RemindOne, IsReminder;
    if items != [] {
      var n := |items| - 1;
      assert forall i :: 0 <= i < n ==> items[..n][i] == items[i];
      RemindKeepsAlerts(t, items[..n], outcomes[..n], now, cadence, dry);
      RemindOneKeepsAlerts(Remind(t, items[..n], outcomes[..n], now, cadence, dry), items[n], outcomes[n], now, cadence, dry);
    }
  }

  /** The alerts of a run are exactly its no-progress markers. */
  lemma {:induction false} AlertsAreTheMarkers(cfg: Config, steps: seq<Step>)
    requires forall i :: 0 <= i < |steps| ==> WellFormed(steps[i])
    ensures |Alerts(cfg, steps)| == |AlertTimes(Run(cfg, steps))|
    ensures forall i :: 0 <= i < |Alerts(cfg, steps)| ==> Alerts(cfg, steps)[i].marked == AlertTimes(Run(cfg, steps))[i]
    decreases |steps|
  {
    hide StallIsNew, Remind, EpisodeOpen, AlertTimes;
    if steps == [] {
      NoAlerts();
    } else {
      var before, last := Run(cfg, steps[..|steps| - 1]), steps[|steps| - 1];
      AlertsAreTheMarkers(cfg, steps[..|steps| - 1]);
      match last {
        case Logged(e) => AlertTimesNext(before, e);
        case RemindTick(items, outcomes, now, dry) => RemindKeepsAlerts(Ticked(before, 0), items, outcomes, now, cfg.cadence, dry);
        case ProgressTick(now, outcome) =>
          if outcome.Delivered? { AlertTimesNext(before, Event(NoProgressMarker, "", outcome.at)); }
        case HealthTick(health, outcome) =>
          if outcome.Delivered? {
            AlertTimesNext(before, Event(DegradedMarker, "", outcome.at));
            AlertTimesNext(before, Event(RecoveredMarker, "", outcome.at));
          }
      }
    }
  }

  lemma NoAlerts()
    ensures AlertTimes([]) == []
  {
  }

  /**
   Any two no-progress alerts of a run: between the first marker and the window before the second alert a ticket
   reached Done, in that window none did, and so the markers lie more than the window apart.
   */
  lemma AlertsAreSeparateStalls(cfg: Config, steps: seq<Step>, i: nat, j: nat)
    requires forall k :: 0 <= k < |steps| ==> WellFormed(steps[k])
    requires i < j < |Alerts(cfg, steps)|
    ensures
      var a, b := Alerts(cfg, steps)[i], Alerts(cfg, steps)[j];
      && b.seen <= Run(cfg, steps)
      && (exists k :: 0 <= k < |b.seen| && b.seen[k].kind.Done? && a.marked < b.seen[k].at < b.decided - cfg.window)
      && (forall k :: 0 <= k < |b.seen| && b.seen[k].kind.Done? ==> b.seen[k].at < b.decided - cfg.window)
      && b.marked - a.marked > cfg.window
  {
    AlertsAreMarked(cfg, steps);
    var a, b := Alerts(cfg, steps)[i], Alerts(cfg, steps)[j];
    LatestIs(b.seen, NoProgressMarker, "");
    var last := Latest(b.seen, NoProgressMarker, "");
    var k :| 0 <= k < |b.seen| && b.seen[k].kind.Done? && b.seen[k].at >= last.value + 1;
    assert a.marked < b.seen[k].at < b.decided - cfg.window;
  }

  // ----- fire-health alerts and recoveries alternate

  predicate IsSignal(e: Event) { e.subject == "" && (e.kind.DegradedMarker? || e.kind.RecoveredMarker?) }

  /** The health messages in order: true for an alert, false for a recovery. */
  function Signals(ledger: seq<Event>): seq<bool> {
    if ledger == [] then []
    else Signals(ledger[..|ledger| - 1]) + if IsSignal(ledger[|ledger| - 1]) then [ledger[|ledger| - 1].kind.DegradedMarker?] else []
  }

  lemma SignalsNext(ledger: seq<Event>, e: Event)
    ensures Signals(ledger + [e]) == if IsSignal(e) then Signals(ledger) + [e.kind.DegradedMarker?] else Signals(ledger)
  {
    assert (ledger + [e])[..|ledger|] == ledger;
  }

  ghost predicate Alternates(signals: seq<bool>) {
    forall i :: 0 <= i < |signals| ==> (signals[i] <==> i % 2 == 0)
  }

  /** Health markers never go back in time; strictly: they never share a time either. */
  ghost predicate InTime(ledger: seq<Event>) {
    forall i, j :: 0 <= i < j < |ledger| && IsSignal(ledger[i]) && IsSignal(ledger[j]) ==> ledger[i].at <= ledger[j].at
  }

  ghost predicate Rising(ledger: seq<Event>) {
    forall i, j :: 0 <= i < j < |ledger| && IsSignal(ledger[i]) && IsSignal(ledger[j]) ==> ledger[i].at < ledger[j].at
  }

  /** The last health message, if any. */
  function LastSignal(ledger: seq<Event>): Option<Event> {
    if ledger == [] then None
    else if IsSignal(ledger[|ledger| - 1]) then Some(ledger[|ledger| - 1])
    else LastSignal(ledger[..|ledger| - 1])
  }

  lemma {:induction false} LastSignalIs(ledger: seq<Event>)
    requires InTime(ledger)
    ensures
      match LastSignal(ledger)
      case None => Signals(ledger) == [] && forall i :: 0 <= i < |ledger| ==> !IsSignal(ledger[i])
      case Some(e) =>
        && e in ledger && IsSignal(e) && Signals(ledger) != [] && Signals(ledger)[|Signals(ledger)| - 1] == e.kind.DegradedMarker?
        && forall i :: 0 <= i < |ledger| && IsSignal(ledger[i]) ==> ledger[i].at <= e.at
    decreases |ledger|
  {
    if ledger != [] {
      var before := ledger[..|ledger| - 1];
      assert forall i :: 0 <= i < |before| ==> before[i] == ledger[i];
      LastSignalIs(before);
    }
  }

  /**
   When an episode is taken to be open: exactly when the last message was an alert and no recovery carries its
   time.  With equal times an announced episode reads as closed.
   */
  lemma EpisodeReadExactly(ledger: seq<Event>)
    requires InTime(ledger)
    ensures
      EpisodeOpen(ledger) <==>
      && LastSignal(ledger).Some? && LastSignal(ledger).value.kind.DegradedMarker?
      && Event(RecoveredMarker, "", LastSignal(ledger).value.at) !in ledger
  {
    LastSignalIs(ledger);
    LatestIs(ledger, DegradedMarker, "");
    LatestIs(ledger, RecoveredMarker, "");
    var notified, recovered := Latest(ledger, DegradedMarker, ""), Latest(ledger, RecoveredMarker, "");
    match LastSignal(ledger) {
      case None => NoSignals(ledger, notified, recovered);
      case Some(e) => if e.kind.RecoveredMarker? { LastIsRecovered(ledger, e, notified, recovered); }
    }
  }

  lemma NoSignals(ledger: seq<Event>, notified: Option<int>, recovered: Option<int>)
    requires forall i :: 0 <= i < |ledger| ==> !IsSignal(ledger[i])
    requires notified.Some? ==> exists i :: 0 <= i < |ledger| && ledger[i] == Event(DegradedMarker, "", notified.value)
    ensures notified.None?
  {
  }

  lemma LastIsRecovered(ledger: seq<Event>, e: Event, notified: Option<int>, recovered: Option<int>)
    requires e in ledger && e.kind.RecoveredMarker? && IsSignal(e)
    requires forall i :: 0 <= i < |ledger| && IsSignal(ledger[i]) ==> ledger[i].at <= e.at
    requires notified.Some? ==> exists i :: 0 <= i < |ledger| && ledger[i] == Event(DegradedMarker, "", notified.value)
    requires recovered.Some? ==> forall i :: 0 <= i < |ledger| && ledger[i].kind.RecoveredMarker? && ledger[i].subject == "" ==> ledger[i].at <= recovered.value
    requires recovered.None? ==> forall i :: 0 <= i < |ledger| ==> !(ledger[i].kind.RecoveredMarker? && ledger[i].subject == "")
    ensures notified.Some? ==> recovered.Some? && recovered.value >= notified.value
  {
    var k :| 0 <= k < |ledger| && ledger[k] == e;
  }

  /** A degraded reading repeats the alert of an episode already announced iff a recovery carries the alert's time. */
  lemma AlertRepeatsIff(ledger: seq<Event>, at: int)
    requires InTime(ledger) && LastSignal(ledger).Some? && LastSignal(ledger).value.kind.DegradedMarker?
    ensures FireHealth(ledger, Degraded, Delivered(at)) != ledger <==> Event(RecoveredMarker, "", LastSignal(ledger).value.at) in ledger
  {
    EpisodeReadExactly(ledger);
  }

  /**
   Four ticks of one daemon: an alert at 3, a recovery at 5, an alert at 5 again, and a further degraded reading of
   that same episode, which is alerted once more.
   */
  lemma AlertIsRepeated(cfg: Config, steps: seq<Step>)
    requires steps == [] + [HealthTick(Degraded, Delivered(3))] + [HealthTick(Healthy, Delivered(5))] + [HealthTick(Degraded, Delivered(5))] + [HealthTick(Degraded, Delivered(6))]
    ensures Signals(Run(cfg, steps)) == [true, false, true, true]
  {
    hide Run, EpisodeOpen, Signals;
    var a, r, b, c := Event(DegradedMarker, "", 3), Event(RecoveredMarker, "", 5), Event(DegradedMarker, "", 5), Event(DegradedMarker, "", 6);
    var s1 := [] + [HealthTick(Degraded, Delivered(3))];
    var s2 := s1 + [HealthTick(Healthy, Delivered(5))];
    var s3 := s2 + [HealthTick(Degraded, Delivered(5))];
    RunNext(cfg, [], HealthTick(Degraded, Delivered(3)));
    ReadAfter([]);
    assert Run(cfg, s1) == [] + [a] == [a];
    RunNext(cfg, s1, HealthTick(Healthy, Delivered(5)));
    ReadAfter([a]);
    assert Run(cfg, s2) == [a] + [r] == [a, r];
    RunNext(cfg, s2, HealthTick(Degraded, Delivered(5)));
    ReadAfter([a, r]);
    assert Run(cfg, s3) == [a, r] + [b] == [a, r, b];
    RunNext(cfg, s3, HealthTick(Degraded, Delivered(6)));
    ReadAfter([a, r, b]);
    assert Run(cfg, steps) == [a, r, b] + [c];
    RepeatedSignals(a, r, b, c);
  }

  lemma RepeatedSignals(a: Event, r: Event, b: Event, c: Event)
    requires IsSignal(a) && IsSignal(r) && IsSignal(b) && IsSignal(c)
    requires a.kind.DegradedMarker? && r.kind.RecoveredMarker? && b.kind.DegradedMarker? && c.kind.DegradedMarker?
    ensures Signals([a, r, b] + [c]) == [true, false, true, true]
  {
    assert [] + [a] == [a] && [a] + [r] == [a, r] && [a, r] + [b] == [a, r, b];
    SignalsNext([], a);
    SignalsNext([a], r);
    SignalsNext([a, r], b);
    SignalsNext([a, r, b], c);
  }

  lemma RunNext(cfg: Config, steps: seq<Step>, last: Step)
    requires (forall i :: 0 <= i < |steps| ==> WellFormed(steps[i])) && WellFormed(last)
    ensures forall i :: 0 <= i < |steps + [last]| ==> WellFormed((steps + [last])[i])
    ensures Run(cfg, steps + [last]) == Apply(cfg, Run(cfg, steps), last) && Run(cfg, []) == []
  {
    assert (steps + [last])[..|steps|] == steps;
  }

  /** How a ledger of at most three health markers is read. */
  lemma ReadAfter(ledger: seq<Event>)
    requires |ledger| <= 3 && forall i :: 0 <= i < |ledger| ==> IsSignal(ledger[i])
    ensures ledger == [] ==> !EpisodeOpen(ledger)
    ensures |ledger| == 1 && ledger[0].kind.DegradedMarker? ==> EpisodeOpen(ledger)
    ensures |ledger| == 2 && ledger[0].kind.DegradedMarker? && ledger[1].kind.RecoveredMarker? && ledger[0].at < ledger[1].at ==> !EpisodeOpen(ledger)
    ensures |ledger| == 3 && ledger[1].kind.RecoveredMarker? && ledger[0].at < ledger[1].at == ledger[2].at ==> !EpisodeOpen(ledger)
  {
    LatestIs(ledger, DegradedMarker, "");
    LatestIs(ledger, RecoveredMarker, "");
  }

  lemma RisingHasNoTie(ledger: seq<Event>)
    requires Rising(ledger) && LastSignal(ledger).Some? && LastSignal(ledger).value.kind.DegradedMarker?
    ensures Event(RecoveredMarker, "", LastSignal(ledger).value.at) !in ledger
  {
    LastSignalIs(ledger);
  }

  lemma RemindOneKeepsSignals(t: Ticked, i: Item, outcome: Outcome, now: int, cadence: int, dry: bool)
    requires IsReminder(i.kind)
    ensures Signals(RemindOne(t, i, outcome, now, cadence, dry).ledger) == Signals(t.ledger)
  {
    hide Signals, Due;
    if outcome.Delivered? { SignalsNext(t.ledger, Event(i.kind, i.subject, outcome.at)); }
  }

  lemma {:induction false} RemindKeepsSignals(t: Ticked, items: seq<Item>, outcomes: seq<Outcome>, now: int, cadence: int, dry: bool)
    requires |items| == |outcomes| && forall i :: 0 <= i < |items| ==> IsReminder(items[i].kind)
    ensures Signals(Remind(t, items, outcomes, now, cadence, dry).ledger) == Signals(t.ledger)
    decreases |items|
  {
    hide Signals, RemindOne, IsReminder;
    if items != [] {
      var n := |items| - 1;
      assert forall i :: 0 <= i < n ==> items[..n][i] == items[i];
      RemindKeepsSignals(t, items[..n], outcomes[..n], now, cadence, dry);
      RemindOneKeepsSignals(Remind(t, items[..n], outcomes[..n], now, cadence, dry), items[n], outcomes[n], now, cadence, dry);
    }
  }

  /**
   Over every run whose health markers have increasing times, restarts anywhere: alerts and recoveries strictly
   alternate, starting with an alert.
   */
  lemma {:induction false} HealthAlternates(cfg: Config, steps: seq<Step>)
    requires forall i :: 0 <= i < |steps| ==> WellFormed(steps[i])
    requires Rising(Run(cfg, steps))
    ensures Alternates(Signals(Run(cfg, steps)))
    decreases |steps|
  {
    hide Remind, EpisodeOpen, Latest, StallIsNew;
    if steps != [] {
      var before, last := Run(cfg, steps[..|steps| - 1]), steps[|steps| - 1];
      LedgerGrows(cfg, before, last);
      PrefixRises(before, Run(cfg, steps));
      HealthAlternates(cfg, steps[..|steps| - 1]);
      match last {
        case Logged(e) => SignalsNext(before, e);
        case RemindTick(items, outcomes, now, dry) => RemindKeepsSignals(Ticked(before, 0), items, outcomes, now, cfg.cadence, dry);
        case ProgressTick(now, outcome) =>
          if outcome.Delivered? { SignalsNext(before, Event(NoProgressMarker, "", outcome.at)); }
        case HealthTick(health, outcome) => HealthStep(before, health, outcome);
      }
    }
  }

  lemma PrefixRises(a: seq<Event>, b: seq<Event>)
    requires a <= b && Rising(b)
    ensures Rising(a) && InTime(a)
  {
    assert forall i :: 0 <= i < |a| ==> a[i] == b[i];
  }

  lemma HealthStep(ledger: seq<Event>, health: Health, outcome: Outcome)
    requires Rising(ledger) && InTime(ledger) && Alternates(Signals(ledger))
    ensures Alternates(Signals(FireHealth(ledger, health, outcome)))
  {
    hide EpisodeOpen, LastSignal, Signals, InTime, Rising;
    EpisodeReadExactly(ledger);
    LastSignalIs(ledger);
    if LastSignal(ledger).Some? && LastSignal(ledger).value.kind.DegradedMarker? { RisingHasNoTie(ledger); }
    if outcome.Delivered? {
      SignalsNext(ledger, Event(DegradedMarker, "", outcome.at));
      SignalsNext(ledger, Event(RecoveredMarker, "", outcome.at));
    }
  }

  // ----- the ticks as the daemon runs them

  class Daemon {
    var ledger: seq<Event>

    constructor (ledger: seq<Event>)
      ensures this.ledger == ledger
    {
      this.ledger := ledger;
    }

    /** At most SEND_CAP sends in one tick, in order; each real one leaves a marker. */
    method BlockedNotifyTick(items: seq<Item>, outcomes: seq<Outcome>, now: int, cadence: int, dry: bool) returns (sent: nat)
      requires |items| == |outcomes|
      modifies this
      ensures Ticked(ledger, sent) == Remind(Ticked(old(ledger), 0), items, outcomes, now, cadence, dry)
      ensures sent <= SEND_CAP && (dry ==> ledger == old(ledger))
      ensures
        DistinctItems(items) ==>
          var ready := Ready(old(ledger), items, outcomes, now, cadence, dry);
          && sent == (if |ready| <= 60 then |ready| else 60)
          && ledger == if dry then old(ledger) else old(ledger) + Markers(items, outcomes, ready[..sent])
    {
      sent := 0;
      for i := 0 to |items|
        invariant Ticked(ledger, sent) == Remind(Ticked(old(ledger), 0), items[..i], outcomes[..i], now, cadence, dry)
        invariant sent <= SEND_CAP && (dry ==> ledger == old(ledger))
      {
        ghost var before := Ticked(ledger, sent);
        RemindNext(Ticked(old(ledger), 0), items, outcomes, now, cadence, dry, i);
        if sent < SEND_CAP {
          var last := Latest(ledger, items[i].kind, items[i].subject);
          var due := last.None? || now - last.value >= cadence;
          if due {
            if dry {
              sent := sent + 1;
            } else if outcomes[i].Delivered? {
              ledger := ledger + [Event(items[i].kind, items[i].subject, outcomes[i].at)];
              sent := sent + 1;
            }
          }
        }
      }
      assert items[..|items|] == items && outcomes[..|items|] == outcomes;
      if DistinctItems(items) {
        TickSends(old(ledger), items, outcomes, now, cadence, dry);
        assert ledger + [] == ledger && forall xs: seq<nat> :: xs[..|xs|] == xs;
      }
    }

    method NoProgressNotifyTick(now: int, window: int, outcome: Outcome, dry: bool) returns (sent: nat)
      modifies this
      ensures ledger == if dry then old(ledger) else NoProgress(old(ledger), now, window, outcome)
      ensures sent == if Stalled(old(ledger), now - window) && (dry || outcome.Delivered?) then 1 else 0
      ensures ledger == if sent == 1 && !dry then old(ledger) + [Event(NoProgressMarker, "", outcome.at)] else old(ledger)
    {
      sent := 0;
      StalledIff(ledger, now, window);
      var since := now - window;
      if DoneSince(ledger, since) { return; }
      if !AnyBefore(ledger, since) { return; }
      var last := Latest(ledger, NoProgressMarker, "");
      if last.Some? {
        if !DoneSince(ledger, last.value + 1) { return; }
      }
      if dry { return 1; }
      if outcome.Delivered? {
        ledger := ledger + [Event(NoProgressMarker, "", outcome.at)];
        sent := 1;
      }
    }

    method FireHealthNotifyTick(fires: nat, minFires: nat, rate: Option<real>, threshold: real, outcome: Outcome, dry: bool) returns (sent: nat)
      modifies this
      ensures ledger == if dry then old(ledger) else FireHealth(old(ledger), Reading(fires, minFires, rate, threshold), outcome)
      ensures
        var sampled := fires >= minFires && rate.Some?;
        var alerts := sampled && rate.value < threshold && !Unrecovered(old(ledger));
        var recovers := sampled && rate.value >= threshold && Unrecovered(old(ledger));
        && sent == (if (alerts || recovers) && (dry || outcome.Delivered?) then 1 else 0)
        && ledger == if sent == 0 || dry then old(ledger) else old(ledger) + [Event(if alerts then DegradedMarker else RecoveredMarker, "", outcome.at)]
    {
      sent := 0;
      UnrecoveredIff(ledger);
      var health := Reading(fires, minFires, rate, threshold);
      var notified, recovered := Latest(ledger, DegradedMarker, ""), Latest(ledger, RecoveredMarker, "");
      var open := notified.Some? && (recovered.None? || recovered.value < notified.value);
      if health.Degraded? && !open {
        if dry { return 1; }
        if outcome.Delivered? {
          ledger := ledger + [Event(DegradedMarker, "", outcome.at)];
          return 1;
        }
        return 0;
      }
      if health.Healthy? && open {
        if dry { return 1; }
        if outcome.Delivered? {
          ledger := ledger + [Event(RecoveredMarker, "", outcome.at)];
          return 1;
        }
      }
    }
  }

  lemma RemindNext(t: Ticked, items: seq<Item>, outcomes: seq<Outcome>, now: int, cadence: int, dry: bool, i: nat)
    requires i < |items| == |outcomes|
    ensures Remind(t, items[..i + 1], outcomes[..i + 1], now, cadence, dry) ==
            RemindOne(Remind(t, items[..i], outcomes[..i], now, cadence, dry), items[i], outcomes[i], now, cadence, dry)
  {
    assert items[..i + 1][..i] == items[..i] && outcomes[..i + 1][..i] == outcomes[..i];
  }
}
