/**
 Approval records and their ledger: what each writer does to the table and the events, the state derived from a
 row, and the two read surfaces, the consult and the coverage query.
 */
module Approvals {

  import opened ActionKeys
  import opened Options
  import opened Texts

  datatype Row = Row(
    id: string, project: Option<string>, key: string, requestedAt: Option<int>,
    grantedAt: Option<int>, expiresAt: Option<int>, revokedAt: Option<int>, dischargedAt: Option<int>)

  datatype State = Requested | Granted | Revoked | Discharged | Expired

  datatype Event =
    | RequestEvent(id: string, key: string)
    | GrantEvent(id: string, key: string, expiresAt: Option<int>, fromRequest: bool)
    | RevokeEvent(id: string, prior: State)
    | DischargeEvent(id: string)
    | AttemptEvent(asked: string, matched: Option<string>, state: Option<State>, authorises: bool)

  /** The approvals table, in rowid order, and the events about approvals, in order. */
  datatype Store = Store(rows: seq<Row>, events: seq<Event>)

  datatype Error = BadKey(code: Code) | BadExpiryGiven | AmbiguousGrant | NotFound | NotGrantable | NotRevocable | NotDischargeable

  datatype Result = Done(store: Store) | Refused(error: Error)

  /** Precedence is total, whatever a row holds. */
  function DeriveState(r: Row, now: int): State {
    if r.revokedAt.Some? then Revoked
    else if r.dischargedAt.Some? then Discharged
    else if r.grantedAt.None? then Requested
    else if r.expiresAt.Some? && now >= r.expiresAt.value then Expired
    else Granted
  }

  // ----- writers

  function Find(rows: seq<Row>, id: string): (i: nat)
    ensures i <= |rows| && (i < |rows| ==> rows[i].id == id)
    ensures i == |rows| ==> forall j :: 0 <= j < |rows| ==> rows[j].id != id
  {
    if rows == [] || rows[0].id == id then 0
    else
      var i := Find(rows[1..], id);
      assert rows == [rows[0]] + rows[1..];
      i + 1
  }

  function Put(s: Store, i: nat, r: Row, e: Event): Result
    requires i < |s.rows|
  {
    Done(Store(s.rows[i := r], s.events + [e]))
  }

  function Add(s: Store, r: Row, e: Event): Result {
    Done(Store(s.rows + [r], s.events + [e]))
  }

  function Request(s: Store, id: string, project: Option<string>, key: string, at: int): Result {
    match ParseKey(key)
    case Illegal(code) => Refused(BadKey(code))
    case Legal(p) => Add(s, Row(id, project, p.key, Some(at), None, None, None, None), RequestEvent(id, p.key))
  }

  /** Granting a standing request; alsoKey: a key was passed as well. */
  function GrantRequest(s: Store, id: string, alsoKey: bool, expires: Option<string>, at: int): Result {
    var i := Find(s.rows, id);
    if alsoKey then Refused(AmbiguousGrant)
    else if i == |s.rows| then Refused(NotFound)
    else
      var r := s.rows[i];
      if DeriveState(r, at) != Requested then Refused(NotGrantable)
      else
        match ParseKey(r.key)
        case Illegal(code) => Refused(BadKey(code))
        case Legal(p) =>
          match ResolveExpiry(expires, at)
          case BadExpiry => Refused(BadExpiryGiven)
          case At(time) => Put(s, i, r.(grantedAt := Some(at), expiresAt := time), GrantEvent(id, p.key, time, true))
  }

  function GrantNew(s: Store, id: string, project: Option<string>, key: string, expires: Option<string>, at: int): Result {
    match ParseKey(key)
    case Illegal(code) => Refused(BadKey(code))
    case Legal(p) =>
      match ResolveExpiry(expires, at)
      case BadExpiry => Refused(BadExpiryGiven)
      case At(time) => Add(s, Row(id, project, p.key, None, Some(at), time, None, None), GrantEvent(id, p.key, time, false))
  }

  function Revoke(s: Store, id: string, at: int): Result {
    var i := Find(s.rows, id);
    if i == |s.rows| then Refused(NotFound)
    else
      var state := DeriveState(s.rows[i], at);
      if state != Requested && state != Granted then Refused(NotRevocable)
      else Put(s, i, s.rows[i].(revokedAt := Some(at)), RevokeEvent(id, state))
  }

  function Discharge(s: Store, id: string, at: int): Result {
    var i := Find(s.rows, id);
    if i == |s.rows| then Refused(NotFound)
    else if DeriveState(s.rows[i], at) != Granted then Refused(NotDischargeable)
    else Put(s, i, s.rows[i].(dischargedAt := Some(at)), DischargeEvent(id))
  }

  // ----- the consult

  /** The consumer's project: not given, workspace (null), or named. */
  datatype Scope = Anywhere | Within(project: Option<string>)

  predicate InScope(r: Row, scope: Scope) {
    scope.Anywhere? || r.project.None? || r.project == scope.project
  }

  /** listApprovals(actionKey) narrowed to the scope, in rowid order. */
  function Candidates(rows: seq<Row>, key: string, scope: Scope): seq<Row> {
    if rows == [] then []
    else Candidates(rows[..|rows| - 1], key, scope) +
         if rows[|rows| - 1].key == key && InScope(rows[|rows| - 1], scope) then [rows[|rows| - 1]] else []
  }

  /** The last of these rows in this state. */
  function LastIn(rows: seq<Row>, state: State, now: int): Option<Row> {
    if rows == [] then None
    else if DeriveState(rows[|rows| - 1], now) == state then Some(rows[|rows| - 1])
    else LastIn(rows[..|rows| - 1], state, now)
  }

  datatype Reason = None_ | BadKeyGiven(code: Code) | NoRow | RowIs(state: State, pending: nat)

  datatype Verdict = Verdict(authorises: bool, key: string, approval: Option<Row>, state: Option<State>, reason: Reason)

  function OrElse(a: Option<Row>, b: Option<Row>): Option<Row> { if a.Some? then a else b }

  /** Expired before revoked before discharged before requested. */
  function Chosen(rows: seq<Row>, now: int): Option<Row> {
    OrElse(LastIn(rows, Expired, now), OrElse(LastIn(rows, Revoked, now), OrElse(LastIn(rows, Discharged, now), LastIn(rows, Requested, now))))
  }

  function CountIn(rows: seq<Row>, state: State, now: int): nat {
    if rows == [] then 0 else CountIn(rows[..|rows| - 1], state, now) + if DeriveState(rows[|rows| - 1], now) == state then 1 else 0
  }

  function Judge(rows: seq<Row>, key: string, now: int, scope: Scope): Verdict {
    match ParseKey(key)
    case Illegal(code) => Verdict(false, key, None, None, BadKeyGiven(code))
    case Legal(p) =>
      var candidates := Candidates(rows, p.key, scope);
      match LastIn(candidates, Granted, now)
      case Some(r) => Verdict(true, p.key, Some(r), Some(Granted), None_)
      case None =>
        match Chosen(candidates, now)
        case None => Verdict(false, p.key, None, None, NoRow)
        case Some(r) =>
          var state := DeriveState(r, now);
          Verdict(false, p.key, Some(r), Some(state), RowIs(state, if state == Requested then 0 else CountIn(candidates, Requested, now)))
  }

  function Attempt(key: string, v: Verdict): Event {
    AttemptEvent(key, if v.approval.Some? then Some(v.approval.value.id) else None, v.state, v.authorises)
  }

  /** A consult: the verdict, and an attempt in the ledger when asked to record one. */
  function Consult(s: Store, key: string, now: int, scope: Scope, record: bool): (Verdict, Store) {
    var v := Judge(s.rows, key, now, scope);
    (v, if record then s.(events := s.events + [Attempt(key, v)]) else s)
  }

  // ----- runs

  datatype Op =
    | DoRequest(id: string, project: Option<string>, key: string)
    | DoGrantRequest(id: string, alsoKey: bool, expires: Option<string>)
    | DoGrantNew(id: string, project: Option<string>, key: string, expires: Option<string>)
    | DoRevoke(id: string)
    | DoDischarge(id: string)
    | DoConsult(key: string, scope: Scope, record: bool)

  function Try(s: Store, op: Op, at: int): Result {
    match op
    case DoRequest(id, project, key) => Request(s, id, project, key, at)
    case DoGrantRequest(id, alsoKey, expires) => GrantRequest(s, id, alsoKey, expires, at)
    case DoGrantNew(id, project, key, expires) => GrantNew(s, id, project, key, expires, at)
    case DoRevoke(id) => Revoke(s, id, at)
    case DoDischarge(id) => Discharge(s, id, at)
    case DoConsult(key, scope, record) => Done(Consult(s, key, at, scope, record).1)
  }

  /** A refusal throws before anything is written. */
  function Apply(s: Store, op: Op, at: int): Store {
    match Try(s, op, at)
    case Done(t) => t
    case Refused(_) => s
  }

  datatype Timed = Timed(op: Op, at: int)

  function Run(steps: seq<Timed>): Store {
    if steps == [] then Store([], []) else Apply(Run(steps[..|steps| - 1]), steps[|steps| - 1].op, steps[|steps| - 1].at)
  }

  function NewId(op: Op): Option<string> {
    match op
    case DoRequest(id, _, _) => Some(id)
    case DoGrantNew(id, _, _, _) => Some(id)
    case _ => None
  }

  /** The clock never goes back, and a random identifier is never drawn twice. */
  ghost predicate Fair(steps: seq<Timed>) {
    && (forall i, j :: 0 <= i < j < |steps| ==> steps[i].at <= steps[j].at)
    && (forall i, j :: 0 <= i < j < |steps| && NewId(steps[i].op).Some? ==> NewId(steps[i].op) != NewId(steps[j].op))
  }

  /** The row of an approval. */
  function RowOf(s: Store, id: string): Option<Row> {
    var i := Find(s.rows, id);
    if i < |s.rows| then Some(s.rows[i]) else None
  }

  // ----- the lifecycle

  /** What a state can have become some time later. */
  predicate Later(a: State, b: State) {
    || a == b
    || (a == Requested && b != Requested)
    || (a == Granted && b != Requested && b != Granted)
  }

  /** What one writer does to one row's state at one moment. */
  predicate Edge(a: State, b: State) {
    || a == b
    || (a == Requested && (b == Granted || b == Revoked))
    || (a == Granted && (b == Revoked || b == Discharged))
  }

  lemma LaterIsTransitive(a: State, b: State, c: State)
    requires Later(a, b) && Later(b, c)
    ensures Later(a, c)
  {
  }

  /** Time alone only expires a grant. */
  lemma TimePasses(r: Row, t: int, u: int)
    requires t <= u
    ensures DeriveState(r, u) == DeriveState(r, t) || (DeriveState(r, t) == Granted && DeriveState(r, u) == Expired)
  {
  }

  predicate UniqueIds(rows: seq<Row>) {
    forall i, j :: 0 <= i < j < |rows| ==> rows[i].id != rows[j].id
  }

  lemma FindAppended(rows: seq<Row>, r: Row, id: string)
    ensures Find(rows + [r], id) == if Find(rows, id) < |rows| then Find(rows, id) else if r.id == id then |rows| else |rows| + 1
  {
    if rows == [] {
    } else {
      assert (rows + [r])[1..] == rows[1..] + [r];
      FindAppended(rows[1..], r, id);
    }
  }

  lemma {:induction false} FindUpdated(rows: seq<Row>, i: nat, r: Row, id: string)
    requires i < |rows| && r.id == rows[i].id
    ensures Find(rows[i := r], id) == Find(rows, id)
    decreases |rows|
  {
    if rows[0].id != id && i > 0 {
      assert rows[i := r][1..] == rows[1..][i - 1 := r];
      FindUpdated(rows[1..], i - 1, r, id);
    } else if i == 0 {
      assert rows[i := r][1..] == rows[1..];
    }
  }

  ghost predicate RowMoves(a: Row, b: Row, at: int) {
    b.id == a.id && b.key == a.key && Edge(DeriveState(a, at), DeriveState(b, at))
  }

  ghost predicate Updates(rows: seq<Row>, more: seq<Row>, k: nat, r: Row, at: int) {
    k < |rows| && more == rows[k := r] && RowMoves(rows[k], r, at)
  }

  lemma GrantMovesRow(r: Row, expires: Option<string>, at: int)
    requires DeriveState(r, at) == Requested && ResolveExpiry(expires, at).At?
    ensures RowMoves(r, r.(grantedAt := Some(at), expiresAt := ResolveExpiry(expires, at).time), at)
  {
    ExpiryIsBounded(expires, at);
  }

  lemma EndMovesRow(r: Row, at: int)
    ensures DeriveState(r, at) == Requested || DeriveState(r, at) == Granted ==> RowMoves(r, r.(revokedAt := Some(at)), at)
    ensures DeriveState(r, at) == Granted ==> RowMoves(r, r.(dischargedAt := Some(at)), at)
  {
  }

  /** A call leaves the rows alone, adds one, or moves one along an edge. */
  lemma CallTouchesOneRow(s: Store, op: Op, at: int)
    ensures
      var rows, more := s.rows, Apply(s, op, at).rows;
      more == rows || (exists r :: more == rows + [r]) || exists k: nat, r :: Updates(rows, more, k, r, at)
  {
    hide ParseKey, ResolveExpiry, RowMoves, Judge, DeriveState;
    var more := Apply(s, op, at).rows;
    match op {
      case DoRequest(_, _, _) => if more != s.rows { assert more == s.rows + [more[|s.rows|]]; }
      case DoGrantNew(_, _, _, _) => if more != s.rows { assert more == s.rows + [more[|s.rows|]]; }
      case DoConsult(_, _, _) =>
      case DoGrantRequest(x, _, e) =>
        var k: nat := Find(s.rows, x);
        if more != s.rows {
          GrantMovesRow(s.rows[k], e, at);
          assert Updates(s.rows, more, k, more[k], at);
        }
      case DoRevoke(x) =>
        var k: nat := Find(s.rows, x);
        if more != s.rows {
          EndMovesRow(s.rows[k], at);
          assert Updates(s.rows, more, k, more[k], at);
        }
      case DoDischarge(x) =>
        var k: nat := Find(s.rows, x);
        if more != s.rows {
          EndMovesRow(s.rows[k], at);
          assert Updates(s.rows, more, k, more[k], at);
        }
    }
  }

  /** One call at one moment: an existing row keeps its place and its key, and its state moves along one edge. */
  lemma CallMovesAlongEdge(s: Store, op: Op, at: int, id: string)
    requires RowOf(s, id).Some?
    ensures
      var t := Apply(s, op, at);
      && RowOf(t, id).Some? && RowOf(t, id).value.key == RowOf(s, id).value.key
      && Edge(DeriveState(RowOf(s, id).value, at), DeriveState(RowOf(t, id).value, at))
  {
    hide Apply, DeriveState;
    var rows, more := s.rows, Apply(s, op, at).rows;
    CallTouchesOneRow(s, op, at);
    if r :| more == rows + [r] {
      FindAppended(rows, r, id);
    } else if k: nat, r :| Updates(rows, more, k, r, at) {
      FindUpdated(rows, k, r, id);
    }
  }

  /** The clock at the end of a run. */
  function Clock(steps: seq<Timed>, i: nat): int
    requires 0 < i <= |steps|
  {
    steps[i - 1].at
  }

  /**
   Over every fair run, between any two moments: a row only moves from requested to granted or beyond, and from
   granted to one of the three ends; an ended row keeps its state, so it never authorises again.
   */
  lemma {:induction false} Lifecycle(steps: seq<Timed>, i: nat, id: string)
    requires Fair(steps) && 0 < i <= |steps| && RowOf(Run(steps[..i]), id).Some?
    ensures RowOf(Run(steps), id).Some?
    ensures Later(DeriveState(RowOf(Run(steps[..i]), id).value, Clock(steps, i)), DeriveState(RowOf(Run(steps), id).value, Clock(steps, |steps|)))
    decreases |steps|
  {
    hide ParseKey, Judge, ResolveExpiry, Try, Apply, Find;
    if i == |steps| {
      assert steps[..i] == steps;
    } else {
      var before, last := steps[..|steps| - 1], steps[|steps| - 1];
      assert before[..i] == steps[..i];
      assert Fair(before);
      Lifecycle(before, i, id);
      var a := DeriveState(RowOf(Run(steps[..i]), id).value, Clock(steps, i));
      var r := RowOf(Run(before), id).value;
      var b := DeriveState(r, Clock(steps, |steps| - 1));
      TimePasses(r, Clock(steps, |steps| - 1), last.at);
      CallMovesAlongEdge(Run(before), last.op, last.at, id);
      LaterIsTransitive(a, b, DeriveState(r, last.at));
      LaterIsTransitive(a, DeriveState(r, last.at), DeriveState(RowOf(Run(steps), id).value, last.at));
    }
  }

  // ----- what every row of a run satisfies

  predicate RowOk(r: Row) {
    && !(r.revokedAt.Some? && r.dischargedAt.Some?)
    && (r.dischargedAt.Some? ==> r.grantedAt.Some?)
    && ParseKey(r.key).Legal? && ParseKey(r.key).parsed.key == r.key
  }

  /** Revoked and discharged are never both set, only a grant is discharged, and every stored key is a legal, trimmed one. */
  lemma {:induction false} RowsStayOk(steps: seq<Timed>)
    ensures forall i :: 0 <= i < |Run(steps).rows| ==> RowOk(Run(steps).rows[i])
    decreases |steps|
  {
    hide ParseKey, Judge, ResolveExpiry;
    if steps != [] {
      RowsStayOk(steps[..|steps| - 1]);
      var op := steps[|steps| - 1].op;
      match op {
        case DoRequest(_, _, key) => if ParseKey(key).Legal? { KeyRoundTrip(key); }
        case DoGrantNew(_, _, key, _) => if ParseKey(key).Legal? { KeyRoundTrip(key); }
        case _ =>
      }
    }
  }

  // ----- the ledger replays

  datatype Life = Life(granted: bool, expiresAt: Option<int>, revoked: bool, discharged: bool)

  function LifeState(l: Life, now: int): State {
    if l.revoked then Revoked else if l.discharged then Discharged else if !l.granted then Requested
    else if l.expiresAt.Some? && now >= l.expiresAt.value then Expired else Granted
  }

  function ReplayOne(m: map<string, Life>, e: Event): map<string, Life> {
    match e
    case RequestEvent(id, _) => m[id := Life(false, None, false, false)]
    case GrantEvent(id, _, expiresAt, _) => m[id := Life(true, expiresAt, false, false)]
    case RevokeEvent(id, _) => if id in m then m[id := m[id].(revoked := true)] else m
    case DischargeEvent(id) => if id in m then m[id := m[id].(discharged := true)] else m
    case AttemptEvent(_, _, _, _) => m
  }

  function Replay(events: seq<Event>): map<string, Life> {
    if events == [] then map[] else ReplayOne(Replay(events[..|events| - 1]), events[|events| - 1])
  }

  function LifeOf(r: Row): Life {
    Life(r.grantedAt.Some?, r.expiresAt, r.revokedAt.Some?, r.dischargedAt.Some?)
  }

  ghost predicate Replays(s: Store) {
    && UniqueIds(s.rows)
    && (forall id :: id in Replay(s.events) <==> RowOf(s, id).Some?)
    && (forall id :: RowOf(s, id).Some? ==> Replay(s.events)[id] == LifeOf(RowOf(s, id).value))
  }

  lemma UniqueAppended(s: Store, r: Row)
    requires UniqueIds(s.rows) && RowOf(s, r.id).None?
    ensures UniqueIds(s.rows + [r])
  {
  }

  lemma UniqueUpdated(s: Store, i: nat, r: Row)
    requires UniqueIds(s.rows) && i < |s.rows| && r.id == s.rows[i].id
    ensures UniqueIds(s.rows[i := r]) && Find(s.rows, r.id) == i
  {
  }

  lemma AddReplays(s: Store, r: Row, e: Event)
    requires Replays(s) && RowOf(s, r.id).None?
    requires ReplayOne(Replay(s.events), e) == Replay(s.events)[r.id := LifeOf(r)]
    ensures Replays(Store(s.rows + [r], s.events + [e]))
  {
    hide Replay, ReplayOne, Find, UniqueIds;
    var t := Store(s.rows + [r], s.events + [e]);
    ReplayNext(s.events, e);
    forall id ensures RowOf(t, id) == if id == r.id then Some(r) else RowOf(s, id) { FindAppended(s.rows, r, id); }
    UniqueAppended(s, r);
  }

  lemma PutReplays(s: Store, i: nat, r: Row, e: Event)
    requires Replays(s) && i < |s.rows| && r.id == s.rows[i].id
    requires ReplayOne(Replay(s.events), e) == Replay(s.events)[r.id := LifeOf(r)]
    ensures Replays(Store(s.rows[i := r], s.events + [e]))
  {
    hide Replay, ReplayOne, Find, UniqueIds;
    var t := Store(s.rows[i := r], s.events + [e]);
    ReplayNext(s.events, e);
    UniqueUpdated(s, i, r);
    forall id ensures RowOf(t, id) == if id == r.id then Some(r) else RowOf(s, id) { FindUpdated(s.rows, i, r, id); }
  }

  lemma ReplayNext(events: seq<Event>, e: Event)
    ensures Replay(events + [e]) == ReplayOne(Replay(events), e)
  {
    assert (events + [e])[..|events|] == events;
  }

  lemma CallReplays(s: Store, op: Op, at: int)
    requires Replays(s) && forall i :: 0 <= i < |s.rows| ==> RowOk(s.rows[i])
    requires NewId(op).Some? ==> RowOf(s, NewId(op).value).None?
    ensures Replays(Apply(s, op, at))
  {
    hide ParseKey, Judge, ResolveExpiry, Replay, Replays;
    match Try(s, op, at) {
      case Refused(_) =>
      case Done(t) =>
        match op {
          case DoRequest(id, project, _) => AddReplays(s, t.rows[|s.rows|], t.events[|s.events|]);
          case DoGrantNew(id, project, _, _) => AddReplays(s, t.rows[|s.rows|], t.events[|s.events|]);
          case DoGrantRequest(id, _, _) =>
            var i := Find(s.rows, id);
            FoundReplays(s, i);
            PutReplays(s, i, t.rows[i], t.events[|s.events|]);
          case DoRevoke(id) =>
            var i := Find(s.rows, id);
            FoundReplays(s, i);
            PutReplays(s, i, t.rows[i], t.events[|s.events|]);
          case DoDischarge(id) =>
            var i := Find(s.rows, id);
            FoundReplays(s, i);
            PutReplays(s, i, t.rows[i], t.events[|s.events|]);
          case DoConsult(key, scope, record) =>
            if record {
              ReplayNext(s.events, Attempt(key, Judge(s.rows, key, at, scope)));
              SameRowsReplay(s, t);
            }
        }
    }
  }

  lemma FoundReplays(s: Store, i: nat)
    requires Replays(s) && i < |s.rows| && i == Find(s.rows, s.rows[i].id)
    ensures s.rows[i].id in Replay(s.events) && Replay(s.events)[s.rows[i].id] == LifeOf(s.rows[i])
  {
    assert RowOf(s, s.rows[i].id) == Some(s.rows[i]);
  }

  lemma SameRowsReplay(s: Store, t: Store)
    requires Replays(s) && t.rows == s.rows && Replay(t.events) == Replay(s.events)
    ensures Replays(t)
  {
    forall id ensures RowOf(t, id) == RowOf(s, id) { }
  }

  lemma {:induction false} IdsAreDrawn(steps: seq<Timed>, id: string)
    requires RowOf(Run(steps), id).Some?
    ensures exists i :: 0 <= i < |steps| && NewId(steps[i].op) == Some(id)
    decreases |steps|
  {
    hide ParseKey, Judge, ResolveExpiry;
    if steps != [] {
      var before, last := steps[..|steps| - 1], steps[|steps| - 1];
      var s, t := Run(before), Run(steps);
      if RowOf(s, id).Some? {
        IdsAreDrawn(before, id);
        var i :| 0 <= i < |before| && NewId(before[i].op) == Some(id);
        assert steps[i] == before[i];
      } else if |t.rows| > |s.rows| {
        FindAppended(s.rows, t.rows[|s.rows|], id);
        assert NewId(steps[|steps| - 1].op) == Some(id);
      } else if t.rows != s.rows {
        var k := Find(s.rows, match last.op case DoGrantRequest(x, _, _) => x case DoRevoke(x) => x case DoDischarge(x) => x case _ => "");
        FindUpdated(s.rows, k, t.rows[k], id);
      }
    }
  }

  lemma NotDrawnBefore(before: seq<Timed>, last: Timed)
    requires Fair(before + [last]) && NewId(last.op).Some?
    ensures forall i :: 0 <= i < |before| ==> NewId(before[i].op) != NewId(last.op)
  {
    var steps := before + [last];
    assert steps[|before|] == last;
    assert forall i :: 0 <= i < |before| ==> steps[i] == before[i];
  }

  lemma NewIdIsNew(steps: seq<Timed>)
    requires Fair(steps) && steps != [] && NewId(steps[|steps| - 1].op).Some?
    ensures RowOf(Run(steps[..|steps| - 1]), NewId(steps[|steps| - 1].op).value).None?
  {
    hide Run;
    assert steps == steps[..|steps| - 1] + [steps[|steps| - 1]];
    NotDrawnBefore(steps[..|steps| - 1], steps[|steps| - 1]);
    if RowOf(Run(steps[..|steps| - 1]), NewId(steps[|steps| - 1].op).value).Some? {
      IdsAreDrawn(steps[..|steps| - 1], NewId(steps[|steps| - 1].op).value);
    }
  }

  lemma {:induction false} LedgerMatches(steps: seq<Timed>)
    requires Fair(steps)
    ensures Replays(Run(steps))
    decreases |steps|
  {
    hide ParseKey, Judge, ResolveExpiry, Replays, Replay, Try, RowOk;
    if steps == [] {
      NothingReplays();
    } else {
      var before, last := steps[..|steps| - 1], steps[|steps| - 1];
      assert Fair(before);
      LedgerMatches(before);
      RowsStayOk(before);
      if NewId(last.op).Some? { NewIdIsNew(steps); }
      CallReplays(Run(before), last.op, last.at);
    }
  }

  lemma NothingReplays()
    ensures Replays(Store([], []))
  {
  }

  /** Replaying the ledger alone gives every approval, at any time, the state its row has. */
  lemma LedgerReplays(steps: seq<Timed>, id: string, now: int)
    requires Fair(steps)
    ensures
      var s := Run(steps);
      && (id in Replay(s.events) <==> RowOf(s, id).Some?)
      && (RowOf(s, id).Some? ==> LifeState(Replay(s.events)[id], now) == DeriveState(RowOf(s, id).value, now))
  {
    hide Run, Replay;
    LedgerMatches(steps);
  }

  // ----- consults

  datatype Query = Query(key: string, at: int, scope: Scope, record: bool)

  function Consults(s: Store, queries: seq<Query>): Store {
    if queries == [] then s
    else
      var before, q := Consults(s, queries[..|queries| - 1]), queries[|queries| - 1];
      Consult(before, q.key, q.at, q.scope, q.record).1
  }

  function Recorded(queries: seq<Query>): nat {
    if queries == [] then 0 else Recorded(queries[1..]) + if queries[0].record then 1 else 0
  }

  lemma {:induction false} RecordedLast(queries: seq<Query>)
    requires queries != []
    ensures Recorded(queries) == Recorded(queries[..|queries| - 1]) + if queries[|queries| - 1].record then 1 else 0
    decreases |queries|
  {
    if |queries| > 1 {
      RecordedLast(queries[1..]);
      assert queries[1..][..|queries| - 2] == queries[..|queries| - 1][1..];
    }
  }

  /** However often it is asked, a consult leaves every row as it is, and so uses nothing up; each recorded one writes one event. */
  lemma {:induction false} ConsultsUseNothing(s: Store, queries: seq<Query>, key: string, now: int, scope: Scope)
    ensures Consults(s, queries).rows == s.rows
    ensures Consult(Consults(s, queries), key, now, scope, true).0 == Consult(s, key, now, scope, true).0
    ensures s.events <= Consults(s, queries).events
    ensures |Consults(s, queries).events| == |s.events| + Recorded(queries)
    ensures (forall i :: 0 <= i < |queries| ==> !queries[i].record) ==> Consults(s, queries) == s
    decreases |queries|
  {
    hide ParseKey, Judge;
    if queries != [] {
      ConsultsUseNothing(s, queries[..|queries| - 1], key, now, scope);
      RecordedLast(queries);
    }
  }

  lemma {:induction false} CandidatesAre(rows: seq<Row>, key: string, scope: Scope, r: Row)
    ensures r in Candidates(rows, key, scope) <==> r in rows && r.key == key && InScope(r, scope)
    decreases |rows|
  {
    if rows != [] {
      CandidatesAre(rows[..|rows| - 1], key, scope, r);
      assert rows == rows[..|rows| - 1] + [rows[|rows| - 1]];
    }
  }

  lemma {:induction false} LastInIs(rows: seq<Row>, state: State, now: int)
    ensures LastIn(rows, state, now).Some? ==> LastIn(rows, state, now).value in rows && DeriveState(LastIn(rows, state, now).value, now) == state
    ensures LastIn(rows, state, now).None? ==> forall r :: r in rows ==> DeriveState(r, now) != state
    decreases |rows|
  {
    if rows != [] {
      LastInIs(rows[..|rows| - 1], state, now);
      assert rows == rows[..|rows| - 1] + [rows[|rows| - 1]];
    }
  }

  /** A grant that covers this key, now, for this consumer. */
  ghost predicate Covered(rows: seq<Row>, key: string, now: int, scope: Scope) {
    exists r :: r in rows && InScope(r, scope) && DeriveState(r, now) == Granted && r.key == Trim(key)
  }

  lemma AuthorisesIff(rows: seq<Row>, key: string, now: int, scope: Scope)
    ensures Judge(rows, key, now, scope).authorises <==> ParseKey(key).Legal? && Covered(rows, key, now, scope)
    ensures Judge(rows, key, now, scope).authorises <==> Judge(rows, key, now, scope).reason == None_
  {
    if ParseKey(key).Legal? {
      var p := ParseKey(key).parsed;
      var candidates := Candidates(rows, p.key, scope);
      LastInIs(candidates, Granted, now);
      forall r ensures r in candidates <==> r in rows && r.key == p.key && InScope(r, scope) { CandidatesAre(rows, p.key, scope, r); }
    }
  }

  /**
   Over the rows of any run: a key is authorised iff some granted row in scope has its class and all of its
   components.  One component off is another end state, and is not covered.
   */
  lemma CoversItsEndStateOnly(steps: seq<Timed>, key: string, now: int, scope: Scope)
    requires ParseKey(key).Legal?
    ensures
      var asked := ParseKey(key).parsed;
      Judge(Run(steps).rows, key, now, scope).authorises <==>
      exists r :: r in Run(steps).rows && InScope(r, scope) && DeriveState(r, now) == Granted && ParseKey(r.key).Legal?
                  && ParseKey(r.key).parsed.actionClass == asked.actionClass && ParseKey(r.key).parsed.values == asked.values
  {
    hide Run, ParseKey, Judge;
    var rows := Run(steps).rows;
    AuthorisesIff(rows, key, now, scope);
    RowsStayOk(steps);
    KeyRoundTrip(key);
    forall r | r in rows
      ensures ParseKey(r.key).Legal?
      ensures r.key == Trim(key) <==> ParseKey(r.key).parsed.actionClass == ParseKey(key).parsed.actionClass && ParseKey(r.key).parsed.values == ParseKey(key).parsed.values
    {
      var i :| 0 <= i < |rows| && rows[i] == r;
      assert RowOk(rows[i]);
      SameEndState(r.key, key);
    }
  }

  /** REASON_PRECEDENCE */
  function Precedence(s: State): nat {
    match s case Granted => 0 case Expired => 1 case Revoked => 2 case Discharged => 3 case Requested => 4
  }

  /** A refusal names the row with the most history, and no row only if there is none. */
  lemma RefusalNamesTheTellingRow(rows: seq<Row>, key: string, now: int, scope: Scope)
    requires ParseKey(key).Legal? && !Judge(rows, key, now, scope).authorises
    ensures
      var v := Judge(rows, key, now, scope);
      var candidates := Candidates(rows, ParseKey(key).parsed.key, scope);
      && (v.approval.None? <==> candidates == [])
      && (v.approval.Some? ==>
            && v.approval.value in candidates && v.state == Some(DeriveState(v.approval.value, now))
            && forall r :: r in candidates ==> Precedence(DeriveState(r, now)) >= Precedence(v.state.value))
  {
    hide ParseKey, Candidates;
    var candidates := Candidates(rows, ParseKey(key).parsed.key, scope);
    LastInIs(candidates, Granted, now);
    LastInIs(candidates, Expired, now);
    LastInIs(candidates, Revoked, now);
    LastInIs(candidates, Discharged, now);
    LastInIs(candidates, Requested, now);
    if candidates != [] { assert candidates[0] in candidates; }
  }

  // ----- the coverage query

  datatype Difference = Difference(component: string, asked: string, granted: string)

  datatype NearMiss = NearMiss(id: string, key: string, differs: seq<Difference>, expiresAt: Option<int>)

  function Differences(names: seq<string>, asked: seq<string>, granted: seq<string>): seq<Difference>
    requires |names| == |asked| == |granted|
  {
    if names == [] then []
    else (if asked[0] != granted[0] then [Difference(names[0], asked[0], granted[0])] else []) + Differences(names[1..], asked[1..], granted[1..])
  }

  lemma {:induction false} DiffersIff(names: seq<string>, asked: seq<string>, granted: seq<string>)
    requires |names| == |asked| == |granted|
    ensures Differences(names, asked, granted) == [] <==> asked == granted
    decreases |names|
  {
    if names != [] {
      DiffersIff(names[1..], asked[1..], granted[1..]);
      assert asked == [asked[0]] + asked[1..] && granted == [granted[0]] + granted[1..];
    }
  }

  /** What one granted row contributes to the near misses of a key. */
  function MissOf(key: string, r: Row, now: int, scope: Scope): (misses: seq<NearMiss>)
    ensures |misses| <= 1
  {
    match ParseKey(key)
    case Illegal(_) => []
    case Legal(asked) =>
      if DeriveState(r, now) != Granted || !InScope(r, scope) || r.key == asked.key then []
      else
        match ParseKey(r.key)
        case Illegal(_) => []
        case Legal(other) =>
          if other.actionClass != asked.actionClass then []
          else
            var differs := Differences(CLASSES[asked.actionClass], asked.values, other.values);
            if differs == [] then [] else [NearMiss(r.id, r.key, differs, r.expiresAt)]
  }

  function Nearest(key: string, rows: seq<Row>, now: int, scope: Scope): seq<NearMiss> {
    if rows == [] then [] else Nearest(key, rows[..|rows| - 1], now, scope) + MissOf(key, rows[|rows| - 1], now, scope)
  }

  /** A live grant of the same class, in scope, for another end state. */
  predicate IsNearMiss(key: string, r: Row, now: int, scope: Scope) {
    && ParseKey(key).Legal? && DeriveState(r, now) == Granted && InScope(r, scope)
    && ParseKey(r.key).Legal? && ParseKey(r.key).parsed.actionClass == ParseKey(key).parsed.actionClass
    && ParseKey(r.key).parsed.key != ParseKey(key).parsed.key
  }

  lemma MissOfIff(key: string, r: Row, now: int, scope: Scope)
    ensures MissOf(key, r, now, scope) != [] <==> IsNearMiss(key, r, now, scope)
  {
    if ParseKey(key).Legal? && ParseKey(r.key).Legal? && ParseKey(r.key).parsed.actionClass == ParseKey(key).parsed.actionClass {
      var asked, other := ParseKey(key).parsed, ParseKey(r.key).parsed;
      DiffersIff(CLASSES[asked.actionClass], asked.values, other.values);
      SameEndState(key, r.key);
      KeyRoundTrip(key);
      KeyRoundTrip(r.key);
      if r.key == asked.key {
        TrimIsTrimmed(key);
        TrimOfTrimmed(r.key);
      }
    }
  }

  predicate DiffersAt(names: seq<string>, asked: seq<string>, granted: seq<string>, d: Difference, i: nat)
    requires |names| == |asked| == |granted|
  {
    i < |names| && asked[i] != granted[i] && d == Difference(names[i], asked[i], granted[i])
  }

  lemma {:induction false} DifferencesAre(names: seq<string>, asked: seq<string>, granted: seq<string>, d: Difference)
    requires |names| == |asked| == |granted|
    ensures d in Differences(names, asked, granted) <==> exists i: nat :: DiffersAt(names, asked, granted, d, i)
    decreases |names|
  {
    if names != [] {
      DifferencesAre(names[1..], asked[1..], granted[1..], d);
      if i: nat :| DiffersAt(names[1..], asked[1..], granted[1..], d, i) { assert DiffersAt(names, asked, granted, d, i + 1); }
      if i: nat :| DiffersAt(names, asked, granted, d, i) {
        if i > 0 { assert DiffersAt(names[1..], asked[1..], granted[1..], d, i - 1); }
      }
      if asked[0] != granted[0] { assert DiffersAt(names, asked, granted, Difference(names[0], asked[0], granted[0]), 0); }
    }
  }

  /** A near miss names its row, its key and its end, and exactly the components that differ. */
  ghost predicate Tells(key: string, r: Row, m: NearMiss) {
    && m.id == r.id && m.key == r.key && m.expiresAt == r.expiresAt && m.differs != []
    && ParseKey(key).Legal? && ParseKey(r.key).Legal? && ParseKey(key).parsed.actionClass == ParseKey(r.key).parsed.actionClass
    && var asked, other := ParseKey(key).parsed, ParseKey(r.key).parsed;
       forall d :: d in m.differs <==> exists i: nat :: DiffersAt(CLASSES[asked.actionClass], asked.values, other.values, d, i)
  }

  lemma MissTells(key: string, r: Row, now: int, scope: Scope, m: NearMiss)
    requires MissOf(key, r, now, scope) == [m]
    ensures IsNearMiss(key, r, now, scope) && Tells(key, r, m)
  {
    hide ParseKey, Differences, InScope, DeriveState, DiffersAt;
    MissOfIff(key, r, now, scope);
    var asked, other := ParseKey(key).parsed, ParseKey(r.key).parsed;
    forall d
      ensures d in m.differs <==> exists i: nat :: DiffersAt(CLASSES[asked.actionClass], asked.values, other.values, d, i)
    {
      DifferencesAre(CLASSES[asked.actionClass], asked.values, other.values, d);
    }
  }

  datatype Coverage = Coverage(covered: bool, verdict: Verdict, nearest: seq<NearMiss>)

  function Cover(rows: seq<Row>, key: string, now: int, scope: Scope): Coverage {
    var v := Judge(rows, key, now, scope);
    if v.authorises then Coverage(true, v, []) else Coverage(false, v, Nearest(key, rows, now, scope))
  }

  lemma {:induction false} NearestAre(key: string, rows: seq<Row>, now: int, scope: Scope, m: NearMiss)
    ensures m in Nearest(key, rows, now, scope) <==> exists i :: 0 <= i < |rows| && IsNearMiss(key, rows[i], now, scope) && MissOf(key, rows[i], now, scope) == [m]
    decreases |rows|
  {
    hide ParseKey, MissOf, IsNearMiss;
    if rows != [] {
      var before, last := rows[..|rows| - 1], rows[|rows| - 1];
      NearestAre(key, before, now, scope, m);
      MissOfIff(key, last, now, scope);
      if m in Nearest(key, before, now, scope) {
        var i :| 0 <= i < |before| && IsNearMiss(key, before[i], now, scope) && MissOf(key, before[i], now, scope) == [m];
        assert rows[i] == before[i];
      }
      if i :| 0 <= i < |rows| && IsNearMiss(key, rows[i], now, scope) && MissOf(key, rows[i], now, scope) == [m] {
        if i < |before| { assert before[i] == rows[i]; }
      }
    }
  }

  /**
   The coverage query agrees with the consult that enforces, and when it refuses lists exactly the live grants in
   scope of the same class whose legal key names another end state, whatever else is stored.
   */
  lemma CoverageAgrees(s: Store, key: string, now: int, scope: Scope, m: NearMiss)
    ensures
      var c := Cover(s.rows, key, now, scope);
      && c.covered == Consult(s, key, now, scope, true).0.authorises
      && (m in c.nearest <==>
            && !c.covered
            && exists i :: 0 <= i < |s.rows| && IsNearMiss(key, s.rows[i], now, scope) && MissOf(key, s.rows[i], now, scope) == [m])
      && (m in c.nearest ==> exists i :: 0 <= i < |s.rows| && IsNearMiss(key, s.rows[i], now, scope) && Tells(key, s.rows[i], m))
  {
    hide Judge, ParseKey, MissOf, IsNearMiss, Tells;
    NearestAre(key, s.rows, now, scope, m);
    forall i | 0 <= i < |s.rows| && MissOf(key, s.rows[i], now, scope) == [m] ensures Tells(key, s.rows[i], m) {
      MissTells(key, s.rows[i], now, scope, m);
    }
  }

  // ----- the store the hub holds

  class ApprovalStore {
    var rows: seq<Row>
    var events: seq<Event>

    function Value(): Store
      reads this
    {
      Store(rows, events)
    }

    constructor ()
      ensures Value() == Store([], [])
    {
      rows, events := [], [];
    }

    /** What a writer leaves behind: the new table and one more event, or nothing at all and an error. */
    predicate Wrote(before: Store, error: Option<Error>, r: Result)
      reads this
    {
      match r
      case Done(t) => error.None? && Value() == t
      case Refused(e) => error == Some(e) && Value() == before
    }

    method FindRow(id: string) returns (i: nat)
      ensures i == Find(rows, id)
    {
      i := 0;
      while i < |rows|
        invariant i <= |rows| && Find(rows, id) == i + Find(rows[i..], id)
      {
        if rows[i].id == id { return; }
        assert rows[i..][1..] == rows[i + 1..];
        i := i + 1;
      }
    }

    method RequestApproval(id: string, project: Option<string>, key: string, at: int) returns (error: Option<Error>)
      modifies this
      ensures Wrote(old(Value()), error, Request(old(Value()), id, project, key, at))
    {
      var parsed := ParseKey(key);
      match parsed {
        case Illegal(code) => return Some(BadKey(code));
        case Legal(p) =>
          rows := rows + [Row(id, project, p.key, Some(at), None, None, None, None)];
          events := events + [RequestEvent(id, p.key)];
          return None;
      }
    }

    /** The two shapes of a grant: a standing request, or a key the operator names. */
    method GrantApproval(request: Option<string>, key: Option<string>, newId: string, project: Option<string>, expires: Option<string>, at: int)
      returns (error: Option<Error>)
      modifies this
      ensures Wrote(old(Value()), error,
                if request.Some? then GrantRequest(old(Value()), request.value, key.Some?, expires, at)
                else GrantNew(old(Value()), newId, project, if key.Some? then key.value else "", expires, at))
    {
      if request.Some? {
        if key.Some? { return Some(AmbiguousGrant); }
        var i := FindRow(request.value);
        if i == |rows| { return Some(NotFound); }
        var r := rows[i];
        if DeriveState(r, at) != Requested { return Some(NotGrantable); }
        var parsed := ParseKey(r.key);
        if parsed.Illegal? { return Some(BadKey(parsed.code)); }
        var expiry := ResolveExpiry(expires, at);
        if expiry.BadExpiry? { return Some(BadExpiryGiven); }
        rows := rows[i := r.(grantedAt := Some(at), expiresAt := expiry.time)];
        events := events + [GrantEvent(r.id, parsed.parsed.key, expiry.time, true)];
        return None;
      }
      var parsed := ParseKey(if key.Some? then key.value else "");
      if parsed.Illegal? { return Some(BadKey(parsed.code)); }
      var expiry := ResolveExpiry(expires, at);
      if expiry.BadExpiry? { return Some(BadExpiryGiven); }
      rows := rows + [Row(newId, project, parsed.parsed.key, None, Some(at), expiry.time, None, None)];
      events := events + [GrantEvent(newId, parsed.parsed.key, expiry.time, false)];
      return None;
    }

    method RevokeApproval(id: string, at: int) returns (error: Option<Error>)
      modifies this
      ensures Wrote(old(Value()), error, Revoke(old(Value()), id, at))
    {
      var i := FindRow(id);
      if i == |rows| { return Some(NotFound); }
      var state := DeriveState(rows[i], at);
      if state != Requested && state != Granted { return Some(NotRevocable); }
      rows := rows[i := rows[i].(revokedAt := Some(at))];
      events := events + [RevokeEvent(id, state)];
      return None;
    }

    method DischargeApproval(id: string, at: int) returns (error: Option<Error>)
      modifies this
      ensures Wrote(old(Value()), error, Discharge(old(Value()), id, at))
    {
      var i := FindRow(id);
      if i == |rows| { return Some(NotFound); }
      if DeriveState(rows[i], at) != Granted { return Some(NotDischargeable); }
      rows := rows[i := rows[i].(dischargedAt := Some(at))];
      events := events + [DischargeEvent(id)];
      return None;
    }

    method ConsultApproval(key: string, now: int, scope: Scope, record: bool) returns (v: Verdict)
      modifies this`events
      ensures (v, Value()) == Consult(old(Value()), key, now, scope, record)
    {
      v := Judge(rows, key, now, scope);
      if record { events := events + [Attempt(key, v)]; }
    }

    /** A read, and only a read: nothing is written, not even an attempt. */
    method CoverageQuery(key: string, now: int, scope: Scope) returns (c: Coverage)
      ensures c == Cover(rows, key, now, scope)
    {
      hide MissOf, Judge;
      var v := Judge(rows, key, now, scope);
      if v.authorises { return Coverage(true, v, []); }
      var nearest: seq<NearMiss> := [];
      for i := 0 to |rows|
        invariant nearest == Nearest(key, rows[..i], now, scope)
      {
        assert rows[..i + 1][..i] == rows[..i];
        nearest := nearest + MissOf(key, rows[i], now, scope);
      }
      assert rows[..|rows|] == rows;
      return Coverage(false, v, nearest);
    }
  }
}
