/** Where every approval comes from: which calls made its row what it is, what each call does, and what a consult rests on. */
module ApprovalHistory {

  import opened ActionKeys
  import opened Approvals
  import opened Options
  import opened Texts

  // ----- one call

  /** The state of a row that nothing but this end bounds. */
  function UntilEnd(end: Option<int>, u: int): State { if end.Some? && u >= end.value then Expired else Granted }

  ghost predicate AlwaysIs(r: Row, state: State) {
    forall u :: DeriveState(r, u) == state
  }

  ghost predicate GrantedUntil(r: Row, end: Option<int>) {
    forall u :: DeriveState(r, u) == UntilEnd(end, u)
  }

  ghost predicate OthersStay(s: Store, t: Store, id: string) {
    forall x :: x != id && RowOf(s, x).Some? ==> RowOf(t, x) == RowOf(s, x)
  }

  /** A call that is refused leaves the store as it was. */
  predicate Refuses(s: Store, op: Op, at: int) { Try(s, op, at).Refused? && Apply(s, op, at) == s }

  /** Filing a request: a legal key makes a row that stays requested until somebody grants or revokes it. */
  lemma RequestTakesEffect(s: Store, id: string, project: Option<string>, key: string, at: int)
    requires RowOf(s, id).None?
    ensures
      var op := DoRequest(id, project, key);
      var t := Apply(s, op, at);
      if ParseKey(key).Legal? then
        && RowOf(t, id).Some? && OthersStay(s, t, id) && t.events == s.events + [RequestEvent(id, Trim(key))]
        && var r := RowOf(t, id).value; r.project == project && r.key == Trim(key) && r.requestedAt == Some(at) && AlwaysIs(r, Requested)
      else Refuses(s, op, at) && Try(s, op, at).error.BadKey?
  {
    hide Find;
    if ParseKey(key).Legal? {
      KeyRoundTrip(key);
      var r := Row(id, project, Trim(key), Some(at), None, None, None, None);
      forall x ensures RowOf(Apply(s, DoRequest(id, project, key), at), x) == if x == id then Some(r) else RowOf(s, x) { FindAppended(s.rows, r, x); }
    }
  }

  /** A grant of a key: live from now until its end, in the project it was made for, and for nobody else's. */
  lemma GrantTakesEffect(s: Store, id: string, project: Option<string>, key: string, expires: Option<string>, at: int)
    requires RowOf(s, id).None?
    ensures
      var op := DoGrantNew(id, project, key, expires);
      var t := Apply(s, op, at);
      if ParseKey(key).Legal? && ResolveExpiry(expires, at).At? then
        var end := ResolveExpiry(expires, at).time;
        && RowOf(t, id).Some? && OthersStay(s, t, id) && t.events == s.events + [GrantEvent(id, Trim(key), end, false)]
        && var r := RowOf(t, id).value;
           r.project == project && r.key == Trim(key) && r.requestedAt.None? && r.grantedAt == Some(at) && r.expiresAt == end && GrantedUntil(r, end)
      else
        && Refuses(s, op, at)
        && (if ParseKey(key).Legal? then Try(s, op, at).error.BadExpiryGiven? else Try(s, op, at).error.BadKey?)
  {
    hide Find, ResolveExpiry;
    if ParseKey(key).Legal? && ResolveExpiry(expires, at).At? {
      KeyRoundTrip(key);
      var r := Row(id, project, Trim(key), None, Some(at), ResolveExpiry(expires, at).time, None, None);
      forall x ensures RowOf(Apply(s, DoGrantNew(id, project, key, expires), at), x) == if x == id then Some(r) else RowOf(s, x) {
        FindAppended(s.rows, r, x);
      }
    }
  }

  /** What an update of one row leaves of the table. */
  lemma PutTakesEffect(s: Store, id: string, r: Row, e: Event)
    requires RowOf(s, id).Some? && r.id == id
    ensures
      var t := Store(s.rows[Find(s.rows, id) := r], s.events + [e]);
      RowOf(t, id) == Some(r) && OthersStay(s, t, id)
  {
    var i := Find(s.rows, id);
    forall x ensures Find(s.rows[i := r], x) == Find(s.rows, x) { FindUpdated(s.rows, i, r, x); }
  }

  /** Granting a standing request: its key, project and request stay; it is then live until its end. */
  lemma GrantRequestTakesEffect(s: Store, id: string, alsoKey: bool, expires: Option<string>, at: int)
    requires RowOf(s, id).Some? ==> ParseKey(RowOf(s, id).value.key).Legal? && Trim(RowOf(s, id).value.key) == RowOf(s, id).value.key
    ensures
      var op := DoGrantRequest(id, alsoKey, expires);
      var t, was := Apply(s, op, at), RowOf(s, id);
      if !alsoKey && was.Some? && DeriveState(was.value, at) == Requested && ResolveExpiry(expires, at).At? then
        var end := ResolveExpiry(expires, at).time;
        && RowOf(t, id).Some? && OthersStay(s, t, id) && t.events == s.events + [GrantEvent(id, was.value.key, end, true)]
        && var r := RowOf(t, id).value;
           && r.project == was.value.project && r.key == was.value.key && r.requestedAt == was.value.requestedAt
           && r.grantedAt == Some(at) && r.expiresAt == end && GrantedUntil(r, end)
      else
        && Refuses(s, op, at)
        && var e := Try(s, op, at).error;
           if alsoKey then e.AmbiguousGrant? else if was.None? then e.NotFound?
           else if DeriveState(was.value, at) != Requested then e.NotGrantable? else e.BadExpiryGiven?
  {
    hide Find, ResolveExpiry, ParseKey;
    var was := RowOf(s, id);
    if !alsoKey && was.Some? && DeriveState(was.value, at) == Requested && ResolveExpiry(expires, at).At? {
      KeyRoundTrip(was.value.key);
      var end := ResolveExpiry(expires, at).time;
      PutTakesEffect(s, id, was.value.(grantedAt := Some(at), expiresAt := end), GrantEvent(id, was.value.key, end, true));
    }
  }

  /** What is requested or granted can be revoked, for good; nothing else can. */
  lemma RevokeTakesEffect(s: Store, id: string, at: int)
    ensures
      var op := DoRevoke(id);
      var t, was := Apply(s, op, at), RowOf(s, id);
      if was.Some? && DeriveState(was.value, at) in {Requested, Granted} then
        && RowOf(t, id).Some? && OthersStay(s, t, id) && t.events == s.events + [RevokeEvent(id, DeriveState(was.value, at))]
        && RowOf(t, id).value == was.value.(revokedAt := Some(at)) && AlwaysIs(RowOf(t, id).value, Revoked)
      else Refuses(s, op, at) && (if was.None? then Try(s, op, at).error.NotFound? else Try(s, op, at).error.NotRevocable?)
  {
    hide Find;
    var was := RowOf(s, id);
    if was.Some? && DeriveState(was.value, at) in {Requested, Granted} {
      PutTakesEffect(s, id, was.value.(revokedAt := Some(at)), RevokeEvent(id, DeriveState(was.value, at)));
    }
  }

  /** Only what is granted now can be discharged, for good. */
  lemma DischargeTakesEffect(s: Store, id: string, at: int)
    ensures
      var op := DoDischarge(id);
      var t, was := Apply(s, op, at), RowOf(s, id);
      if was.Some? && DeriveState(was.value, at) == Granted then
        && RowOf(t, id).Some? && OthersStay(s, t, id) && t.events == s.events + [DischargeEvent(id)]
        && RowOf(t, id).value == was.value.(dischargedAt := Some(at)) && AlwaysIs(RowOf(t, id).value, Discharged)
      else Refuses(s, op, at) && (if was.None? then Try(s, op, at).error.NotFound? else Try(s, op, at).error.NotDischargeable?)
  {
    hide Find;
    var was := RowOf(s, id);
    if was.Some? && DeriveState(was.value, at) == Granted {
      PutTakesEffect(s, id, was.value.(dischargedAt := Some(at)), DischargeEvent(id));
    }
  }

  // ----- over a run: every field of a row was said by a call

  /** Call i drew the identifier, for this project and this key. */
  predicate Born(steps: seq<Timed>, i: nat, r: Row) {
    i < |steps| &&
    match steps[i].op
    case DoRequest(id, project, key) =>
      id == r.id && project == r.project && ParseKey(key).Legal? && Trim(key) == r.key && r.requestedAt == Some(steps[i].at)
    case DoGrantNew(id, project, key, expires) =>
      && id == r.id && project == r.project && ParseKey(key).Legal? && Trim(key) == r.key
      && r.requestedAt.None? && r.grantedAt == Some(steps[i].at) && ResolveExpiry(expires, steps[i].at) == At(r.expiresAt)
    case _ => false
  }

  predicate GrantedBy(steps: seq<Timed>, j: nat, r: Row) {
    && j < |steps| && steps[j].op.DoGrantRequest? && steps[j].op.id == r.id && !steps[j].op.alsoKey
    && r.grantedAt == Some(steps[j].at) && ResolveExpiry(steps[j].op.expires, steps[j].at) == At(r.expiresAt)
  }

  ghost predicate Explained(steps: seq<Timed>, r: Row) {
    && (exists i: nat :: Born(steps, i, r))
    && (r.requestedAt.Some? ==> (r.grantedAt.None? && r.expiresAt.None?) || exists j: nat :: GrantedBy(steps, j, r))
    && (r.revokedAt.Some? ==> Timed(DoRevoke(r.id), r.revokedAt.value) in steps)
    && (r.dischargedAt.Some? ==> Timed(DoDischarge(r.id), r.dischargedAt.value) in steps)
  }

  lemma StaysExplained(before: seq<Timed>, last: Timed, r: Row)
    requires Explained(before, r)
    ensures Explained(before + [last], r)
  {
    hide ParseKey, ResolveExpiry, Trim;
    var steps := before + [last];
    var i: nat :| Born(before, i, r);
    assert steps[i] == before[i];
    assert Born(steps, i, r);
    if j: nat :| GrantedBy(before, j, r) {
      assert steps[j] == before[j];
      assert GrantedBy(steps, j, r);
    }
  }

  lemma NowExplained(before: seq<Timed>, last: Timed, r: Row, s: Store)
    requires forall k :: 0 <= k < |s.rows| ==> Explained(before, s.rows[k])
    requires r in Apply(s, last.op, last.at).rows
    ensures Explained(before + [last], r)
  {
    hide ParseKey, ResolveExpiry, Trim, Find, Judge, Explained;
    var steps := before + [last];
    if r in s.rows {
      StaysExplained(before, last, r);
    } else {
      assert last in steps;
      match last.op {
        case DoRequest(_, _, key) =>
          BornNow(before, last, r, s);
        case DoGrantNew(_, _, _, _) =>
          BornNow(before, last, r, s);
        case DoGrantRequest(id, _, _) =>
          var was := s.rows[Find(s.rows, id)];
          StaysExplained(before, last, was);
          GrantExplained(before, last, was, r);
        case DoRevoke(id) =>
          var was := s.rows[Find(s.rows, id)];
          StaysExplained(before, last, was);
          EndExplained(steps, was, r);
        case DoDischarge(id) =>
          var was := s.rows[Find(s.rows, id)];
          StaysExplained(before, last, was);
          EndExplained(steps, was, r);
        case DoConsult(_, _, _) =>
      }
    }
  }

  lemma BornNow(before: seq<Timed>, last: Timed, r: Row, s: Store)
    requires r in Apply(s, last.op, last.at).rows && r !in s.rows && (last.op.DoRequest? || last.op.DoGrantNew?)
    ensures Explained(before + [last], r)
  {
    hide ResolveExpiry;
    var steps := before + [last];
    assert steps[|before|] == last;
    KeyRoundTrip(last.op.key);
    assert Born(steps, |before|, r);
  }

  lemma GrantExplained(before: seq<Timed>, last: Timed, was: Row, r: Row)
    requires Explained(before + [last], was) && last.op.DoGrantRequest? && last.op.id == was.id && !last.op.alsoKey
    requires was.grantedAt.None? && ResolveExpiry(last.op.expires, last.at).At?
    requires r == was.(grantedAt := Some(last.at), expiresAt := ResolveExpiry(last.op.expires, last.at).time)
    ensures Explained(before + [last], r)
  {
    hide ParseKey, ResolveExpiry, Trim;
    var steps := before + [last];
    assert steps[|before|] == last;
    assert GrantedBy(steps, |before|, r);
    var i: nat :| Born(steps, i, was);
    assert Born(steps, i, r);
  }

  lemma EndExplained(steps: seq<Timed>, was: Row, r: Row)
    requires Explained(steps, was)
    requires
      || (r.revokedAt.Some? && r == was.(revokedAt := r.revokedAt) && Timed(DoRevoke(r.id), r.revokedAt.value) in steps)
      || (r.dischargedAt.Some? && r == was.(dischargedAt := r.dischargedAt) && Timed(DoDischarge(r.id), r.dischargedAt.value) in steps)
    ensures Explained(steps, r)
  {
    hide ParseKey, ResolveExpiry, Trim;
    var i: nat :| Born(steps, i, was);
    assert Born(steps, i, r);
    if j: nat :| GrantedBy(steps, j, was) { assert GrantedBy(steps, j, r); }
  }

  /**
   Over every run: a row's project and key are those of the call that drew its identifier, and no later call changes
   them; its end is the one its grant asked for; and it is granted, revoked or discharged only by a call that says so.
   */
  lemma {:induction false} RowsComeFromCalls(steps: seq<Timed>, r: Row)
    requires r in Run(steps).rows
    ensures Explained(steps, r)
    decreases |steps|
  {
    hide Explained, Apply;
    if steps != [] {
      var before, last := steps[..|steps| - 1], steps[|steps| - 1];
      assert before + [last] == steps;
      forall k | 0 <= k < |Run(before).rows| ensures Explained(before, Run(before).rows[k]) { RowsComeFromCalls(before, Run(before).rows[k]); }
      NowExplained(before, last, r, Run(before));
    }
  }

  // ----- what a consult rests on

  /** A consumer within this scope may use what was granted for this project. */
  predicate MayUse(scope: Scope, project: Option<string>) {
    match scope
    case Anywhere => true
    case Within(None) => project == None
    case Within(Some(name)) => project == None || project == Some(name)
  }

  /** Granted, neither revoked nor discharged, and before its end. */
  predicate Live(r: Row, now: int) {
    r.grantedAt.Some? && r.revokedAt.None? && r.dischargedAt.None? && (r.expiresAt.Some? ==> now < r.expiresAt.value)
  }

  /** In terms of the rows' own fields: a legal key is authorised iff some live row of that key may be used there. */
  lemma AuthorisedIffLive(rows: seq<Row>, key: string, now: int, scope: Scope)
    ensures
      Judge(rows, key, now, scope).authorises <==>
      ParseKey(key).Legal? && exists i :: 0 <= i < |rows| && rows[i].key == Trim(key) && MayUse(scope, rows[i].project) && Live(rows[i], now)
  {
    hide ParseKey, Trim, Judge;
    AuthorisesIff(rows, key, now, scope);
    forall r ensures InScope(r, scope) && DeriveState(r, now) == Granted <==> MayUse(scope, r.project) && Live(r, now) {}
    if Covered(rows, key, now, scope) {
      var r :| r in rows && InScope(r, scope) && DeriveState(r, now) == Granted && r.key == Trim(key);
      var i :| 0 <= i < |rows| && rows[i] == r;
    }
  }

  lemma RunNext(steps: seq<Timed>, last: Timed)
    ensures Run(steps + [last]) == Apply(Run(steps), last.op, last.at)
  {
    assert (steps + [last])[..|steps|] == steps;
  }

  /** After any run, a grant authorises its key wherever its project may be used, from now until its end. */
  lemma GrantAuthorises(steps: seq<Timed>, id: string, project: Option<string>, key: string, expires: Option<string>, at: int, now: int, scope: Scope)
    requires RowOf(Run(steps), id).None? && ParseKey(key).Legal? && ResolveExpiry(expires, at).At? && MayUse(scope, project)
    requires var end := ResolveExpiry(expires, at).time; end.Some? ==> now < end.value
    ensures
      var v := Judge(Run(steps + [Timed(DoGrantNew(id, project, key, expires), at)]).rows, key, now, scope);
      v.authorises && v.state == Some(Granted) && v.approval.Some? && v.key == Trim(key)
  {
    hide Run, Judge, ParseKey, ResolveExpiry, Trim, Apply, Find;
    var last := Timed(DoGrantNew(id, project, key, expires), at);
    RunNext(steps, last);
    GrantTakesEffect(Run(steps), id, project, key, expires, at);
    var t := Run(steps + [last]);
    var i := Find(t.rows, id);
    assert t.rows[i].key == Trim(key) && DeriveState(t.rows[i], now) == UntilEnd(t.rows[i].expiresAt, now);
    assert Live(t.rows[i], now);
    AuthorisedIffLive(t.rows, key, now, scope);
    VerdictIsWhole(t.rows, key, now, scope);
  }

  /** What a verdict carries: the trimmed key, and when it authorises the live row it rests on. */
  lemma VerdictIsWhole(rows: seq<Row>, key: string, now: int, scope: Scope)
    ensures
      var v := Judge(rows, key, now, scope);
      && (ParseKey(key).Legal? ==> v.key == Trim(key)) && (ParseKey(key).Illegal? ==> v.key == key && v.reason == BadKeyGiven(ParseKey(key).code))
      && (v.approval.Some? <==> v.state.Some?)
      && (v.authorises ==>
            v.state == Some(Granted) && v.reason == None_ && v.approval.Some? && v.approval.value in rows
            && v.approval.value.key == Trim(key) && MayUse(scope, v.approval.value.project) && Live(v.approval.value, now))
      && (!v.authorises && v.approval.None? && ParseKey(key).Legal? ==> v.reason == NoRow)
  {
    hide ParseKey, Trim;
    if ParseKey(key).Legal? {
      KeyRoundTrip(key);
      var candidates := Candidates(rows, Trim(key), scope);
      LastInIs(candidates, Granted, now);
      if LastIn(candidates, Granted, now).Some? { CandidatesAre(rows, Trim(key), scope, LastIn(candidates, Granted, now).value); }
    }
  }

  /** Call i is a grant or a granted request of this key, for a project a consumer in this scope may use. */
  predicate Grants(steps: seq<Timed>, i: nat, key: string, scope: Scope) {
    i < |steps| &&
    match steps[i].op
    case DoRequest(id, project, k) => MayUse(scope, project) && Trim(k) == Trim(key) && exists j :: i <= j < |steps| && IsGrantOf(steps[j].op, id)
    case DoGrantNew(id, project, k, _) => MayUse(scope, project) && Trim(k) == Trim(key)
    case _ => false
  }

  predicate IsGrantOf(op: Op, id: string) { op.DoGrantRequest? && op.id == id && !op.alsoKey }

  /** Over every run: what is authorised was granted, for that very key and for a project that may be used there. */
  lemma AuthorisedWasGranted(steps: seq<Timed>, key: string, now: int, scope: Scope)
    requires Fair(steps) && Judge(Run(steps).rows, key, now, scope).authorises
    ensures exists i: nat :: Grants(steps, i, key, scope)
  {
    hide ParseKey, Trim, Judge, Run, ResolveExpiry;
    var rows := Run(steps).rows;
    AuthorisedIffLive(rows, key, now, scope);
    var k :| 0 <= k < |rows| && rows[k].key == Trim(key) && MayUse(scope, rows[k].project) && Live(rows[k], now);
    RowsComeFromCalls(steps, rows[k]);
    var i: nat :| Born(steps, i, rows[k]);
    if steps[i].op.DoRequest? {
      var j: nat :| GrantedBy(steps, j, rows[k]);
      GrantedLater(steps, i, j, rows[k]);
    }
    assert Grants(steps, i, key, scope);
  }

  /** An identifier is drawn before it is granted. */
  lemma {:induction false} GrantedLater(steps: seq<Timed>, i: nat, j: nat, r: Row)
    requires Fair(steps) && Born(steps, i, r) && steps[i].op.DoRequest? && GrantedBy(steps, j, r) && r in Run(steps).rows
    ensures exists m :: i <= m < |steps| && IsGrantOf(steps[m].op, r.id)
    decreases |steps|
  {
    hide ParseKey, Trim, ResolveExpiry, Run, Judge;
    var before, last := steps[..|steps| - 1], steps[|steps| - 1];
    if i <= j {
      assert IsGrantOf(steps[j].op, r.id);
    } else if i == |steps| - 1 {
      NewIdIsNew(steps);
      assert steps == before + [last];
      NewRowIsOnlyRequested(steps, r);
    } else {
      assert Fair(before) && before[i] == steps[i] && before[j] == steps[j];
      if r in Run(before).rows {
        GrantedLater(before, i, j, r);
        var m :| i <= m < |before| && IsGrantOf(before[m].op, r.id);
        assert steps[m] == before[m];
      } else {
        ChangedOrGranted(steps, r);
        if !IsGrantOf(last.op, r.id) {
          var was :| was in Run(before).rows && SameGrant(was, r);
          assert Born(before, i, was) && GrantedBy(before, j, was);
          GrantedLater(before, i, j, was);
          var m :| i <= m < |before| && IsGrantOf(before[m].op, r.id);
          assert steps[m] == before[m];
        } else {
          assert IsGrantOf(steps[|steps| - 1].op, r.id);
        }
      }
    }
  }

  lemma NewRowIsOnlyRequested(steps: seq<Timed>, r: Row)
    requires steps != [] && steps[|steps| - 1].op.DoRequest? && steps[|steps| - 1].op.id == r.id
    requires RowOf(Run(steps[..|steps| - 1]), r.id).None?
    ensures r in Run(steps).rows ==> r.grantedAt.None?
  {
    NotThere(Run(steps[..|steps| - 1]), r);
  }

  lemma NotThere(s: Store, r: Row)
    requires RowOf(s, r.id).None?
    ensures r !in s.rows
  {
  }

  /** The same row but for the marks that end it. */
  predicate SameGrant(was: Row, r: Row) {
    && was.id == r.id && was.requestedAt == r.requestedAt && was.project == r.project && was.key == r.key
    && was.grantedAt == r.grantedAt && was.expiresAt == r.expiresAt
  }

  lemma ChangedOrGranted(steps: seq<Timed>, r: Row)
    requires steps != [] && r in Run(steps).rows && r !in Run(steps[..|steps| - 1]).rows
    requires NewId(steps[|steps| - 1].op) != Some(r.id)
    ensures
      || IsGrantOf(steps[|steps| - 1].op, r.id)
      || exists was :: was in Run(steps[..|steps| - 1]).rows && SameGrant(was, r)
  {
    hide Apply;
    ChangedByCall(Run(steps[..|steps| - 1]), steps[|steps| - 1].op, steps[|steps| - 1].at, r);
  }

  lemma ChangedByCall(s: Store, op: Op, at: int, r: Row)
    requires r in Apply(s, op, at).rows && r !in s.rows && NewId(op) != Some(r.id)
    ensures IsGrantOf(op, r.id) || exists was :: was in s.rows && SameGrant(was, r)
  {
    hide ParseKey, ResolveExpiry, Trim, Judge, Find;
    match op {
      case DoGrantRequest(id, _, _) =>
      case DoRevoke(id) =>
        if Find(s.rows, id) < |s.rows| { assert SameGrant(s.rows[Find(s.rows, id)], r); }
      case DoDischarge(id) =>
        if Find(s.rows, id) < |s.rows| { assert SameGrant(s.rows[Find(s.rows, id)], r); }
      case _ =>
    }
  }

  /** So a grant made for one project never authorises a consult within another. */
  lemma OtherProjectIsRefused(steps: seq<Timed>, key: string, now: int, mine: string, theirs: string)
    requires Fair(steps) && mine != theirs
    requires forall i :: 0 <= i < |steps| && IsFor(steps[i].op, key) ==> ProjectOf(steps[i].op) == Some(theirs)
    ensures !Judge(Run(steps).rows, key, now, Within(Some(mine))).authorises
  {
    hide Run, Judge, Trim;
    if Judge(Run(steps).rows, key, now, Within(Some(mine))).authorises {
      AuthorisedWasGranted(steps, key, now, Within(Some(mine)));
      var i: nat :| Grants(steps, i, key, Within(Some(mine)));
      GrantsAreFor(steps, i, key, mine);
    }
  }

  lemma GrantsAreFor(steps: seq<Timed>, i: nat, key: string, mine: string)
    requires Grants(steps, i, key, Within(Some(mine)))
    ensures IsFor(steps[i].op, key) && (ProjectOf(steps[i].op).None? || ProjectOf(steps[i].op) == Some(mine))
  {
    hide Trim;
  }

  predicate IsFor(op: Op, key: string) { (op.DoRequest? || op.DoGrantNew?) && Trim(op.key) == Trim(key) }

  function ProjectOf(op: Op): Option<string>
    requires op.DoRequest? || op.DoGrantNew?
  {
    op.project
  }

  // ----- what a refusal tells

  /** Rows of this key that may be used there, now in this state. */
  predicate Is(r: Row, key: string, scope: Scope, state: State, now: int) {
    r.key == Trim(key) && MayUse(scope, r.project) && DeriveState(r, now) == state
  }

  lemma LastInNext(rows: seq<Row>, r: Row, state: State, now: int)
    ensures LastIn(rows + [r], state, now) == if DeriveState(r, now) == state then Some(r) else LastIn(rows, state, now)
  {
    assert (rows + [r])[..|rows|] == rows;
  }

  ghost predicate LatestIs(rows: seq<Row>, key: string, scope: Scope, state: State, now: int, r: Row) {
    exists i :: 0 <= i < |rows| && rows[i] == r && Is(r, key, scope, state, now) && forall j :: i < j < |rows| ==> !Is(rows[j], key, scope, state, now)
  }

  lemma LatestNext(rows: seq<Row>, last: Row, key: string, scope: Scope, state: State, now: int, r: Row)
    requires if Is(last, key, scope, state, now) then r == last else LatestIs(rows, key, scope, state, now, r)
    ensures LatestIs(rows + [last], key, scope, state, now, r)
  {
    hide Is;
    var more := rows + [last];
    if Is(last, key, scope, state, now) {
      assert more[|rows|] == r;
    } else {
      var i :| 0 <= i < |rows| && rows[i] == r && Is(r, key, scope, state, now) && forall j :: i < j < |rows| ==> !Is(rows[j], key, scope, state, now);
      assert more[i] == r;
    }
  }

  lemma {:induction false} LastInIsLast(rows: seq<Row>, key: string, scope: Scope, state: State, now: int)
    ensures
      match LastIn(Candidates(rows, Trim(key), scope), state, now)
      case None => forall i :: 0 <= i < |rows| ==> !Is(rows[i], key, scope, state, now)
      case Some(r) => LatestIs(rows, key, scope, state, now, r)
    decreases |rows|
  {
    hide Trim, LatestIs, DeriveState, LastIn;
    if rows == [] {
      assert LastIn([], state, now).None? by { NoneLast(state, now); }
    } else {
      var before, last := rows[..|rows| - 1], rows[|rows| - 1];
      LastInIsLast(before, key, scope, state, now);
      var cs := Candidates(before, Trim(key), scope);
      LastInNext(cs, last, state, now);
      assert cs + [] == cs && before + [last] == rows;
      assert Is(last, key, scope, state, now) <==> last.key == Trim(key) && InScope(last, scope) && DeriveState(last, now) == state;
      var found := LastIn(Candidates(rows, Trim(key), scope), state, now);
      if found.Some? {
        LatestNext(before, last, key, scope, state, now, found.value);
      } else {
        assert forall i :: 0 <= i < |before| ==> before[i] == rows[i];
      }
    }
  }

  lemma NoneLast(state: State, now: int)
    ensures LastIn([], state, now).None?
  {
  }

  /** The verdict speaks of the latest row in its state. */
  lemma VerdictNamesLatest(rows: seq<Row>, key: string, now: int, scope: Scope)
    requires Judge(rows, key, now, scope).approval.Some?
    ensures
      var v := Judge(rows, key, now, scope);
      && v.state.Some?
      && LatestIs(rows, key, scope, v.state.value, now, v.approval.value)
  {
    hide Is, Candidates, LastIn, LatestIs;
    KeyRoundTrip(key);
    LastInIsLast(rows, key, scope, Granted, now);
    LastInIsLast(rows, key, scope, Expired, now);
    LastInIsLast(rows, key, scope, Revoked, now);
    LastInIsLast(rows, key, scope, Discharged, now);
    LastInIsLast(rows, key, scope, Requested, now);
    StatesFit(Candidates(rows, Trim(key), scope), now);
  }

  lemma StatesFit(rows: seq<Row>, now: int)
    ensures forall state :: LastIn(rows, state, now).Some? ==> DeriveState(LastIn(rows, state, now).value, now) == state
  {
    forall state | LastIn(rows, state, now).Some? ensures DeriveState(LastIn(rows, state, now).value, now) == state { LastInIs(rows, state, now); }
  }

  ghost function Positions(rows: seq<Row>, state: State, now: int): set<int> {
    set i | 0 <= i < |rows| && DeriveState(rows[i], now) == state
  }

  lemma {:induction false} CountInIs(rows: seq<Row>, state: State, now: int)
    ensures CountIn(rows, state, now) == |Positions(rows, state, now)|
    decreases |rows|
  {
    if rows != [] {
      var n := |rows| - 1;
      CountInIs(rows[..n], state, now);
      assert Positions(rows, state, now) == Positions(rows[..n], state, now) + if DeriveState(rows[n], now) == state then {n} else {};
    }
  }

  /** A refusal about another row also says how many requests for the key are pending. */
  lemma PendingIsCounted(rows: seq<Row>, key: string, now: int, scope: Scope)
    requires Judge(rows, key, now, scope).reason.RowIs?
    ensures
      var v := Judge(rows, key, now, scope);
      && v.state == Some(v.reason.state)
      && v.reason.pending == if v.reason.state == Requested then 0 else |Positions(Candidates(rows, Trim(key), scope), Requested, now)|
  {
    KeyRoundTrip(key);
    CountInIs(Candidates(rows, Trim(key), scope), Requested, now);
  }

  /** A recorded consult leaves one attempt: what was asked, which row answered and in which state, and the answer. */
  lemma AttemptIsRecorded(s: Store, key: string, now: int, scope: Scope, record: bool)
    ensures
      var (v, t) := Consult(s, key, now, scope, record);
      && t.rows == s.rows && v == Judge(s.rows, key, now, scope)
      && t.events == if record then s.events + [AttemptEvent(key, if v.approval.Some? then Some(v.approval.value.id) else None, v.state, v.authorises)] else s.events
  {
  }
}
