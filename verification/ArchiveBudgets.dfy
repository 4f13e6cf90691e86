/**
 How much budget a scan needs.  What an archive tree raises by itself is told apart from what it raises because
 the shared budget ran out: a scan under a smaller budget is clean iff the scan under a larger one is clean and
 every container and member of that scan can be paid for in turn.
 */
module ArchiveBudgets {

  import opened Archives
  import opened ArchiveTheorems
  import opened Findings
  import opened Options
  import opened Sequences

  /** A tar reader that offers a stream for every regular member. */
  predicate Streams(ms: seq<Member>) {
    forall i :: 0 <= i < |ms| && ms[i].TarMember? && ms[i].isFile ==> !ms[i].content.NoStream?
  }

  /**
   What the libraries promise: a limited reader passes the stream on unchanged until its limit, and raises once
   more is needed.
   */
  ghost predicate Honest(env: Env) {
    && (forall data, n :: n >= env.need(data) ==> env.tar(data, UpTo(n)) == env.tar(data, Unlimited))
    && (forall data, n :: n < env.need(data) ==> env.tar(data, UpTo(n)).TooLong? || (env.tar(data, UpTo(n)).Tar? && !env.tar(data, UpTo(n)).ending.Ends?))
    && (forall data, l :: env.tar(data, l).Tar? ==> Streams(env.tar(data, l).members))
  }

  /** A container whose tar decoding goes through the limited reader. */
  predicate NeedsTarLimit(path: string, data: Bytes) { IsGzip(data) && !OpensAsZip(path, data) }

  /** Every container and member, in order, fits the budget that is then left. */
  predicate Affordable(env: Env, cfg: Config, events: seq<Event>, b: Budget)
    decreases |events|
  {
    events == [] ||
    match events[0]
    case Analysed(_, _, data) =>
      b.members > 0 && |data| <= b.bytes && Affordable(env, cfg, events[1..], Budget(b.bytes - |data|, b.members - 1))
    case Opened(path, data, _) =>
      (NeedsTarLimit(path, data) ==> TarLimit(cfg, b) >= env.need(data)) && Affordable(env, cfg, events[1..], b)
    case _ => Affordable(env, cfg, events[1..], b)
  }

  lemma {:induction false} AffordableConcat(env: Env, cfg: Config, a: seq<Event>, c: seq<Event>, b: Budget)
    ensures Affordable(env, cfg, a + c, b) <==> Affordable(env, cfg, a, b) && Affordable(env, cfg, c, Spend(b, a))
    decreases |a|
  {
    if a == [] {
      assert a + c == c;
    } else {
      Tail(a, c);
      AffordableConcat(env, cfg, a[1..], c, if a[0].Analysed? then Budget(b.bytes - |a[0].data|, b.members - 1) else b);
    }
  }

  lemma CleanConcat(a: seq<Event>, c: seq<Event>)
    ensures Clean(a + c) <==> Clean(a) && Clean(c)
  {
    ConcatIssues(a, c);
  }

  lemma {:induction false} Harmless(env: Env, cfg: Config, events: seq<Event>, b: Budget)
    requires forall i :: 0 <= i < |events| ==> events[i].Reported?
    ensures Clean(events) && Affordable(env, cfg, events, b) && Spend(b, events) == b
    decreases |events|
  {
    if events != [] {
      assert events[0].Reported?;
      assert forall i :: 0 <= i < |events[1..]| ==> events[1..][i] == events[i + 1];
      Harmless(env, cfg, events[1..], b);
    }
  }

  /** Events that are one name report, if any, and one more event. */
  lemma OneMore(env: Env, cfg: Config, named: seq<Event>, last: Event, b: Budget)
    requires forall i :: 0 <= i < |named| ==> named[i].Reported?
    requires last.Raised? || last.Analysed?
    ensures Clean(named + [last]) <==> last.Analysed?
    ensures last.Analysed? ==> Spend(b, named + [last]) == Budget(b.bytes - |last.data|, b.members - 1)
    ensures last.Analysed? ==> (Affordable(env, cfg, named + [last], b) <==> b.members > 0 && |last.data| <= b.bytes)
  {
    Harmless(env, cfg, named, b);
    var tail := [last];
    assert tail[1..] == [] && tail[0] == last;
    assert IssuesOf(tail) == if last.Raised? then [last.issue] else [];
    CleanConcat(named, tail);
    AffordableConcat(env, cfg, named, tail, b);
    if last.Analysed? { Paid(named, last.at, last.path, last.data); }
  }

  /** What one member adds is clean unless it is an issue, and costs what was analysed. */
  lemma StepIsClean(env: Env, cfg: Config, at: Route, path: string, dataLen: nat, ms: seq<Member>, i: nat, unpacked: nat, b: Budget, purse: Budget)
    requires i < |ms| && Streams(ms)
    ensures
      var s := StepMember(cfg, at, path, dataLen, ms, i, unpacked, b);
      && (Clean(StepEvents(s)) <==> s.last.None? || s.last.value.Analysed?)
      && (s.halts ==> !Clean(StepEvents(s)))
      && (Clean(StepEvents(s)) ==> s.b == Spend(b, StepEvents(s)))
      && (s.last.None? ==> Affordable(env, cfg, StepEvents(s), purse))
      && (s.last.Some? && s.last.value.Analysed? ==> (Affordable(env, cfg, StepEvents(s), purse) <==> purse.members > 0 && |s.last.value.data| <= purse.bytes))
  {
    StepShape(cfg, at, path, dataLen, ms, i, unpacked, b);
    var s := StepMember(cfg, at, path, dataLen, ms, i, unpacked, b);
    assert s.last.None? ==> s.b == b;
    Harmless(env, cfg, s.named, b);
    Harmless(env, cfg, s.named, purse);
    if s.last.Some? {
      OneMore(env, cfg, s.named, s.last.value, b);
      OneMore(env, cfg, s.named, s.last.value, purse);
    }
  }

  lemma JudgeLocks(cfg: Config, path: string, m: Member, dataLen: nat, unpacked: nat, b: Budget, large: Budget)
    requires AtMost(b, large)
    ensures
      var j, k := Judge(cfg, path, m, dataLen, unpacked, b), Judge(cfg, path, m, dataLen, unpacked, large);
      match k
      case Stop(_) => j.Stop?
      case Take => if b.members > 0 && m.size <= b.bytes then j.Take? else j.Stop?
      case _ => j == k
  {
  }

  lemma GoodFits(cfg: Config, path: string, m: Member)
    ensures Read(cfg, path, m).Good? ==> |Read(cfg, path, m).bytes| == m.size
  {
  }

  /** One member under the small and under the large budget. */
  lemma StepLocks(cfg: Config, at: Route, path: string, dataLen: nat, ms: seq<Member>, i: nat, unpacked: nat, b: Budget, large: Budget)
    requires i < |ms| && AtMost(b, large)
    ensures
      var s, t := StepMember(cfg, at, path, dataLen, ms, i, unpacked, b), StepMember(cfg, at, path, dataLen, ms, i, unpacked, large);
      if t.last.Some? && t.last.value.Analysed? then
        if b.members > 0 && |t.last.value.data| <= b.bytes then s == t.(b := s.b) else s.last.Some? && s.last.value.Raised?
      else if t.last.None? && t.b == large then s == t.(b := b)
      else if t.last.Some? then s.last.Some? && s.last.value.Raised?
      else true
  {
    hide Judge, Read;
    JudgeLocks(cfg, path, ms[i], dataLen, unpacked, b, large);
    GoodFits(cfg, path, ms[i]);
  }

  /** Both scans agree on a member that is clean and affordable, and only on such. */
  lemma StepsAgree(env: Env, cfg: Config, at: Route, path: string, dataLen: nat, ms: seq<Member>, i: nat, unpacked: nat, b: Budget, large: Budget)
    requires i < |ms| && Streams(ms) && AtMost(b, large)
    ensures
      var s, t := StepMember(cfg, at, path, dataLen, ms, i, unpacked, b), StepMember(cfg, at, path, dataLen, ms, i, unpacked, large);
      && (Clean(StepEvents(s)) <==> Clean(StepEvents(t)) && Affordable(env, cfg, StepEvents(t), b))
      && (Clean(StepEvents(s)) ==>
            && StepEvents(s) == StepEvents(t) && s.archive == t.archive && s.unpacked == t.unpacked && !s.halts && !t.halts
            && s.b == Spend(b, StepEvents(s)) && t.b == Spend(large, StepEvents(s)))
  {
    StepIsClean(env, cfg, at, path, dataLen, ms, i, unpacked, b, b);
    StepIsClean(env, cfg, at, path, dataLen, ms, i, unpacked, large, b);
    StepLocks(cfg, at, path, dataLen, ms, i, unpacked, b, large);
    StepShape(cfg, at, path, dataLen, ms, i, unpacked, large);
    Harmless(env, cfg, StepMember(cfg, at, path, dataLen, ms, i, unpacked, large).named, large);
    hide StepMember;
  }

  lemma SpendConcat(b: Budget, a: seq<Event>, c: seq<Event>)
    ensures Spend(b, a + c) == Spend(Spend(b, a), c)
  {
    Concat(a, c);
  }

  // ----- a clean scan spends exactly what it analysed

  lemma {:induction false} MembersSpend(
      env: Env, cfg: Config, at: Route, path: string, dataLen: nat, ms: seq<Member>, ending: Ending, i: nat, unpacked: nat, depth: nat, b: Budget)
    requires Honest(env) && i <= |ms| && depth <= cfg.maxDepth && Streams(ms)
    ensures
      var o := ScanMembers(env, cfg, at, path, dataLen, ms, ending, i, unpacked, depth, b);
      Clean(o.events) ==> ending.Ends? && o.budget == Spend(b, o.events)
    decreases cfg.maxDepth + 1 - depth, 0, |ms| - i
  {
    hide StepMember;
    if i < |ms| {
      StepIsClean(env, cfg, at, path, dataLen, ms, i, unpacked, b, b);
      var s := StepMember(cfg, at, path, dataLen, ms, i, unpacked, b);
      if !s.halts {
        var nested := NestedOut(env, cfg, at, path, s, i, ms[i].name, depth);
        if s.archive.Some? { ArchiveSpends(env, cfg, at + [i], Inside(path, ms[i].name), s.archive.value, depth + 1, s.b); }
        MembersSpend(env, cfg, at, path, dataLen, ms, ending, i + 1, s.unpacked, depth, nested.budget);
        var rest := ScanMembers(env, cfg, at, path, dataLen, ms, ending, i + 1, s.unpacked, depth, nested.budget);
        CleanConcat(StepEvents(s) + nested.events, rest.events);
        CleanConcat(StepEvents(s), nested.events);
        SpendConcat(b, StepEvents(s) + nested.events, rest.events);
        SpendConcat(b, StepEvents(s), nested.events);
      }
    }
  }

  lemma OpenedFirst(env: Env, cfg: Config, first: Event, rest: seq<Event>, b: Budget)
    requires first.Opened?
    ensures Clean([first] + rest) <==> Clean(rest)
    ensures Spend(b, [first] + rest) == Spend(b, rest)
    ensures Affordable(env, cfg, [first] + rest, b) <==>
            (NeedsTarLimit(first.path, first.data) ==> TarLimit(cfg, b) >= env.need(first.data)) && Affordable(env, cfg, rest, b)
  {
    assert ([first] + rest)[0] == first && ([first] + rest)[1..] == rest;
  }

  lemma AnalysedOnly(env: Env, cfg: Config, at: Route, path: string, data: Bytes, b: Budget)
    ensures
      var events := [Analysed(at, path, data)];
      && Clean(events) && Spend(b, events) == Budget(b.bytes - |data|, b.members - 1)
      && (Affordable(env, cfg, events, b) <==> b.members > 0 && |data| <= b.bytes)
  {
    assert [] + [Analysed(at, path, data)] == [Analysed(at, path, data)];
    OneMore(env, cfg, [], Analysed(at, path, data), b);
  }

  lemma RaisedOnly(issue: Issue)
    ensures !Clean([Raised(issue)])
  {
  }

  lemma {:induction false} ArchiveSpends(env: Env, cfg: Config, at: Route, path: string, data: Bytes, depth: nat, b: Budget)
    requires Honest(env)
    ensures
      var o := ScanArchive(env, cfg, at, path, data, depth, b);
      Clean(o.events) ==> o.budget == Spend(b, o.events)
    decreases if depth <= cfg.maxDepth then cfg.maxDepth + 1 - depth else 0, 2, 0
  {
    if depth <= cfg.maxDepth {
      var first := Opened(path, data, depth);
      if OpensAsZip(path, data) {
        if env.preflight(data).None? && env.zip(data).Zip? {
          var ms := env.zip(data).members;
          if |ms| <= cfg.maxMembers {
            MembersSpend(env, cfg, at, path, |data|, ms, Ends, 0, 0, depth, b);
            OpenedFirst(env, cfg, first, ScanMembers(env, cfg, at, path, |data|, ms, Ends, 0, 0, depth, b).events, b);
          } else {
            OpenedThenRaised(first, Issue(path, "archive-limit"));
          }
        }
      } else if !ReportsTooMuch(cfg, data) {
        var t := OpenTar(env, cfg, data, b);
        if t.Tar? {
          MembersSpend(env, cfg, at, path, |data|, t.members, t.ending, 0, 0, depth, b);
          OpenedFirst(env, cfg, first, ScanMembers(env, cfg, at, path, |data|, t.members, t.ending, 0, 0, depth, b).events, b);
        } else if t.NotTar? && IsGzip(data) && !NamedTar(path) {
          GzipSpends(env, cfg, at, path, data, depth, b);
        }
      }
    }
  }

  lemma GzipSpends(env: Env, cfg: Config, at: Route, path: string, data: Bytes, depth: nat, b: Budget)
    ensures var o := ScanGzip(env, cfg, at, path, data, depth, b); Clean(o.events) ==> o.budget == Spend(b, o.events)
  {
    var first := Opened(path, data, depth);
    var o := ScanGzip(env, cfg, at, path, data, depth, b);
    assert o.events == [first] + [o.events[1]];
    OpenedFirst(env, cfg, first, [o.events[1]], b);
    if o.events[1].Raised? {
      RaisedOnly(o.events[1].issue);
    } else {
      AnalysedOnly(env, cfg, at + [0], PayloadPath(path), o.events[1].data, b);
    }
  }

  lemma OpenedThenRaised(first: Event, issue: Issue)
    requires first.Opened?
    ensures !Clean([first, Raised(issue)])
  {
    assert [first, Raised(issue)] == [first] + [Raised(issue)];
    CleanConcat([first], [Raised(issue)]);
  }

  // ----- lockstep

  /** The small scan is clean iff the large one is and can be paid for; then they do the same. */
  ghost predicate Locked(env: Env, cfg: Config, b: Budget, small: Out, large: Out) {
    && (Clean(small.events) <==> Clean(large.events) && Affordable(env, cfg, large.events, b))
    && (Clean(small.events) ==> small.events == large.events)
  }

  lemma ThenLocked(env: Env, cfg: Config, b: Budget, before: seq<Event>, small: Out, large: Out)
    requires Clean(before) && Affordable(env, cfg, before, b) && Locked(env, cfg, Spend(b, before), small, large)
    ensures Locked(env, cfg, b, Then(before, small), Then(before, large))
  {
    CleanConcat(before, small.events);
    CleanConcat(before, large.events);
    AffordableConcat(env, cfg, before, large.events, b);
  }

  lemma {:induction false} MembersLocked(
      env: Env, cfg: Config, at: Route, path: string, dataLen: nat, ms: seq<Member>, ending: Ending, i: nat, unpacked: nat, depth: nat,
      b: Budget, large: Budget)
    requires Honest(env) && i <= |ms| && depth <= cfg.maxDepth && Streams(ms) && AtMost(b, large)
    ensures Locked(env, cfg, b, ScanMembers(env, cfg, at, path, dataLen, ms, ending, i, unpacked, depth, b),
                   ScanMembers(env, cfg, at, path, dataLen, ms, ending, i, unpacked, depth, large))
    decreases cfg.maxDepth + 1 - depth, 0, |ms| - i
  {
    hide StepMember, Affordable, IssuesOf, BytesOf, MembersOf, StepEvents;
    if i < |ms| {
      var s, t := StepMember(cfg, at, path, dataLen, ms, i, unpacked, b), StepMember(cfg, at, path, dataLen, ms, i, unpacked, large);
      StepsAgree(env, cfg, at, path, dataLen, ms, i, unpacked, b, large);
      if !Clean(StepEvents(s)) {
        MembersStartWith(env, cfg, at, path, dataLen, ms, ending, i, unpacked, depth, b);
        MembersStartWith(env, cfg, at, path, dataLen, ms, ending, i, unpacked, depth, large);
        Spoiled(env, cfg, b, StepEvents(s), StepEvents(t), ScanMembers(env, cfg, at, path, dataLen, ms, ending, i, unpacked, depth, b),
                ScanMembers(env, cfg, at, path, dataLen, ms, ending, i, unpacked, depth, large));
      } else {
        var n, m := NestedOut(env, cfg, at, path, s, i, ms[i].name, depth), NestedOut(env, cfg, at, path, t, i, ms[i].name, depth);
        if s.archive.Some? {
          ArchiveLocked(env, cfg, at + [i], Inside(path, ms[i].name), s.archive.value, depth + 1, s.b, t.b);
        } else {
          NothingLocked(env, cfg, s.b);
        }
        var rn := ScanMembers(env, cfg, at, path, dataLen, ms, ending, i + 1, s.unpacked, depth, n.budget);
        var rm := ScanMembers(env, cfg, at, path, dataLen, ms, ending, i + 1, t.unpacked, depth, m.budget);
        if Clean(n.events) {
          NestedSpends(env, cfg, at, path, s, i, ms[i].name, depth);
          NestedSpends(env, cfg, at, path, t, i, ms[i].name, depth);
          MembersLocked(env, cfg, at, path, dataLen, ms, ending, i + 1, s.unpacked, depth, n.budget, m.budget);
        }
        StepsLocked(env, cfg, b, StepEvents(s), n, m, rn, rm);
      }
    } else {
      EndLocked(env, cfg, path, ending, b);
    }
  }

  lemma EndLocked(env: Env, cfg: Config, path: string, ending: Ending, b: Budget)
    ensures Affordable(env, cfg, EndEvents(path, ending), b)
  {
  }

  lemma NothingLocked(env: Env, cfg: Config, b: Budget)
    ensures Clean([]) && Affordable(env, cfg, [], b) && Spend(b, []) == b
  {
  }

  lemma MembersStartWith(
      env: Env, cfg: Config, at: Route, path: string, dataLen: nat, ms: seq<Member>, ending: Ending, i: nat, unpacked: nat, depth: nat, b: Budget)
    requires i < |ms| && depth <= cfg.maxDepth
    ensures StepEvents(StepMember(cfg, at, path, dataLen, ms, i, unpacked, b)) <=
            ScanMembers(env, cfg, at, path, dataLen, ms, ending, i, unpacked, depth, b).events
  {
    hide StepMember;
  }

  lemma Spoiled(env: Env, cfg: Config, b: Budget, before: seq<Event>, before': seq<Event>, small: Out, large: Out)
    requires before <= small.events && before' <= large.events
    requires !Clean(before) && !(Clean(before') && Affordable(env, cfg, before', b))
    ensures Locked(env, cfg, b, small, large)
  {
    var x, y := small.events[|before|..], large.events[|before'|..];
    assert small.events == before + x && large.events == before' + y;
    CleanConcat(before, x);
    CleanConcat(before', y);
    AffordableConcat(env, cfg, before', y, b);
  }

  /** One step of both scans: the same events, then the nested archive, then the members after it. */
  lemma StepsLocked(env: Env, cfg: Config, b: Budget, before: seq<Event>, n: Out, m: Out, rn: Out, rm: Out)
    requires Clean(before) && Affordable(env, cfg, before, b) && Locked(env, cfg, Spend(b, before), n, m)
    requires Clean(n.events) ==> Locked(env, cfg, Spend(Spend(b, before), n.events), rn, rm)
    ensures Locked(env, cfg, b, Then(before + n.events, rn), Then(before + m.events, rm))
  {
    ThenLocked(env, cfg, b, before, n, m);
    CleanConcat(before, n.events);
    CleanConcat(before, m.events);
    AffordableConcat(env, cfg, before, m.events, b);
    if Clean(n.events) {
      SpendConcat(b, before, n.events);
      ThenLocked(env, cfg, b, before + n.events, rn, rm);
    } else {
      Spoiled(env, cfg, b, before + n.events, before + m.events, Then(before + n.events, rn), Then(before + m.events, rm));
    }
  }

  lemma NestedSpends(env: Env, cfg: Config, at: Route, path: string, s: Step, i: nat, name: string, depth: nat)
    requires Honest(env) && depth <= cfg.maxDepth
    ensures var n := NestedOut(env, cfg, at, path, s, i, name, depth); Clean(n.events) ==> n.budget == Spend(s.b, n.events)
  {
    if s.archive.Some? { ArchiveSpends(env, cfg, at + [i], Inside(path, name), s.archive.value, depth + 1, s.b); }
  }

  /**
   For every archive tree and any two budgets, one at most the other: the scan under the smaller is clean iff
   the scan under the larger is clean and each container and member of it, in order, fits what is then left.
   A clean scan is the same under both.
   */
  lemma {:induction false} ArchiveLocked(env: Env, cfg: Config, at: Route, path: string, data: Bytes, depth: nat, b: Budget, large: Budget)
    requires Honest(env) && AtMost(b, large)
    ensures Locked(env, cfg, b, ScanArchive(env, cfg, at, path, data, depth, b), ScanArchive(env, cfg, at, path, data, depth, large))
    decreases if depth <= cfg.maxDepth then cfg.maxDepth + 1 - depth else 0, 2, 0
  {
    if depth <= cfg.maxDepth {
      if OpensAsZip(path, data) {
        ZipLocked(env, cfg, at, path, data, depth, b, large);
      } else if !ReportsTooMuch(cfg, data) {
        TarLocked(env, cfg, at, path, data, depth, b, large);
      }
    }
  }

  lemma {:induction false} ZipLocked(env: Env, cfg: Config, at: Route, path: string, data: Bytes, depth: nat, b: Budget, large: Budget)
    requires Honest(env) && AtMost(b, large) && depth <= cfg.maxDepth && OpensAsZip(path, data)
    ensures Locked(env, cfg, b, ScanZip(env, cfg, at, path, data, depth, b), ScanZip(env, cfg, at, path, data, depth, large))
    decreases cfg.maxDepth + 1 - depth, 1, 0
  {
    var first := Opened(path, data, depth);
    if env.preflight(data).None? && env.zip(data).Zip? {
      var ms := env.zip(data).members;
      if |ms| <= cfg.maxMembers {
        MembersLocked(env, cfg, at, path, |data|, ms, Ends, 0, 0, depth, b, large);
        OpenedFirst(env, cfg, first, ScanMembers(env, cfg, at, path, |data|, ms, Ends, 0, 0, depth, b).events, b);
        OpenedFirst(env, cfg, first, ScanMembers(env, cfg, at, path, |data|, ms, Ends, 0, 0, depth, large).events, b);
      } else {
        OpenedThenRaised(first, Issue(path, "archive-limit"));
      }
    }
  }

  lemma OverranIsNeverClean(env: Env, cfg: Config, at: Route, path: string, data: Bytes, depth: nat, b: Budget)
    requires Honest(env) && depth <= cfg.maxDepth && IsGzip(data) && TarLimit(cfg, b) < env.need(data)
    ensures !Clean(ScanTar(env, cfg, at, path, data, depth, b).events)
  {
    var t := OpenTar(env, cfg, data, b);
    if t.Tar? && !ReportsTooMuch(cfg, data) {
      MembersSpend(env, cfg, at, path, |data|, t.members, t.ending, 0, 0, depth, b);
      OpenedFirst(env, cfg, Opened(path, data, depth), ScanMembers(env, cfg, at, path, |data|, t.members, t.ending, 0, 0, depth, b).events, b);
    }
  }

  lemma TarOpensFirst(env: Env, cfg: Config, at: Route, path: string, data: Bytes, depth: nat, b: Budget, purse: Budget)
    requires depth <= cfg.maxDepth && !OpensAsZip(path, data) && IsGzip(data) && TarLimit(cfg, purse) < env.need(data)
    ensures var o := ScanTar(env, cfg, at, path, data, depth, b); Clean(o.events) ==> !Affordable(env, cfg, o.events, purse)
  {
    var o := ScanTar(env, cfg, at, path, data, depth, b);
    if |o.events| == 1 && o.events[0].Raised? { RaisedOnly(o.events[0].issue); }
  }

  lemma GzipLocked(env: Env, cfg: Config, at: Route, path: string, data: Bytes, depth: nat, b: Budget, large: Budget)
    requires AtMost(b, large) && (NeedsTarLimit(path, data) ==> TarLimit(cfg, b) >= env.need(data))
    ensures Locked(env, cfg, b, ScanGzip(env, cfg, at, path, data, depth, b), ScanGzip(env, cfg, at, path, data, depth, large))
  {
    var first := Opened(path, data, depth);
    var o, q := ScanGzip(env, cfg, at, path, data, depth, b), ScanGzip(env, cfg, at, path, data, depth, large);
    if o.events[1].Raised? { OpenedThenRaised(first, o.events[1].issue); }
    if q.events[1].Raised? { OpenedThenRaised(first, q.events[1].issue); }
    assert o.events == [first] + [o.events[1]] && q.events == [first] + [q.events[1]];
    OpenedFirst(env, cfg, first, [o.events[1]], b);
    OpenedFirst(env, cfg, first, [q.events[1]], b);
    var payload := env.gunzip(data).bytes;
    AnalysedOnly(env, cfg, at + [0], PayloadPath(path), payload, b);
  }

  lemma {:induction false} TarLocked(env: Env, cfg: Config, at: Route, path: string, data: Bytes, depth: nat, b: Budget, large: Budget)
    requires Honest(env) && AtMost(b, large) && depth <= cfg.maxDepth && !OpensAsZip(path, data) && !ReportsTooMuch(cfg, data)
    ensures Locked(env, cfg, b, ScanTar(env, cfg, at, path, data, depth, b), ScanTar(env, cfg, at, path, data, depth, large))
    decreases cfg.maxDepth + 1 - depth, 1, 0
  {
    if IsGzip(data) && TarLimit(cfg, b) < env.need(data) {
      OverranIsNeverClean(env, cfg, at, path, data, depth, b);
      TarOpensFirst(env, cfg, at, path, data, depth, large, b);
    } else {
      var t := OpenTar(env, cfg, data, b);
      assert t == OpenTar(env, cfg, data, large);
      var first := Opened(path, data, depth);
      if t.Tar? {
        MembersLocked(env, cfg, at, path, |data|, t.members, t.ending, 0, 0, depth, b, large);
        OpenedFirst(env, cfg, first, ScanMembers(env, cfg, at, path, |data|, t.members, t.ending, 0, 0, depth, b).events, b);
        OpenedFirst(env, cfg, first, ScanMembers(env, cfg, at, path, |data|, t.members, t.ending, 0, 0, depth, large).events, b);
      } else if t.NotTar? && IsGzip(data) && !NamedTar(path) {
        GzipLocked(env, cfg, at, path, data, depth, b, large);
      }
    }
  }
}
