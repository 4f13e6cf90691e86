/**
 Incomplete never looks clean.  A member is named by its route, the indices to follow from the outermost
 archive.  After a scan without issues the members analysed are exactly those a route leads to, except below
 the payload of a plain gzip, which is analysed but never opened.
 */
module ArchiveCompleteness {

  import opened Archives
  import opened ArchiveTheorems
  import opened ArchiveBudgets
  import opened Findings
  import opened Options

  datatype Node = Node(path: string, data: Bytes)

  // ----- the members of a container, as the libraries decode it without limits

  /** A regular member and its content. */
  function MemberNode(path: string, m: Member): Option<Node> {
    match m
    case TarMember(name, isFile, _, content) =>
      if isFile && content.Delivers? then Some(Node(Inside(path, name), content.bytes)) else None
    case ZipMember(name, isDir, _, _, _, _, _, packed) =>
      if isDir || packed.broken then None else Some(Node(Inside(path, name), packed.bytes))
  }

  /** A gzip stream that holds no tar: one payload. */
  predicate IsPlainGzip(env: Env, path: string, data: Bytes) {
    !OpensAsZip(path, data) && IsGzip(data) && !NamedTar(path) && env.tar(data, Unlimited).NotTar?
  }

  function MembersOfArchive(env: Env, path: string, data: Bytes): seq<Member> {
    if OpensAsZip(path, data) then if env.zip(data).Zip? then env.zip(data).members else []
    else if env.tar(data, Unlimited).Tar? then env.tar(data, Unlimited).members else []
  }

  function Child(env: Env, path: string, data: Bytes, i: nat): Option<Node> {
    if IsPlainGzip(env, path, data) then if i == 0 then Some(Node(PayloadPath(path), env.gunzip(data).bytes)) else None
    else if i < |MembersOfArchive(env, path, data)| then MemberNode(path, MembersOfArchive(env, path, data)[i]) else None
  }

  /** The regular member at the end of a route whose every earlier stop is an archive. */
  function Descend(env: Env, path: string, data: Bytes, route: Route): Option<Node>
    decreases |route|
  {
    if route == [] then None else DescendInto(env, Child(env, path, data, route[0]), route)
  }

  function DescendInto(env: Env, child: Option<Node>, route: Route): Option<Node>
    requires route != []
    decreases |route|, 0
  {
    if child.None? || |route| == 1 then child
    else if IsArchivePath(child.value.path, child.value.data) then Descend(env, child.value.path, child.value.data, route[1..])
    else None
  }

  /** The route passes through the payload of a plain gzip to something inside it. */
  predicate Crosses(env: Env, path: string, data: Bytes, route: Route)
    decreases |route|
  {
    |route| > 1 && (IsPlainGzip(env, path, data) || CrossesBelow(env, Child(env, path, data, route[0]), route))
  }

  predicate CrossesBelow(env: Env, child: Option<Node>, route: Route)
    requires |route| > 1
    decreases |route|, 0
  {
    child.Some? && Crosses(env, child.value.path, child.value.data, route[1..])
  }

  // ----- events carry the route of what they are about

  ghost predicate Below(events: seq<Event>, at: Route, from: nat) {
    forall e :: e in events && e.Analysed? ==> at < e.at && from <= e.at[|at|]
  }

  lemma BelowStep(events: seq<Event>, at: Route, i: nat, from: nat)
    requires Below(events, at + [i], 0) && from <= i
    ensures Below(events, at, from)
  {
    forall e | e in events && e.Analysed? ensures at < e.at && from <= e.at[|at|] {
      assert at + [i] < e.at;
      assert e.at[|at|] == (at + [i])[|at|];
    }
  }

  lemma StepBelow(cfg: Config, at: Route, path: string, dataLen: nat, ms: seq<Member>, i: nat, unpacked: nat, b: Budget)
    requires i < |ms|
    ensures Below(StepEvents(StepMember(cfg, at, path, dataLen, ms, i, unpacked, b)), at, i)
  {
    StepShape(cfg, at, path, dataLen, ms, i, unpacked, b);
    var s := StepMember(cfg, at, path, dataLen, ms, i, unpacked, b);
    assert forall e :: e in s.named ==> e.Reported?;
    assert s.last.Some? && s.last.value.Analysed? ==> s.last.value.at == at + [i];
  }

  lemma BelowConcat(a: seq<Event>, c: seq<Event>, at: Route, from: nat)
    requires Below(a, at, from) && Below(c, at, from)
    ensures Below(a + c, at, from)
  {
  }

  lemma BelowWeaken(a: seq<Event>, at: Route, from: nat, from': nat)
    requires Below(a, at, from) && from' <= from
    ensures Below(a, at, from')
  {
  }

  lemma {:induction false} MembersBelow(
      env: Env, cfg: Config, at: Route, path: string, dataLen: nat, ms: seq<Member>, ending: Ending, i: nat, unpacked: nat, depth: nat, b: Budget)
    requires i <= |ms| && depth <= cfg.maxDepth
    ensures Below(ScanMembers(env, cfg, at, path, dataLen, ms, ending, i, unpacked, depth, b).events, at, i)
    decreases cfg.maxDepth + 1 - depth, 0, |ms| - i
  {
    hide StepMember, StepEvents, Below;
    if i == |ms| {
      QuietBelow(EndEvents(path, ending), at, i);
    } else {
      StepBelow(cfg, at, path, dataLen, ms, i, unpacked, b);
      var s := StepMember(cfg, at, path, dataLen, ms, i, unpacked, b);
      if !s.halts {
        var nested := NestedOut(env, cfg, at, path, s, i, ms[i].name, depth);
        if s.archive.Some? {
          ArchiveBelow(env, cfg, at + [i], Inside(path, ms[i].name), s.archive.value, depth + 1, s.b);
          BelowStep(nested.events, at, i, i);
        } else {
          QuietBelow([], at, i);
        }
        var rest := ScanMembers(env, cfg, at, path, dataLen, ms, ending, i + 1, s.unpacked, depth, nested.budget);
        MembersBelow(env, cfg, at, path, dataLen, ms, ending, i + 1, s.unpacked, depth, nested.budget);
        BelowWeaken(rest.events, at, i + 1, i);
        BelowConcat(StepEvents(s), nested.events, at, i);
        BelowConcat(StepEvents(s) + nested.events, rest.events, at, i);
      }
    }
  }

  lemma QuietBelow(events: seq<Event>, at: Route, from: nat)
    requires forall i :: 0 <= i < |events| ==> !events[i].Analysed?
    ensures Below(events, at, from)
  {
  }

  lemma {:induction false} ArchiveBelow(env: Env, cfg: Config, at: Route, path: string, data: Bytes, depth: nat, b: Budget)
    ensures Below(ScanArchive(env, cfg, at, path, data, depth, b).events, at, 0)
    decreases if depth <= cfg.maxDepth then cfg.maxDepth + 1 - depth else 0, 2, 0
  {
    var first := [Opened(path, data, depth)];
    if depth <= cfg.maxDepth {
      if OpensAsZip(path, data) {
        if env.preflight(data).None? && env.zip(data).Zip? && |env.zip(data).members| <= cfg.maxMembers {
          MembersBelow(env, cfg, at, path, |data|, env.zip(data).members, Ends, 0, 0, depth, b);
          BelowConcat(first, ScanMembers(env, cfg, at, path, |data|, env.zip(data).members, Ends, 0, 0, depth, b).events, at, 0);
        }
      } else if OpenTar(env, cfg, data, b).Tar? {
        var t := OpenTar(env, cfg, data, b);
        MembersBelow(env, cfg, at, path, |data|, t.members, t.ending, 0, 0, depth, b);
        BelowConcat(first, ScanMembers(env, cfg, at, path, |data|, t.members, t.ending, 0, 0, depth, b).events, at, 0);
      }
    }
  }

  // ----- what a clean scan analysed

  ghost predicate Says(events: seq<Event>, at: Route, route: Route, n: Node) {
    Analysed(at + route, n.path, n.data) in events
  }

  /** The member a route leads to, seen from a container that has already listed its members. */
  predicate Leads(env: Env, path: string, ms: seq<Member>, route: Route, n: Node) {
    && route != [] && route[0] < |ms|
    && DescendInto(env, MemberNode(path, ms[route[0]]), route) == Some(n)
    && (|route| > 1 ==> !CrossesBelow(env, MemberNode(path, ms[route[0]]), route))
  }

  lemma RouteSplit(at: Route, i: nat, route: Route)
    requires route != []
    ensures route[0] == i ==> at + route == (at + [i]) + route[1..]
    ensures at + [i] <= at + route <==> route[0] == i
    ensures at + route == at + [i] <==> route == [i]
  {
    assert (at + route)[|at|] == route[0] && (at + [i])[|at|] == i;
    if route[0] == i { assert route == [i] + route[1..]; }
    if at + route == at + [i] { assert |route| == 1; }
    if at + [i] <= at + route { assert (at + route)[|at|] == (at + [i])[|at|]; }
  }

  lemma JudgedNode(cfg: Config, path: string, m: Member, dataLen: nat, unpacked: nat, b: Budget)
    ensures
      var j, r := Judge(cfg, path, m, dataLen, unpacked, b), Read(cfg, path, m);
      && (j.Skip? ==> MemberNode(path, m).None?)
      && (j.Take? && r.Nothing? ==> m.TarMember? && m.isFile && m.content.NoStream?)
      && (j.Take? && r.Good? ==> MemberNode(path, m) == Some(Node(Inside(path, m.name), r.bytes)))
  {
  }

  /** In a clean step the member is analysed iff it is a regular one, and opened iff it is an archive. */
  lemma StepNode(cfg: Config, at: Route, path: string, dataLen: nat, ms: seq<Member>, i: nat, unpacked: nat, b: Budget)
    requires i < |ms| && Streams(ms)
    ensures
      var s, node := StepMember(cfg, at, path, dataLen, ms, i, unpacked, b), MemberNode(path, ms[i]);
      s.last.None? || s.last.value.Analysed? ==>
        && s.last == (if node.Some? then Some(Analysed(at + [i], node.value.path, node.value.data)) else None)
        && s.archive == (if node.Some? && IsArchivePath(node.value.path, node.value.data) then Some(node.value.data) else None)
        && (node.Some? ==> node.value.path == Inside(path, ms[i].name))
  {
    hide Judge, Read, MemberNode, IsArchivePath, Inside;
    JudgedNode(cfg, path, ms[i], dataLen, unpacked, b);
  }

  lemma StepSays(named: seq<Event>, last: Option<Event>, at: Route, i: nat, route: Route, n: Node)
    requires forall j :: 0 <= j < |named| ==> named[j].Reported?
    requires last.Some? ==> last.value.Analysed? && last.value.at == at + [i]
    ensures Says(if last.Some? then named + [last.value] else named, at, route, n) <==>
            last.Some? && route == [i] && n == Node(last.value.path, last.value.data)
  {
    if route != [] { RouteSplit(at, i, route); }
    assert Analysed(at + route, n.path, n.data) !in named;
    if last.Some? && route == [] { assert |at + route| < |at + [i]|; }
  }

  lemma {:induction false} MembersExact(
      env: Env, cfg: Config, at: Route, path: string, dataLen: nat, ms: seq<Member>, ending: Ending, i: nat, unpacked: nat, depth: nat, b: Budget,
      route: Route, n: Node)
    requires Honest(env) && i <= |ms| && depth <= cfg.maxDepth && Streams(ms)
    requires Clean(ScanMembers(env, cfg, at, path, dataLen, ms, ending, i, unpacked, depth, b).events)
    ensures Says(ScanMembers(env, cfg, at, path, dataLen, ms, ending, i, unpacked, depth, b).events, at, route, n) <==>
            Leads(env, path, ms, route, n) && i <= route[0]
    decreases cfg.maxDepth + 1 - depth, 0, |ms| - i
  {
    hide StepMember, Honest, Streams, MemberNode, IsArchivePath;
    if i < |ms| {
      var s := StepMember(cfg, at, path, dataLen, ms, i, unpacked, b);
      StepIsClean(env, cfg, at, path, dataLen, ms, i, unpacked, b, b);
      StepNode(cfg, at, path, dataLen, ms, i, unpacked, b);
      StepShape(cfg, at, path, dataLen, ms, i, unpacked, b);
      if s.halts { return; }
      var nested := NestedOut(env, cfg, at, path, s, i, ms[i].name, depth);
      var rest := ScanMembers(env, cfg, at, path, dataLen, ms, ending, i + 1, s.unpacked, depth, nested.budget);
      CleanConcat(StepEvents(s) + nested.events, rest.events);
      CleanConcat(StepEvents(s), nested.events);
      MembersExact(env, cfg, at, path, dataLen, ms, ending, i + 1, s.unpacked, depth, nested.budget, route, n);
      StepSays(s.named, s.last, at, i, route, n);
      NestedExact(env, cfg, at, path, ms, s, i, depth, route, n);
      OneLevel(env, path, ms, i, route, n);
    }
  }

  /** The nested scan speaks of exactly the routes of two or more steps through member i. */
  lemma {:induction false} NestedExact(
      env: Env, cfg: Config, at: Route, path: string, ms: seq<Member>, s: Step, i: nat, depth: nat, route: Route, n: Node)
    requires Honest(env) && i < |ms| && depth <= cfg.maxDepth
    requires
      var node := MemberNode(path, ms[i]);
      && s.archive == (if node.Some? && IsArchivePath(node.value.path, node.value.data) then Some(node.value.data) else None)
      && (node.Some? ==> node.value.path == Inside(path, ms[i].name))
    requires Clean(NestedOut(env, cfg, at, path, s, i, ms[i].name, depth).events)
    ensures Says(NestedOut(env, cfg, at, path, s, i, ms[i].name, depth).events, at, route, n) <==>
            |route| > 1 && route[0] == i && Leads(env, path, ms, route, n)
    decreases cfg.maxDepth + 1 - depth, 0, 0
  {
    hide Honest, MemberNode, IsArchivePath;
    var nested := NestedOut(env, cfg, at, path, s, i, ms[i].name, depth);
    if s.archive.Some? {
      ArchiveBelow(env, cfg, at + [i], Inside(path, ms[i].name), s.archive.value, depth + 1, s.b);
      if route == [] || route[0] != i {
        if Says(nested.events, at, route, n) {
          assert at + [i] < at + route;
          if route != [] { RouteSplit(at, i, route); }
        }
      } else {
        RouteSplit(at, i, route);
        ArchiveExact(env, cfg, at + [i], Inside(path, ms[i].name), s.archive.value, depth + 1, s.b, route[1..], n);
      }
    }
  }

  lemma OneLevel(env: Env, path: string, ms: seq<Member>, i: nat, route: Route, n: Node)
    requires i < |ms|
    ensures route == [i] ==> (Leads(env, path, ms, route, n) <==> MemberNode(path, ms[i]) == Some(n))
  {
  }

  /**
   After a clean scan, under any budget, a member was analysed iff its route leads to it and does not cross the
   payload of a plain gzip.
   */
  lemma {:induction false} ArchiveExact(
      env: Env, cfg: Config, at: Route, path: string, data: Bytes, depth: nat, b: Budget, route: Route, n: Node)
    requires Honest(env) && Clean(ScanArchive(env, cfg, at, path, data, depth, b).events)
    ensures Says(ScanArchive(env, cfg, at, path, data, depth, b).events, at, route, n) <==>
            Descend(env, path, data, route) == Some(n) && !Crosses(env, path, data, route)
    decreases if depth <= cfg.maxDepth then cfg.maxDepth + 1 - depth else 0, 2, 0
  {
    var o := ScanArchive(env, cfg, at, path, data, depth, b);
    var first := Opened(path, data, depth);
    if depth > cfg.maxDepth {
      RaisedOnly(Issue(path, "archive-depth-limit"));
    } else if OpensAsZip(path, data) {
      ZipExact(env, cfg, at, path, data, depth, b, route, n);
    } else {
      TarExact(env, cfg, at, path, data, depth, b, route, n);
    }
  }

  lemma {:induction false} ZipExact(
      env: Env, cfg: Config, at: Route, path: string, data: Bytes, depth: nat, b: Budget, route: Route, n: Node)
    requires Honest(env) && depth <= cfg.maxDepth && OpensAsZip(path, data) && Clean(ScanZip(env, cfg, at, path, data, depth, b).events)
    ensures Says(ScanZip(env, cfg, at, path, data, depth, b).events, at, route, n) <==>
            Descend(env, path, data, route) == Some(n) && !Crosses(env, path, data, route)
    decreases cfg.maxDepth + 1 - depth, 1, 0
  {
    hide MemberNode;
    var first := Opened(path, data, depth);
    OpenedThenRaised(first, Issue(path, "archive-limit"));
    if env.preflight(data).None? && env.zip(data).Zip? && |env.zip(data).members| <= cfg.maxMembers {
      var ms := env.zip(data).members;
      OpenedFirst(env, cfg, first, ScanMembers(env, cfg, at, path, |data|, ms, Ends, 0, 0, depth, b).events, b);
      MembersExact(env, cfg, at, path, |data|, ms, Ends, 0, 0, depth, b, route, n);
      LeadsIsDescend(env, path, data, ms, route, n);
    }
  }

  lemma LeadsIsDescend(env: Env, path: string, data: Bytes, ms: seq<Member>, route: Route, n: Node)
    requires !IsPlainGzip(env, path, data) && ms == MembersOfArchive(env, path, data)
    ensures Leads(env, path, ms, route, n) <==> Descend(env, path, data, route) == Some(n) && !Crosses(env, path, data, route)
  {
  }

  lemma {:induction false} TarExact(
      env: Env, cfg: Config, at: Route, path: string, data: Bytes, depth: nat, b: Budget, route: Route, n: Node)
    requires Honest(env) && depth <= cfg.maxDepth && !OpensAsZip(path, data) && Clean(ScanTar(env, cfg, at, path, data, depth, b).events)
    ensures Says(ScanTar(env, cfg, at, path, data, depth, b).events, at, route, n) <==>
            Descend(env, path, data, route) == Some(n) && !Crosses(env, path, data, route)
    decreases cfg.maxDepth + 1 - depth, 1, 0
  {
    hide MemberNode;
    if ReportsTooMuch(cfg, data) { RaisedOnly(Issue(path, "archive-expansion-limit")); return; }
    if IsGzip(data) && TarLimit(cfg, b) < env.need(data) { OverranIsNeverClean(env, cfg, at, path, data, depth, b); return; }
    var t := OpenTar(env, cfg, data, b);
    assert t == env.tar(data, Unlimited);
    if t.TooLong? { RaisedOnly(Issue(path, "archive-expansion-limit")); return; }
    if t.Tar? {
      var inner := ScanMembers(env, cfg, at, path, |data|, t.members, t.ending, 0, 0, depth, b);
      OpenedFirst(env, cfg, Opened(path, data, depth), inner.events, b);
      MembersExact(env, cfg, at, path, |data|, t.members, t.ending, 0, 0, depth, b, route, n);
      LeadsIsDescend(env, path, data, t.members, route, n);
    } else if IsGzip(data) && !NamedTar(path) {
      GzipExact(env, cfg, at, path, data, depth, b, route, n);
    } else {
      RaisedOnly(Issue(path, "archive-open"));
    }
  }

  lemma GzipExact(env: Env, cfg: Config, at: Route, path: string, data: Bytes, depth: nat, b: Budget, route: Route, n: Node)
    requires IsPlainGzip(env, path, data) && Clean(ScanGzip(env, cfg, at, path, data, depth, b).events)
    ensures Says(ScanGzip(env, cfg, at, path, data, depth, b).events, at, route, n) <==>
            Descend(env, path, data, route) == Some(n) && !Crosses(env, path, data, route)
  {
    var first := Opened(path, data, depth);
    var o := ScanGzip(env, cfg, at, path, data, depth, b);
    if o.events[1].Raised? { OpenedThenRaised(first, o.events[1].issue); }
    StepSays([], Some(o.events[1]), at, 0, route, n);
    assert [] + [o.events[1]] == [o.events[1]] && o.events == [first] + [o.events[1]];
  }

  /**
   A clean scan analysed every regular member of every recognised archive at every level iff no such member
   lies inside the payload of a plain gzip.
   */
  lemma NothingIsMissedIff(env: Env, cfg: Config, path: string, data: Bytes, b: Budget)
    requires Honest(env) && Clean(ScanArchive(env, cfg, [], path, data, 0, b).events)
    ensures
      (forall route :: Descend(env, path, data, route).Some? ==>
         Says(ScanArchive(env, cfg, [], path, data, 0, b).events, [], route, Descend(env, path, data, route).value))
      <==> (forall route :: Descend(env, path, data, route).Some? ==> !Crosses(env, path, data, route))
  {
    forall route | Descend(env, path, data, route).Some?
      ensures Says(ScanArchive(env, cfg, [], path, data, 0, b).events, [], route, Descend(env, path, data, route).value)
              <==> !Crosses(env, path, data, route)
    {
      ArchiveExact(env, cfg, [], path, data, 0, b, route, Descend(env, path, data, route).value);
    }
  }

  /** Such a payload exists: a zip inside an extensionless gzip scans clean, and none of its members is analysed. */
  lemma GzippedZipIsMissed(env: Env, cfg: Config, path: string, data: Bytes, b: Budget, i: nat)
    requires !NamedZip(path) && !NamedTar(path) && IsGzip(data) && !ReportsTooMuch(cfg, data) && OpenTar(env, cfg, data, b).NotTar?
    requires env.tar(data, Unlimited).NotTar?
    requires
      var payload := env.gunzip(data);
      && !payload.broken && IsZip(payload.bytes) && b.members > 0
      && |payload.bytes| <= Min(cfg.maxTotalBytes, b.bytes) && |payload.bytes| <= |data| * cfg.maxRatio
      && Child(env, PayloadPath(path), payload.bytes, i).Some?
    ensures
      var events := ScanArchive(env, cfg, [], path, data, 0, b).events;
      && Clean(events)
      && Descend(env, path, data, [0, i]) == Child(env, PayloadPath(path), env.gunzip(data).bytes, i)
      && !Says(events, [], [0, i], Descend(env, path, data, [0, i]).value)
  {
    var payload := env.gunzip(data).bytes;
    assert data[0] == 0x1f && !IsZip(data);
    assert ScanArchive(env, cfg, [], path, data, 0, b) == ScanTar(env, cfg, [], path, data, 0, b) == ScanGzip(env, cfg, [], path, data, 0, b);
    var events := ScanArchive(env, cfg, [], path, data, 0, b).events;
    assert [0, i][1..] == [i];
    assert Descend(env, PayloadPath(path), payload, [i]) == Child(env, PayloadPath(path), payload, i);
    assert events == [Opened(path, data, 0)] + [Analysed([] + [0], PayloadPath(path), payload)];
    OpenedFirst(env, cfg, Opened(path, data, 0), [Analysed([] + [0], PayloadPath(path), payload)], b);
    AnalysedOnly(env, cfg, [] + [0], PayloadPath(path), payload, b);
  }
}
