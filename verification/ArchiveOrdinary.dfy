/**
 Which archives can be scanned clean at all: a condition on the tree alone, with totals where the scan checks
 running sums, and the budget such a tree takes.
 */
module ArchiveOrdinary {

  import opened ArchiveBudgets
  import opened ArchiveCompleteness
  import opened ArchiveExpansion
  import opened ArchiveTheorems
  import opened Archives
  import opened Findings
  import opened Options

  predicate Counts(m: Member) { if m.TarMember? then m.isFile else !m.isDir }

  /** A member that is no file, or a plain one whose content is as long as announced and within the limits. */
  predicate OrdinaryMember(cfg: Config, m: Member) {
    Counts(m) ==>
      && m.size <= cfg.maxMemberBytes
      && match m
         case TarMember(_, _, size, content) => content.Delivers? && |content.bytes| == size
         case ZipMember(_, _, regular, encrypted, supported, size, compressed, packed) =>
           && regular && !encrypted && supported && !packed.broken && |packed.bytes| == size
           && size <= (if compressed < 1 then 1 else compressed) * cfg.maxRatio
  }

  function OwnSize(m: Member): nat { if Counts(m) then m.size else 0 }

  function OwnTotal(ms: seq<Member>, i: nat): nat
    requires i <= |ms|
    decreases |ms| - i
  {
    if i == |ms| then 0 else OwnSize(ms[i]) + OwnTotal(ms, i + 1)
  }

  /** The archive inside a member, if it is one. */
  function Inner(path: string, m: Member): Option<Node> {
    var node := MemberNode(path, m);
    if node.Some? && IsArchivePath(node.value.path, node.value.data) then node else None
  }

  predicate OrdinaryMembers(env: Env, cfg: Config, path: string, ms: seq<Member>, i: nat, depth: nat)
    requires i <= |ms| && depth <= cfg.maxDepth
    decreases cfg.maxDepth + 1 - depth, 0, |ms| - i
  {
    i == |ms|
    || (&& OrdinaryMember(cfg, ms[i])
        && (Inner(path, ms[i]).Some? ==> Ordinary(env, cfg, Inner(path, ms[i]).value.path, Inner(path, ms[i]).value.data, depth + 1))
        && OrdinaryMembers(env, cfg, path, ms, i + 1, depth))
  }

  predicate OrdinaryList(env: Env, cfg: Config, path: string, zip: bool, dataLen: nat, ms: seq<Member>, depth: nat)
    requires depth <= cfg.maxDepth
    decreases cfg.maxDepth + 1 - depth, 1, 0
  {
    |ms| <= cfg.maxMembers && OrdinaryMembers(env, cfg, path, ms, 0, depth) && Within(cfg, zip, dataLen, OwnTotal(ms, 0))
  }

  /** A container the library opens and reads to its end, not too deep, all of it ordinary. */
  predicate Ordinary(env: Env, cfg: Config, path: string, data: Bytes, depth: nat)
    decreases if depth <= cfg.maxDepth then cfg.maxDepth + 1 - depth else 0, 2, 0
  {
    && depth <= cfg.maxDepth
    && if OpensAsZip(path, data) then
         env.preflight(data).None? && env.zip(data).Zip? && OrdinaryList(env, cfg, path, true, |data|, env.zip(data).members, depth)
       else
         && !ReportsTooMuch(cfg, data)
         && (IsGzip(data) ==> env.need(data) <= cfg.maxTotalBytes + cfg.maxMembers * 1024 + MIB)
         && match env.tar(data, Unlimited)
            case TooLong => false
            case NotTar =>
              && IsGzip(data) && !NamedTar(path) && !env.gunzip(data).broken
              && |env.gunzip(data).bytes| <= Min(cfg.maxTotalBytes, |data| * cfg.maxRatio)
            case Tar(ms, ending) => ending.Ends? && OrdinaryList(env, cfg, path, false, |data|, ms, depth)
  }

  // ----- what such a tree takes

  function Plus(a: Budget, b: Budget): Budget { Budget(a.bytes + b.bytes, a.members + b.members) }

  function Minus(a: Budget, b: Budget): Budget { Budget(a.bytes - b.bytes, a.members - b.members) }

  function MemberWeight(m: Member): Budget { if Counts(m) then Budget(m.size, 1) else Budget(0, 0) }

  function MembersWeight(env: Env, cfg: Config, path: string, ms: seq<Member>, i: nat, depth: nat): (w: Budget)
    requires i <= |ms| && depth <= cfg.maxDepth
    ensures Solvent(w)
    decreases cfg.maxDepth + 1 - depth, 0, |ms| - i
  {
    if i == |ms| then Budget(0, 0)
    else Plus(Plus(MemberWeight(ms[i]), InnerWeight(env, cfg, path, ms[i], depth)), MembersWeight(env, cfg, path, ms, i + 1, depth))
  }

  function InnerWeight(env: Env, cfg: Config, path: string, m: Member, depth: nat): (w: Budget)
    requires depth <= cfg.maxDepth
    ensures Solvent(w)
    decreases cfg.maxDepth + 1 - depth, 0, 0
  {
    if Inner(path, m).None? then Budget(0, 0) else Weight(env, cfg, Inner(path, m).value.path, Inner(path, m).value.data, depth + 1)
  }

  /** The bytes and members of a whole tree. */
  function Weight(env: Env, cfg: Config, path: string, data: Bytes, depth: nat): (w: Budget)
    ensures Solvent(w)
    decreases if depth <= cfg.maxDepth then cfg.maxDepth + 1 - depth else 0, 2, 0
  {
    if depth > cfg.maxDepth then Budget(0, 0)
    else if IsPlainGzip(env, path, data) then Budget(|env.gunzip(data).bytes|, 1)
    else MembersWeight(env, cfg, path, MembersOfArchive(env, path, data), 0, depth)
  }

  /** Enough for a tree of this weight, with the limits of one archive to spare. */
  predicate Ample(cfg: Config, b: Budget, w: Budget) {
    AtMost(Plus(Budget(cfg.maxTotalBytes, cfg.maxMembers), w), b)
  }

  // ----- one member

  lemma StepIffOrdinary(cfg: Config, at: Route, path: string, dataLen: nat, ms: seq<Member>, i: nat, unpacked: nat, b: Budget)
    requires i < |ms| && Streams(ms) && Within(cfg, ms[i].ZipMember?, dataLen, unpacked)
    requires b.bytes >= OwnSize(ms[i]) && (Counts(ms[i]) ==> b.members > 0)
    ensures
      var s, m := StepMember(cfg, at, path, dataLen, ms, i, unpacked, b), ms[i];
      (s.last.None? || s.last.value.Analysed?) <==>
        (m.TarMember? ==> i + 1 <= cfg.maxMembers) && OrdinaryMember(cfg, m) && Within(cfg, m.ZipMember?, dataLen, unpacked + OwnSize(m))
    ensures
      var s := StepMember(cfg, at, path, dataLen, ms, i, unpacked, b);
      (s.last.None? || s.last.value.Analysed?) ==> s.unpacked == unpacked + OwnSize(ms[i]) && s.b == Minus(b, MemberWeight(ms[i]))
  {
    hide UnsafeName, Inside;
    ReadIffOrdinary(cfg, path, ms[i]);
    hide Read;
  }

  lemma ReadIffOrdinary(cfg: Config, path: string, m: Member)
    ensures Fit(cfg, path, m).Take? ==> Counts(m) && (Read(cfg, path, m).Good? <==> OrdinaryMember(cfg, m))
    ensures Fit(cfg, path, m).Take? && Read(cfg, path, m).Nothing? ==> m.TarMember? && m.content.NoStream?
    ensures Fit(cfg, path, m).Skip? <==> !Counts(m)
    ensures OrdinaryMember(cfg, m) ==> Fit(cfg, path, m).Take? || Fit(cfg, path, m).Skip?
  {
  }

  // ----- a whole archive

  predicate Kind(ms: seq<Member>, zip: bool) {
    forall k :: 0 <= k < |ms| ==> ms[k].ZipMember? == zip
  }

  /** What is still asked of the members from i on. */
  predicate OrdinaryFrom(
      env: Env, cfg: Config, path: string, zip: bool, dataLen: nat, ms: seq<Member>, ending: Ending, i: nat, unpacked: nat, depth: nat)
    requires i <= |ms| && depth <= cfg.maxDepth
  {
    && ending.Ends? && (!zip && i < |ms| ==> |ms| <= cfg.maxMembers)
    && OrdinaryMembers(env, cfg, path, ms, i, depth) && Within(cfg, zip, dataLen, unpacked + OwnTotal(ms, i))
  }

  /** Clean exactly when that holds, and then its whole weight was spent. */
  ghost predicate Settled(ordinary: bool, b: Budget, w: Budget, o: Out) {
    (Clean(o.events) <==> ordinary) && (ordinary ==> o.budget == Minus(b, w))
  }

  lemma StepNotClean(env: Env, cfg: Config, at: Route, path: string, dataLen: nat, ms: seq<Member>, ending: Ending, i: nat, unpacked: nat, depth: nat, b: Budget)
    requires i < |ms| && depth <= cfg.maxDepth && !Clean(StepEvents(StepMember(cfg, at, path, dataLen, ms, i, unpacked, b)))
    ensures !Clean(ScanMembers(env, cfg, at, path, dataLen, ms, ending, i, unpacked, depth, b).events)
  {
    hide StepMember, StepEvents, Clean;
    MembersStartWith(env, cfg, at, path, dataLen, ms, ending, i, unpacked, depth, b);
    var events := ScanMembers(env, cfg, at, path, dataLen, ms, ending, i, unpacked, depth, b).events;
    var first := StepEvents(StepMember(cfg, at, path, dataLen, ms, i, unpacked, b));
    assert events == first + events[|first|..];
    CleanConcat(first, events[|first|..]);
  }

  lemma {:induction false} MembersSettled(
      env: Env, cfg: Config, at: Route, path: string, zip: bool, dataLen: nat, ms: seq<Member>, ending: Ending, i: nat, unpacked: nat,
      depth: nat, b: Budget)
    requires Honest(env) && i <= |ms| && depth <= cfg.maxDepth && Streams(ms) && Kind(ms, zip) && Within(cfg, zip, dataLen, unpacked)
    requires Ample(cfg, b, MembersWeight(env, cfg, path, ms, i, depth))
    ensures Settled(OrdinaryFrom(env, cfg, path, zip, dataLen, ms, ending, i, unpacked, depth), b, MembersWeight(env, cfg, path, ms, i, depth),
                    ScanMembers(env, cfg, at, path, dataLen, ms, ending, i, unpacked, depth, b))
    decreases cfg.maxDepth + 1 - depth, 0, |ms| - i
  {
    hide ScanMembers, OrdinaryMembers, MembersWeight, InnerWeight, OrdinaryFrom, OrdinaryMember, InnerOrdinary, Inner;
    hide StepMember, StepEvents, NestedOut, Clean, Within, Honest, Streams, Kind, Settled, Ample, Then, Counts;
    if i == |ms| {
      EndSettled(env, cfg, at, path, zip, dataLen, ms, ending, unpacked, depth, b);
      return;
    }
    var s := StepMember(cfg, at, path, dataLen, ms, i, unpacked, b);
    EnoughForOne(env, cfg, path, ms, i, depth, b);
    StepDecides(env, cfg, at, path, zip, dataLen, ms, i, unpacked, depth, b);
    FromUnfolds(env, cfg, path, zip, dataLen, ms, ending, i, unpacked, depth);
    if !Clean(StepEvents(s)) {
      StepNotClean(env, cfg, at, path, dataLen, ms, ending, i, unpacked, depth, b);
      NotSettled(b, MembersWeight(env, cfg, path, ms, i, depth), ScanMembers(env, cfg, at, path, dataLen, ms, ending, i, unpacked, depth, b));
      return;
    }
    MembersUnfold(env, cfg, at, path, dataLen, ms, ending, i, unpacked, depth, b);
    var nested := NestedOut(env, cfg, at, path, s, i, ms[i].name, depth);
    InnerSettled(env, cfg, at, path, ms, i, s, depth);
    var ordinary := InnerOrdinary(env, cfg, path, ms[i], depth);
    var inner := InnerWeight(env, cfg, path, ms[i], depth);
    if ordinary {
      SettledSpends(s.b, inner, nested);
      MembersSettled(env, cfg, at, path, zip, dataLen, ms, ending, i + 1, s.unpacked, depth, nested.budget);
    }
    StepSettles(b, s.b, StepEvents(s), nested, ScanMembers(env, cfg, at, path, dataLen, ms, ending, i + 1, s.unpacked, depth, nested.budget),
                MemberWeight(ms[i]), inner, MembersWeight(env, cfg, path, ms, i + 1, depth),
                ordinary, OrdinaryFrom(env, cfg, path, zip, dataLen, ms, ending, i + 1, s.unpacked, depth));
  }

  lemma EndSettled(
      env: Env, cfg: Config, at: Route, path: string, zip: bool, dataLen: nat, ms: seq<Member>, ending: Ending, unpacked: nat, depth: nat, b: Budget)
    requires depth <= cfg.maxDepth && Within(cfg, zip, dataLen, unpacked)
    ensures Settled(OrdinaryFrom(env, cfg, path, zip, dataLen, ms, ending, |ms|, unpacked, depth), b, MembersWeight(env, cfg, path, ms, |ms|, depth),
                    ScanMembers(env, cfg, at, path, dataLen, ms, ending, |ms|, unpacked, depth, b))
  {
    hide Within;
    if !ending.Ends? { RaisedOnly(EndEvents(path, ending)[0].issue); }
  }

  lemma NotSettled(b: Budget, w: Budget, o: Out)
    requires !Clean(o.events)
    ensures Settled(false, b, w, o)
  {
  }

  lemma SettledSpends(b: Budget, w: Budget, o: Out)
    requires Settled(true, b, w, o)
    ensures o.budget == Minus(b, w)
  {
  }

  predicate InnerOrdinary(env: Env, cfg: Config, path: string, m: Member, depth: nat) {
    Inner(path, m).Some? ==> Ordinary(env, cfg, Inner(path, m).value.path, Inner(path, m).value.data, depth + 1)
  }

  /** What one member decides, before anything inside it. */
  lemma StepDecides(
      env: Env, cfg: Config, at: Route, path: string, zip: bool, dataLen: nat, ms: seq<Member>, i: nat, unpacked: nat, depth: nat, b: Budget)
    requires i < |ms| && Streams(ms) && Kind(ms, zip) && Within(cfg, zip, dataLen, unpacked)
    requires b.bytes >= OwnSize(ms[i]) && (Counts(ms[i]) ==> b.members > 0)
    ensures
      var s := StepMember(cfg, at, path, dataLen, ms, i, unpacked, b);
      && (Clean(StepEvents(s)) <==>
            (!zip ==> i + 1 <= cfg.maxMembers) && OrdinaryMember(cfg, ms[i]) && Within(cfg, zip, dataLen, unpacked + OwnSize(ms[i])))
      && (Clean(StepEvents(s)) ==>
            && !s.halts && s.unpacked == unpacked + OwnSize(ms[i]) && s.b == Minus(b, MemberWeight(ms[i]))
            && s.archive == (if Inner(path, ms[i]).Some? then Some(Inner(path, ms[i]).value.data) else None)
            && (Inner(path, ms[i]).Some? ==> Inner(path, ms[i]).value.path == Inside(path, ms[i].name)))
  {
    hide StepMember, StepEvents, Clean, OrdinaryMember, MemberNode, IsArchivePath;
    assert Kind(ms, zip) ==> ms[i].ZipMember? == zip;
    StepIffOrdinary(cfg, at, path, dataLen, ms, i, unpacked, b);
    StepIsClean(env, cfg, at, path, dataLen, ms, i, unpacked, b, b);
    StepNode(cfg, at, path, dataLen, ms, i, unpacked, b);
  }

  lemma MembersUnfold(
      env: Env, cfg: Config, at: Route, path: string, dataLen: nat, ms: seq<Member>, ending: Ending, i: nat, unpacked: nat, depth: nat, b: Budget)
    requires i < |ms| && depth <= cfg.maxDepth
    ensures
      var s := StepMember(cfg, at, path, dataLen, ms, i, unpacked, b);
      var nested := NestedOut(env, cfg, at, path, s, i, ms[i].name, depth);
      !s.halts ==>
        ScanMembers(env, cfg, at, path, dataLen, ms, ending, i, unpacked, depth, b) ==
        Then(StepEvents(s) + nested.events, ScanMembers(env, cfg, at, path, dataLen, ms, ending, i + 1, s.unpacked, depth, nested.budget))
  {
    hide StepMember, StepEvents, NestedOut;
  }

  lemma FromUnfolds(
      env: Env, cfg: Config, path: string, zip: bool, dataLen: nat, ms: seq<Member>, ending: Ending, i: nat, unpacked: nat, depth: nat)
    requires i < |ms| && depth <= cfg.maxDepth
    ensures
      OrdinaryFrom(env, cfg, path, zip, dataLen, ms, ending, i, unpacked, depth) <==>
        && (!zip ==> i + 1 <= cfg.maxMembers) && OrdinaryMember(cfg, ms[i]) && Within(cfg, zip, dataLen, unpacked + OwnSize(ms[i]))
        && InnerOrdinary(env, cfg, path, ms[i], depth)
        && OrdinaryFrom(env, cfg, path, zip, dataLen, ms, ending, i + 1, unpacked + OwnSize(ms[i]), depth)
    ensures
      MembersWeight(env, cfg, path, ms, i, depth) ==
      Plus(Plus(MemberWeight(ms[i]), InnerWeight(env, cfg, path, ms[i], depth)), MembersWeight(env, cfg, path, ms, i + 1, depth))
  {
    hide OrdinaryMember, Ordinary, Inner, InnerWeight, MemberWeight;
  }

  /** One step, the archive inside it, the members after it. */
  lemma StepSettles(
      b: Budget, mid: Budget, before: seq<Event>, nested: Out, rest: Out, own: Budget, inner: Budget, after: Budget, ordinary: bool, onwards: bool)
    requires Clean(before) && mid == Minus(b, own) && Settled(ordinary, mid, inner, nested)
    requires ordinary ==> Settled(onwards, nested.budget, after, rest)
    ensures Settled(ordinary && onwards, b, Plus(Plus(own, inner), after), Then(before + nested.events, rest))
  {
    CleanConcat(before + nested.events, rest.events);
    CleanConcat(before, nested.events);
  }

  lemma EnoughForOne(env: Env, cfg: Config, path: string, ms: seq<Member>, i: nat, depth: nat, b: Budget)
    requires i < |ms| && depth <= cfg.maxDepth && Ample(cfg, b, MembersWeight(env, cfg, path, ms, i, depth))
    ensures b.bytes >= OwnSize(ms[i]) && (Counts(ms[i]) ==> b.members > 0)
    ensures
      var rest := Minus(b, MemberWeight(ms[i]));
      && Ample(cfg, rest, InnerWeight(env, cfg, path, ms[i], depth))
      && Ample(cfg, Minus(rest, InnerWeight(env, cfg, path, ms[i], depth)), MembersWeight(env, cfg, path, ms, i + 1, depth))
  {
  }

  lemma {:induction false} InnerSettled(env: Env, cfg: Config, at: Route, path: string, ms: seq<Member>, i: nat, s: Step, depth: nat)
    requires Honest(env) && i < |ms| && depth <= cfg.maxDepth && Ample(cfg, s.b, InnerWeight(env, cfg, path, ms[i], depth))
    requires
      var inner := Inner(path, ms[i]);
      && s.archive == (if inner.Some? then Some(inner.value.data) else None)
      && (inner.Some? ==> inner.value.path == Inside(path, ms[i].name))
    ensures
      Settled(InnerOrdinary(env, cfg, path, ms[i], depth), s.b, InnerWeight(env, cfg, path, ms[i], depth),
              NestedOut(env, cfg, at, path, s, i, ms[i].name, depth))
    decreases cfg.maxDepth + 1 - depth, 0, 0
  {
    hide Honest, Ordinary, Inner;
    if s.archive.Some? {
      ArchiveSettled(env, cfg, at + [i], Inside(path, ms[i].name), s.archive.value, depth + 1, s.b);
    }
  }

  lemma {:induction false} ArchiveSettled(env: Env, cfg: Config, at: Route, path: string, data: Bytes, depth: nat, b: Budget)
    requires Honest(env) && Ample(cfg, b, Weight(env, cfg, path, data, depth))
    ensures Settled(Ordinary(env, cfg, path, data, depth), b, Weight(env, cfg, path, data, depth), ScanArchive(env, cfg, at, path, data, depth, b))
    decreases if depth <= cfg.maxDepth then cfg.maxDepth + 1 - depth else 0, 2, 0
  {
    if depth > cfg.maxDepth {
      RaisedOnly(Issue(path, "archive-depth-limit"));
    } else if OpensAsZip(path, data) {
      ZipSettled(env, cfg, at, path, data, depth, b);
    } else {
      TarSettled(env, cfg, at, path, data, depth, b);
    }
  }

  lemma {:induction false} ZipSettled(env: Env, cfg: Config, at: Route, path: string, data: Bytes, depth: nat, b: Budget)
    requires Honest(env) && depth <= cfg.maxDepth && OpensAsZip(path, data) && Ample(cfg, b, Weight(env, cfg, path, data, depth))
    ensures Settled(Ordinary(env, cfg, path, data, depth), b, Weight(env, cfg, path, data, depth), ScanZip(env, cfg, at, path, data, depth, b))
    decreases cfg.maxDepth + 1 - depth, 1, 0
  {
    hide ScanMembers, OrdinaryMembers, MembersWeight, Honest;
    var first := Opened(path, data, depth);
    if env.preflight(data).None? && env.zip(data).Zip? {
      var ms := env.zip(data).members;
      if |ms| <= cfg.maxMembers {
        MembersSettled(env, cfg, at, path, true, |data|, ms, Ends, 0, 0, depth, b);
        OpenedFirst(env, cfg, first, ScanMembers(env, cfg, at, path, |data|, ms, Ends, 0, 0, depth, b).events, b);
      } else {
        OpenedThenRaised(first, Issue(path, "archive-limit"));
      }
    }
  }

  lemma {:induction false} TarSettled(env: Env, cfg: Config, at: Route, path: string, data: Bytes, depth: nat, b: Budget)
    requires Honest(env) && depth <= cfg.maxDepth && !OpensAsZip(path, data) && Ample(cfg, b, Weight(env, cfg, path, data, depth))
    ensures Settled(Ordinary(env, cfg, path, data, depth), b, Weight(env, cfg, path, data, depth), ScanTar(env, cfg, at, path, data, depth, b))
    decreases cfg.maxDepth + 1 - depth, 1, 0
  {
    hide ScanMembers, OrdinaryMembers, MembersWeight;
    if ReportsTooMuch(cfg, data) { return; }
    if IsGzip(data) && TarLimit(cfg, b) < env.need(data) {
      OverranIsNeverClean(env, cfg, at, path, data, depth, b);
      return;
    }
    var t := OpenTar(env, cfg, data, b);
    assert t == env.tar(data, Unlimited);
    if t.Tar? {
      MembersSettled(env, cfg, at, path, false, |data|, t.members, t.ending, 0, 0, depth, b);
      OpenedFirst(env, cfg, Opened(path, data, depth), ScanMembers(env, cfg, at, path, |data|, t.members, t.ending, 0, 0, depth, b).events, b);
    } else if t.NotTar? && IsGzip(data) && !NamedTar(path) {
      GzipSettled(env, cfg, at, path, data, depth, b);
    }
  }

  lemma GzipSettled(env: Env, cfg: Config, at: Route, path: string, data: Bytes, depth: nat, b: Budget)
    requires Ample(cfg, b, Budget(|env.gunzip(data).bytes|, 1)) && IsGzip(data)
    ensures
      var payload := env.gunzip(data);
      Settled(!payload.broken && |payload.bytes| <= Min(cfg.maxTotalBytes, |data| * cfg.maxRatio), b, Budget(|payload.bytes|, 1),
              ScanGzip(env, cfg, at, path, data, depth, b))
  {
    var first := Opened(path, data, depth);
    var o := ScanGzip(env, cfg, at, path, data, depth, b);
    if o.events[1].Raised? { OpenedThenRaised(first, o.events[1].issue); }
    assert o.events == [first] + [o.events[1]];
    OpenedFirst(env, cfg, first, [o.events[1]], b);
    AnalysedOnly(env, cfg, at + [0], PayloadPath(path), env.gunzip(data).bytes, b);
  }

  /**
   Exactly the ordinary trees scan clean when the budget is ample, and they take exactly their weight.  Under any
   budget at all a tree that is not ordinary raises an issue.
   */
  lemma CleanIffOrdinary(env: Env, cfg: Config, path: string, data: Bytes, b: Budget)
    requires Honest(env)
    ensures
      Ample(cfg, b, Weight(env, cfg, path, data, 0)) ==>
        (Clean(ScanArchive(env, cfg, [], path, data, 0, b).events) <==> Ordinary(env, cfg, path, data, 0))
    ensures Clean(ScanArchive(env, cfg, [], path, data, 0, b).events) ==> Ordinary(env, cfg, path, data, 0)
  {
    hide Ordinary, Honest, ScanArchive, Clean;
    var w := Weight(env, cfg, path, data, 0);
    var top := Plus(Budget(cfg.maxTotalBytes, cfg.maxMembers), w);
    var large := Budget(if b.bytes < top.bytes then top.bytes else b.bytes, if b.members < top.members then top.members else b.members);
    ArchiveSettled(env, cfg, [], path, data, 0, large);
    ArchiveLocked(env, cfg, [], path, data, 0, b, large);
    if Ample(cfg, b, w) { ArchiveSettled(env, cfg, [], path, data, 0, b); }
  }
}
