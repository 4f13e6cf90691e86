/** What scanning an archive tree guarantees: the budget is conserved, and a scan without issues missed nothing. */
module ArchiveTheorems {

  import opened Archives
  import opened Findings
  import opened Options
  import opened Sequences

  // ----- concatenation

  lemma {:induction false} Concat(a: seq<Event>, b: seq<Event>)
    ensures BytesOf(a + b) == BytesOf(a) + BytesOf(b)
    ensures MembersOf(a + b) == MembersOf(a) + MembersOf(b)
    ensures ArchivesOf(a + b) == ArchivesOf(a) + ArchivesOf(b)
    decreases |a|
  {
    if a == [] {
      assert a + b == b;
    } else {
      Tail(a, b);
      Concat(a[1..], b);
    }
  }

  lemma {:induction false} ConcatIssues(a: seq<Event>, b: seq<Event>)
    ensures IssuesOf(a + b) == IssuesOf(a) + IssuesOf(b)
    decreases |a|
  {
    if a == [] {
      assert a + b == b;
    } else {
      Tail(a, b);
      ConcatIssues(a[1..], b);
    }
  }

  lemma {:induction false} ConcatFindings(env: Env, a: seq<Event>, b: seq<Event>)
    ensures FindingsOf(env, a + b) == FindingsOf(env, a) + FindingsOf(env, b)
    ensures ScriptsOf(env, a + b) == ScriptsOf(env, a) + ScriptsOf(env, b)
    decreases |a|
  {
    if a == [] {
      assert a + b == b;
    } else {
      Tail(a, b);
      ConcatFindings(env, a[1..], b);
      var head := match a[0] case Analysed(_, path, data) => env.analyze(path, data).findings case Reported(finding) => [finding] case _ => [];
      Reassociate(head, FindingsOf(env, a[1..]), FindingsOf(env, b));
    }
  }

  lemma {:induction false} Unpaid(events: seq<Event>)
    requires forall i :: 0 <= i < |events| ==> !events[i].Analysed?
    ensures BytesOf(events) == 0 && MembersOf(events) == 0
    decreases |events|
  {
    if events != [] {
      assert !events[0].Analysed?;
      assert forall i :: 0 <= i < |events[1..]| ==> events[1..][i] == events[i + 1];
      Unpaid(events[1..]);
    }
  }

  lemma Paid(before: seq<Event>, at: Route, path: string, data: Bytes)
    requires forall i :: 0 <= i < |before| ==> !before[i].Analysed?
    ensures BytesOf(before + [Analysed(at, path, data)]) == |data| && MembersOf(before + [Analysed(at, path, data)]) == 1
  {
    var last := [Analysed(at, path, data)];
    assert last[1..] == [];
    assert BytesOf(last) == |data| && MembersOf(last) == 1;
    Unpaid(before);
    Concat(before, last);
  }

  /** What one member can add, before any archive inside it. */
  lemma StepShape(cfg: Config, at: Route, path: string, dataLen: nat, ms: seq<Member>, i: nat, unpacked: nat, b: Budget)
    requires i < |ms|
    ensures
      var s := StepMember(cfg, at, path, dataLen, ms, i, unpacked, b);
      && (Solvent(b) ==> Solvent(s.b)) && AtMost(s.b, b)
      && (forall j :: 0 <= j < |s.named| ==> s.named[j].Reported?)
      && (s.halts ==> s.last.Some? && s.last.value.Raised?)
      && (s.last.Some? ==> s.last.value.Raised? || s.last.value.Analysed?)
      && (s.last.Some? && s.last.value.Analysed? ==> s.b == Budget(b.bytes - |s.last.value.data|, b.members - 1))
  {
  }

  lemma StepCosts(cfg: Config, at: Route, path: string, dataLen: nat, ms: seq<Member>, i: nat, unpacked: nat, b: Budget)
    requires i < |ms|
    ensures
      var s := StepMember(cfg, at, path, dataLen, ms, i, unpacked, b);
      && (Solvent(b) ==> Solvent(s.b))
      && AtMost(s.b, Spend(b, StepEvents(s)))
      && Shallow(cfg, StepEvents(s))
  {
    StepShape(cfg, at, path, dataLen, ms, i, unpacked, b);
    var s := StepMember(cfg, at, path, dataLen, ms, i, unpacked, b);
    if s.last.Some? && s.last.value.Analysed? {
      Paid(s.named, s.last.value.at, s.last.value.path, s.last.value.data);
    } else {
      Unpaid(StepEvents(s));
    }
  }

  // ----- conservation

  predicate AtMost(b: Budget, c: Budget) { b.bytes <= c.bytes && b.members <= c.members }

  predicate Solvent(b: Budget) { b.bytes >= 0 && b.members >= 0 }

  function Spend(b: Budget, events: seq<Event>): Budget {
    Budget(b.bytes - BytesOf(events), b.members - MembersOf(events))
  }

  ghost predicate Shallow(cfg: Config, events: seq<Event>) {
    forall i :: 0 <= i < |events| && events[i].Opened? ==> events[i].depth <= cfg.maxDepth
  }

  /** What was analysed was paid for, the budget is never overdrawn, and nothing too deep was opened. */
  ghost predicate Conserves(cfg: Config, b: Budget, o: Out) {
    Solvent(o.budget) && AtMost(o.budget, Spend(b, o.events)) && Shallow(cfg, o.events)
  }

  lemma ThenConserves(cfg: Config, b: Budget, before: seq<Event>, mid: Budget, after: Out)
    requires AtMost(mid, Spend(b, before)) && Shallow(cfg, before) && Conserves(cfg, mid, after)
    ensures Conserves(cfg, b, Then(before, after))
  {
    Concat(before, after.events);
  }

  lemma QuietConserves(cfg: Config, b: Budget, events: seq<Event>)
    requires Solvent(b) && forall i :: 0 <= i < |events| ==> events[i].Raised?
    ensures Conserves(cfg, b, Out(events, b))
  {
    Unpaid(events);
  }

  lemma StepConserves(cfg: Config, b: Budget, before: seq<Event>, mid: Budget, nested: Out, rest: Out)
    requires AtMost(mid, Spend(b, before)) && Shallow(cfg, before) && Conserves(cfg, mid, nested) && Conserves(cfg, nested.budget, rest)
    ensures Conserves(cfg, b, Then(before + nested.events, rest))
  {
    ThenConserves(cfg, b, before, mid, nested);
    ThenConserves(cfg, b, before + nested.events, nested.budget, rest);
  }

  lemma {:induction false} MembersConserve(
      env: Env, cfg: Config, at: Route, path: string, dataLen: nat, ms: seq<Member>, ending: Ending, i: nat, unpacked: nat, depth: nat, b: Budget)
    requires i <= |ms| && depth <= cfg.maxDepth && Solvent(b)
    ensures Conserves(cfg, b, ScanMembers(env, cfg, at, path, dataLen, ms, ending, i, unpacked, depth, b))
    decreases cfg.maxDepth + 1 - depth, 0, |ms| - i
  {
    hide StepMember, StepEvents, Shallow, Spend;
    if i == |ms| {
      QuietConserves(cfg, b, EndEvents(path, ending));
    } else {
      StepCosts(cfg, at, path, dataLen, ms, i, unpacked, b);
      var s := StepMember(cfg, at, path, dataLen, ms, i, unpacked, b);
      if !s.halts {
        var nested := NestedOut(env, cfg, at, path, s, i, ms[i].name, depth);
        if s.archive.Some? {
          ArchiveConserves(env, cfg, at + [i], Inside(path, ms[i].name), s.archive.value, depth + 1, s.b);
        } else {
          QuietConserves(cfg, s.b, []);
        }
        MembersConserve(env, cfg, at, path, dataLen, ms, ending, i + 1, s.unpacked, depth, nested.budget);
        StepConserves(cfg, b, StepEvents(s), s.b, nested, ScanMembers(env, cfg, at, path, dataLen, ms, ending, i + 1, s.unpacked, depth, nested.budget));
      }
    }
  }

  /**
   For every tree of nested archives and every decoder: bytes analysed plus bytes left never exceed the budget
   handed in, nor do members; neither remainder goes negative; nothing beyond the depth limit is opened.
   */
  lemma {:induction false} ArchiveConserves(env: Env, cfg: Config, at: Route, path: string, data: Bytes, depth: nat, b: Budget)
    requires Solvent(b)
    ensures Conserves(cfg, b, ScanArchive(env, cfg, at, path, data, depth, b))
    decreases if depth <= cfg.maxDepth then cfg.maxDepth + 1 - depth else 0, 2, 0
  {
    var o := ScanArchive(env, cfg, at, path, data, depth, b);
    if o.budget == b && forall i :: 0 <= i < |o.events| ==> !o.events[i].Analysed? {
      Unpaid(o.events);
    }
    if depth <= cfg.maxDepth {
      var first := [Opened(path, data, depth)];
      Unpaid(first);
      if OpensAsZip(path, data) {
        if env.preflight(data).None? && env.zip(data).Zip? && |env.zip(data).members| <= cfg.maxMembers {
          var ms := env.zip(data).members;
          MembersConserve(env, cfg, at, path, |data|, ms, Ends, 0, 0, depth, b);
          ThenConserves(cfg, b, first, b, ScanMembers(env, cfg, at, path, |data|, ms, Ends, 0, 0, depth, b));
        }
      } else if OpenTar(env, cfg, data, b).Tar? {
        var t := OpenTar(env, cfg, data, b);
        MembersConserve(env, cfg, at, path, |data|, t.members, t.ending, 0, 0, depth, b);
        ThenConserves(cfg, b, first, b, ScanMembers(env, cfg, at, path, |data|, t.members, t.ending, 0, 0, depth, b));
      } else if |o.events| == 2 && o.events[1].Analysed? {
        Paid(first, at + [0], PayloadPath(path), o.events[1].data);
      }
    }
  }
}
