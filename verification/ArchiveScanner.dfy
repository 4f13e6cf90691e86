/**
 The scanning methods: they draw on one shared budget object and collect capped samples, and leave exactly what
 `Archives` says of the same archive.
 */
module ArchiveScanner {

  import opened ArchiveReaders
  import opened Archives
  import opened ArchiveTheorems
  import opened Findings
  import opened Options
  import opened Sequences

  class ArchiveBudget {
    var remainingBytes: int
    var remainingMembers: int

    function Value(): Budget
      reads this
    {
      Budget(remainingBytes, remainingMembers)
    }

    constructor (cfg: Config)
      ensures Value() == Budget(cfg.maxTotalBytes, cfg.maxMembers)
    {
      remainingBytes, remainingMembers := cfg.maxTotalBytes, cfg.maxMembers;
    }

    method Charge(size: nat)
      modifies this
      ensures Value() == Budget(old(remainingBytes) - size, old(remainingMembers) - 1)
    {
      remainingMembers := remainingMembers - 1;
      remainingBytes := remainingBytes - size;
    }
  }

  class FileResult {
    var findings: seq<Finding>
    var issues: seq<Issue>
    var bytesScanned: nat
    var filesScanned: nat
    var archivesScanned: nat
    var archiveMembersScanned: nat
    var lifecycleScripts: nat
    var findingsOmitted: nat
    var issuesOmitted: nat
    var samplesBySeverity: map<Severity, nat>

    /** The samples and omission counts left of these findings. */
    ghost predicate Samples(fs: seq<Finding>)
      reads this
    {
      && findings == Kept(FILE_LIMITS, fs)
      && findingsOmitted == |fs| - |findings|
      && forall s :: s in samplesBySeverity && samplesBySeverity[s] == Count(findings, s)
    }

    ghost predicate IssueSamples(xs: seq<Issue>)
      reads this
    {
      issues == KeptIssues(FILE_ISSUE_LIMIT, xs) && issuesOmitted == |xs| - |issues|
    }

    ghost predicate Counts(env: Env, events: seq<Event>)
      reads this
    {
      && bytesScanned == BytesOf(events) && archivesScanned == ArchivesOf(events)
      && archiveMembersScanned == MembersOf(events) && lifecycleScripts == ScriptsOf(env, events)
    }

    /** The result of a scan that did this. */
    ghost predicate Holds(env: Env, events: seq<Event>)
      reads this
    {
      Samples(FindingsOf(env, events)) && IssueSamples(IssuesOf(events)) && Counts(env, events)
    }

    constructor ()
      ensures Samples([]) && IssueSamples([]) && filesScanned == 0
      ensures bytesScanned == archivesScanned == archiveMembersScanned == lifecycleScripts == 0
    {
      findings, issues := [], [];
      bytesScanned, filesScanned, archivesScanned, archiveMembersScanned, lifecycleScripts := 0, 0, 0, 0, 0;
      findingsOmitted, issuesOmitted := 0, 0;
      samplesBySeverity := map[Review := 0, High := 0, Critical := 0];
      new;
      forall s ensures s in samplesBySeverity && samplesBySeverity[s] == Count(findings, s) {
        match s case Review => case High => case Critical =>
      }
    }

    method AddFinding(f: Finding, ghost before: seq<Finding>)
      requires Samples(before)
      modifies this`findings, this`findingsOmitted, this`samplesBySeverity
      ensures Samples(before + [f])
    {
      hide Kept, Count;
      KeptAppend(FILE_LIMITS, before, f);
      if samplesBySeverity[f.severity] < LimitOf(FILE_LIMITS, f.severity) {
        forall s ensures Count(findings + [f], s) == Count(findings, s) + if f.severity == s then 1 else 0 {
          CountAppend(findings, f, s);
        }
        findings := findings + [f];
        samplesBySeverity := samplesBySeverity[f.severity := samplesBySeverity[f.severity] + 1];
      } else {
        findingsOmitted := findingsOmitted + 1;
      }
    }

    /** Adding findings keeps what Kept keeps; ghost before is all that was added until now. */
    method AddFindings(fs: seq<Finding>, ghost before: seq<Finding>)
      requires Samples(before)
      modifies this`findings, this`findingsOmitted, this`samplesBySeverity
      ensures Samples(before + fs)
    {
      hide Kept, Count;
      assert before + fs[..0] == before;
      for i := 0 to |fs|
        invariant Samples(before + fs[..i])
      {
        AddFinding(fs[i], before + fs[..i]);
        assert (before + fs[..i]) + [fs[i]] == before + fs[..i + 1];
      }
      assert fs[..|fs|] == fs;
    }

    method AddIssues(xs: seq<Issue>, ghost before: seq<Issue>)
      requires IssueSamples(before)
      modifies this`issues, this`issuesOmitted
      ensures IssueSamples(before + xs)
    {
      assert before + xs[..0] == before;
      for i := 0 to |xs|
        invariant IssueSamples(before + xs[..i])
      {
        assert (before + xs[..i]) + [xs[i]] == before + xs[..i + 1];
        if |issues| < FILE_ISSUE_LIMIT {
          issues := issues + [xs[i]];
        } else {
          issuesOmitted := issuesOmitted + 1;
        }
      }
      assert xs[..|xs|] == xs;
    }

    method Raise(env: Env, issue: Issue, ghost events: seq<Event>)
      requires Holds(env, events)
      modifies this
      ensures Holds(env, events + [Raised(issue)]) && filesScanned == old(filesScanned)
    {
      hide Kept, Count, KeptIssues, FindingsOf, IssuesOf, BytesOf, MembersOf, ArchivesOf, ScriptsOf;
      AddIssues([issue], IssuesOf(events));
      OneEvent(env, events, Raised(issue));
    }

    method Report(env: Env, finding: Finding, ghost events: seq<Event>)
      requires Holds(env, events)
      modifies this
      ensures Holds(env, events + [Reported(finding)]) && filesScanned == old(filesScanned)
    {
      hide Kept, Count, KeptIssues, FindingsOf, IssuesOf, BytesOf, MembersOf, ArchivesOf, ScriptsOf;
      AddFindings([finding], FindingsOf(env, events));
      OneEvent(env, events, Reported(finding));
    }

    method Open(env: Env, path: string, data: Bytes, depth: nat, ghost events: seq<Event>)
      requires Holds(env, events)
      modifies this
      ensures Holds(env, events + [Opened(path, data, depth)]) && filesScanned == old(filesScanned)
    {
      hide Kept, Count, KeptIssues, FindingsOf, IssuesOf, BytesOf, MembersOf, ArchivesOf, ScriptsOf;
      archivesScanned := archivesScanned + 1;
      OneEvent(env, events, Opened(path, data, depth));
    }

    /** A member's content was analysed. */
    method Analyse(env: Env, ghost at: Route, path: string, data: Bytes, ghost events: seq<Event>)
      requires Holds(env, events)
      modifies this
      ensures Holds(env, events + [Analysed(at, path, data)]) && filesScanned == old(filesScanned)
    {
      hide Kept, Count, KeptIssues, FindingsOf, IssuesOf, BytesOf, MembersOf, ArchivesOf, ScriptsOf;
      var analysis := env.analyze(path, data);
      AddFindings(analysis.findings, FindingsOf(env, events));
      lifecycleScripts := lifecycleScripts + analysis.lifecycleScripts;
      archiveMembersScanned := archiveMembersScanned + 1;
      bytesScanned := bytesScanned + |data|;
      OneEvent(env, events, Analysed(at, path, data));
    }

    /** Merging a nested result, capped by itself, leaves what a single pass over both would. */
    method Merge(env: Env, nested: FileResult, ghost fs: seq<Finding>, ghost xs: seq<Issue>, ghost inner: seq<Event>)
      requires nested != this && Samples(fs) && IssueSamples(xs) && nested.Holds(env, inner)
      modifies this
      ensures Samples(fs + FindingsOf(env, inner)) && IssueSamples(xs + IssuesOf(inner))
      ensures bytesScanned == old(bytesScanned) + BytesOf(inner) && archivesScanned == old(archivesScanned) + ArchivesOf(inner)
      ensures archiveMembersScanned == old(archiveMembersScanned) + MembersOf(inner)
      ensures lifecycleScripts == old(lifecycleScripts) + ScriptsOf(env, inner) && filesScanned == old(filesScanned)
    {
      hide Kept, Count, KeptIssues, FindingsOf, IssuesOf, BytesOf, MembersOf, ArchivesOf, ScriptsOf;
      AddFindings(nested.findings, fs);
      AddIssues(nested.issues, xs);
      findingsOmitted := findingsOmitted + nested.findingsOmitted;
      issuesOmitted := issuesOmitted + nested.issuesOmitted;
      bytesScanned := bytesScanned + nested.bytesScanned;
      archivesScanned := archivesScanned + nested.archivesScanned;
      archiveMembersScanned := archiveMembersScanned + nested.archiveMembersScanned;
      lifecycleScripts := lifecycleScripts + nested.lifecycleScripts;
      KeptMerge(FILE_LIMITS, fs, FindingsOf(env, inner));
      KeptIssuesMerge(FILE_ISSUE_LIMIT, xs, IssuesOf(inner));
    }

    method MergeArchive(env: Env, nested: FileResult, ghost events: seq<Event>, ghost inner: seq<Event>)
      requires nested != this && Holds(env, events) && nested.Holds(env, inner)
      modifies this
      ensures Holds(env, events + inner) && filesScanned == old(filesScanned)
    {
      hide Samples, IssueSamples, FindingsOf, IssuesOf, BytesOf, MembersOf, ArchivesOf, ScriptsOf;
      Merge(env, nested, FindingsOf(env, events), IssuesOf(events), inner);
      Concat(events, inner);
      ConcatFindings(env, events, inner);
      ConcatIssues(events, inner);
    }
  }

  lemma KeptIssuesMerge(limit: nat, a: seq<Issue>, b: seq<Issue>)
    ensures KeptIssues(limit, a + KeptIssues(limit, b)) == KeptIssues(limit, a + b)
  {
  }

  lemma OneEvent(env: Env, events: seq<Event>, e: Event)
    ensures BytesOf(events + [e]) == BytesOf(events) + if e.Analysed? then |e.data| else 0
    ensures MembersOf(events + [e]) == MembersOf(events) + if e.Analysed? then 1 else 0
    ensures ArchivesOf(events + [e]) == ArchivesOf(events) + if e.Opened? then 1 else 0
    ensures ScriptsOf(env, events + [e]) == ScriptsOf(env, events) + if e.Analysed? then env.analyze(e.path, e.data).lifecycleScripts else 0
    ensures IssuesOf(events + [e]) == if e.Raised? then IssuesOf(events) + [e.issue] else IssuesOf(events)
    ensures FindingsOf(env, events + [e]) ==
            if e.Analysed? then FindingsOf(env, events) + env.analyze(e.path, e.data).findings
            else if e.Reported? then FindingsOf(env, events) + [e.finding]
            else FindingsOf(env, events)
  {
    var last := [e];
    assert last[1..] == [] && last[0] == e;
    Concat(events, last);
    ConcatFindings(env, events, last);
    ConcatIssues(events, last);
    assert FindingsOf(env, events) + [] == FindingsOf(env, events) && IssuesOf(events) + [] == IssuesOf(events);
  }

  // ----- scanning

  /** One member of an archive: refused, skipped, or paid for, read and analysed. */
  method ScanMember(
      env: Env, cfg: Config, ghost at: Route, path: string, dataLen: nat, ms: seq<Member>, i: nat, unpacked: nat,
      budget: ArchiveBudget, result: FileResult, ghost events: seq<Event>)
    returns (halts: bool, total: nat, archive: Option<Bytes>)
    requires i < |ms| && result.Holds(env, events)
    modifies budget, result
    ensures
      var s := StepMember(cfg, at, path, dataLen, ms, i, unpacked, old(budget.Value()));
      && result.Holds(env, events + StepEvents(s)) && budget.Value() == s.b
      && halts == s.halts && total == s.unpacked && archive == s.archive
    ensures result.filesScanned == old(result.filesScanned)
  {
    hide FileResult.Holds, Traversal, Judge, Fit;
    var m := ms[i];
    total, archive, halts := unpacked, None, false;
    if m.TarMember? && i + 1 > cfg.maxMembers {
      result.Raise(env, Issue(path, "archive-limit"), events);
      StepAppends(events, StepMember(cfg, at, path, dataLen, ms, i, unpacked, old(budget.Value())));
      assert events + [] == events;
      return true, total, None;
    }
    ghost var named := events + Traversal(path, m);
    ReportName(env, path, m, result, events);
    match Judge(cfg, path, m, dataLen, unpacked, budget.Value()) {
      case Skip =>
      case Refuse(issue) => result.Raise(env, issue, named);
      case Stop(issue) =>
        result.Raise(env, issue, named);
        halts := true;
      case Take =>
        total := unpacked + m.size;
        budget.Charge(m.size);
        var content := ReadMember(cfg, path, m);
        match content {
          case Nothing =>
          case Abort(issue) =>
            result.Raise(env, issue, named);
            halts := true;
          case Bad(issue) => result.Raise(env, issue, named);
          case Good(bytes) =>
            var inside := Inside(path, m.name);
            result.Analyse(env, at + [i], inside, bytes, named);
            if IsArchivePath(inside, bytes) { archive := Some(bytes); }
        }
    }
    StepAppends(events, StepMember(cfg, at, path, dataLen, ms, i, unpacked, old(budget.Value())));
  }

  lemma StepAppends(events: seq<Event>, s: Step)
    ensures events + StepEvents(s) == if s.last.Some? then events + s.named + [s.last.value] else events + s.named
  {
    if s.last.Some? { assert events + (s.named + [s.last.value]) == events + s.named + [s.last.value]; }
  }

  method ReportName(env: Env, path: string, m: Member, result: FileResult, ghost events: seq<Event>)
    requires result.Holds(env, events)
    modifies result
    ensures result.Holds(env, events + Traversal(path, m)) && result.filesScanned == old(result.filesScanned)
  {
    if UnsafeName(m.name) {
      result.Report(env, Finding(Inside(path, m.name), "archive-path-traversal", High, 0), events);
    } else {
      assert events + [] == events;
    }
  }

  /** Reads a member's content, whatever it claims its size to be. */
  method ReadMember(cfg: Config, path: string, m: Member) returns (c: Content)
    ensures c == Read(cfg, path, m)
  {
    match m {
      case TarMember(_, _, _, _) => c := Read(cfg, path, m);
      case ZipMember(_, _, _, _, _, size, _, packed) =>
        var d := ExtractZip(packed, cfg.maxMemberBytes);
        match d {
          case Over => c := Bad(Issue(Inside(path, m.name), "archive-expansion-limit"));
          case Broke => c := Bad(Issue(Inside(path, m.name), "archive-read"));
          case All(bytes) => c := if |bytes| != size then Bad(Issue(Inside(path, m.name), "archive-read")) else Good(bytes);
        }
    }
  }

  /** The loop over the members of an archive, with the archives found inside. */
  method ScanAllMembers(
      env: Env, cfg: Config, ghost at: Route, path: string, dataLen: nat, ms: seq<Member>, ending: Ending, depth: nat,
      budget: ArchiveBudget, result: FileResult, ghost events: seq<Event>)
    requires depth <= cfg.maxDepth && result.Holds(env, events)
    modifies budget, result
    ensures
      var o := ScanMembers(env, cfg, at, path, dataLen, ms, ending, 0, 0, depth, old(budget.Value()));
      result.Holds(env, events + o.events) && budget.Value() == o.budget
    ensures result.filesScanned == old(result.filesScanned)
    decreases cfg.maxDepth + 1 - depth, 0
  {
    hide FileResult.Holds, StepMember, StepEvents;
    ghost var whole := ScanMembers(env, cfg, at, path, dataLen, ms, ending, 0, 0, depth, budget.Value());
    ghost var done: seq<Event> := [];
    var i, unpacked, halts := 0, 0, false;
    assert events + done == events;
    while i < |ms| && !halts
      invariant i <= |ms| && result.Holds(env, events + done) && result.filesScanned == old(result.filesScanned)
      invariant if halts then whole == Out(done, budget.Value())
                else whole == Then(done, ScanMembers(env, cfg, at, path, dataLen, ms, ending, i, unpacked, depth, budget.Value()))
      decreases |ms| - i, !halts
    {
      ghost var s := StepMember(cfg, at, path, dataLen, ms, i, unpacked, budget.Value());
      ghost var nested := if s.halts then Out([], s.b) else NestedOut(env, cfg, at, path, s, i, ms[i].name, depth);
      ghost var before := done;
      var archive;
      halts, unpacked, archive := ScanMember(env, cfg, at, path, dataLen, ms, i, unpacked, budget, result, events + done);
      Reassociate(events, done, StepEvents(s));
      done := done + StepEvents(s);
      if archive.Some? && !halts {
        var inner := ScanArchiveBytes(env, cfg, at + [i], Inside(path, ms[i].name), archive.value, depth + 1, budget);
        result.MergeArchive(env, inner, events + done, nested.events);
        Reassociate(events, done, nested.events);
        done := done + nested.events;
      } else {
        assert done + [] == done;
      }
      if !halts {
        ThenTwice(before, StepEvents(s) + nested.events, ScanMembers(env, cfg, at, path, dataLen, ms, ending, i + 1, unpacked, depth, budget.Value()));
        Reassociate(before, StepEvents(s), nested.events);
        i := i + 1;
      }
    }
    if !halts {
      Reassociate(events, done, EndEvents(path, ending));
      match ending {
        case Ends => assert events + done + [] == events + done;
        case Overran => result.Raise(env, Issue(path, "archive-expansion-limit"), events + done);
        case Corrupt => result.Raise(env, Issue(path, "archive-read"), events + done);
      }
    }
  }

  lemma ThenTwice(a: seq<Event>, b: seq<Event>, o: Out)
    ensures Then(a, Then(b, o)) == Then(a + b, o)
  {
    Reassociate(a, b, o.events);
  }

  /** A gzip stream without a tar in it: one payload, analysed but not opened. */
  method ScanPlainGzip(env: Env, cfg: Config, ghost at: Route, path: string, data: Bytes, depth: nat, budget: ArchiveBudget)
    returns (result: FileResult)
    modifies budget
    ensures fresh(result) && result.filesScanned == 0
    ensures
      var o := ScanGzip(env, cfg, at, path, data, depth, old(budget.Value()));
      result.Holds(env, o.events) && budget.Value() == o.budget
  {
    result := new FileResult();
    result.Open(env, path, data, depth, []);
    ghost var events := [] + [Opened(path, data, depth)];
    var drained := ReadAll(env.gunzip(data), Min(cfg.maxTotalBytes, budget.remainingBytes));
    match drained {
      case Over => result.Raise(env, Issue(path, "archive-expansion-limit"), events);
      case Broke => result.Raise(env, Issue(path, "archive-read"), events);
      case All(payload) =>
        if |data| > 0 && |payload| > |data| * cfg.maxRatio {
          result.Raise(env, Issue(path, "archive-expansion-limit"), events);
        } else if budget.remainingMembers <= 0 || |payload| > budget.remainingBytes {
          result.Raise(env, Issue(path, "archive-total-limit"), events);
        } else {
          budget.Charge(|payload|);
          result.Analyse(env, at + [0], PayloadPath(path), payload, events);
        }
    }
    assert ScanGzip(env, cfg, at, path, data, depth, old(budget.Value())).events ==
           events + [ScanGzip(env, cfg, at, path, data, depth, old(budget.Value())).events[1]];
  }

  method ScanTarBytes(env: Env, cfg: Config, ghost at: Route, path: string, data: Bytes, depth: nat, budget: ArchiveBudget)
    returns (result: FileResult)
    requires depth <= cfg.maxDepth
    modifies budget
    ensures fresh(result) && result.filesScanned == 0
    ensures
      var o := ScanTar(env, cfg, at, path, data, depth, old(budget.Value()));
      result.Holds(env, o.events) && budget.Value() == o.budget
    decreases cfg.maxDepth + 1 - depth, 1
  {
    hide FileResult.Holds;
    result := NewResult(env);
    assert forall issue :: [] + [Raised(issue)] == [Raised(issue)];
    if ReportsTooMuch(cfg, data) {
      result.Raise(env, Issue(path, "archive-expansion-limit"), []);
      return;
    }
    var tar := OpenTar(env, cfg, data, budget.Value());
    match tar {
      case TooLong => result.Raise(env, Issue(path, "archive-expansion-limit"), []);
      case NotTar =>
        if IsGzip(data) && !NamedTar(path) {
          result := ScanPlainGzip(env, cfg, at, path, data, depth, budget);
        } else {
          result.Raise(env, Issue(path, "archive-open"), []);
        }
      case Tar(ms, ending) =>
        result.Open(env, path, data, depth, []);
        assert [] + [Opened(path, data, depth)] == [Opened(path, data, depth)];
        ScanAllMembers(env, cfg, at, path, |data|, ms, ending, depth, budget, result, [Opened(path, data, depth)]);
    }
  }

  method ScanZipBytes(env: Env, cfg: Config, ghost at: Route, path: string, data: Bytes, depth: nat, budget: ArchiveBudget)
    returns (result: FileResult)
    requires depth <= cfg.maxDepth
    modifies budget
    ensures fresh(result) && result.filesScanned == 0
    ensures
      var o := ScanZip(env, cfg, at, path, data, depth, old(budget.Value()));
      result.Holds(env, o.events) && budget.Value() == o.budget
    decreases cfg.maxDepth + 1 - depth, 1
  {
    hide FileResult.Holds;
    result := NewResult(env);
    assert forall issue :: [] + [Raised(issue)] == [Raised(issue)];
    if env.preflight(data).Some? {
      result.Raise(env, Issue(path, env.preflight(data).value), []);
      return;
    }
    var zip := env.zip(data);
    match zip {
      case NotZip => result.Raise(env, Issue(path, "archive-open"), []);
      case Zip(ms) =>
        result.Open(env, path, data, depth, []);
        ghost var first := [Opened(path, data, depth)];
        assert [] + [Opened(path, data, depth)] == first;
        if |ms| > cfg.maxMembers {
          result.Raise(env, Issue(path, "archive-limit"), first);
          assert first + [Raised(Issue(path, "archive-limit"))] == [Opened(path, data, depth), Raised(Issue(path, "archive-limit"))];
        } else {
          ScanAllMembers(env, cfg, at, path, |data|, ms, Ends, depth, budget, result, first);
        }
    }
  }

  method NewResult(env: Env) returns (result: FileResult)
    ensures fresh(result) && result.Holds(env, []) && result.filesScanned == 0
  {
    result := new FileResult();
  }

  /** An archive and everything inside it, on the budget it shares with the archives around it. */
  method ScanArchiveBytes(env: Env, cfg: Config, ghost at: Route, path: string, data: Bytes, depth: nat, budget: ArchiveBudget)
    returns (result: FileResult)
    modifies budget
    ensures fresh(result) && result.filesScanned == 0
    ensures
      var o := ScanArchive(env, cfg, at, path, data, depth, old(budget.Value()));
      result.Holds(env, o.events) && budget.Value() == o.budget
    decreases if depth <= cfg.maxDepth then cfg.maxDepth + 1 - depth else 0, 2
  {
    hide FileResult.Holds;
    if depth > cfg.maxDepth {
      result := NewResult(env);
      result.Raise(env, Issue(path, "archive-depth-limit"), []);
      assert [] + [Raised(Issue(path, "archive-depth-limit"))] == [Raised(Issue(path, "archive-depth-limit"))];
    } else if OpensAsZip(path, data) {
      result := ScanZipBytes(env, cfg, at, path, data, depth, budget);
    } else {
      result := ScanTarBytes(env, cfg, at, path, data, depth, budget);
    }
  }

  /** What scanning one regular file adds up to: its own content, a cache mismatch if any, and its archive. */
  function FileEvents(env: Env, cfg: Config, path: string, content: Option<Bytes>, unread: Issue, mismatch: Option<Finding>, archives: bool): seq<Event> {
    if content.None? then [Raised(unread)]
    else
      var own := (if mismatch.Some? then [Reported(mismatch.value)] else []) + [Analysed([], path, content.value)];
      if archives && IsArchivePath(path, content.value) then
        own + ScanArchive(env, cfg, [], path, content.value, 0, Budget(cfg.maxTotalBytes, cfg.maxMembers)).events
      else own
  }

  method ScanFile(env: Env, cfg: Config, path: string, content: Option<Bytes>, unread: Issue, mismatch: Option<Finding>, archives: bool)
    returns (result: FileResult)
    ensures fresh(result)
    ensures
      var events := FileEvents(env, cfg, path, content, unread, mismatch, archives);
      result.Samples(FindingsOf(env, events)) && result.IssueSamples(IssuesOf(events)) && result.bytesScanned == BytesOf(events)
    ensures result.filesScanned == if content.Some? then 1 else 0
    ensures content.Some? ==> result.bytesScanned <= |content.value| + cfg.maxTotalBytes && result.archiveMembersScanned <= cfg.maxMembers
  {
    hide Kept, Count, KeptIssues, FileResult.Holds, FindingsOf, IssuesOf, BytesOf, MembersOf, ArchivesOf, ScriptsOf;
    result := new FileResult();
    if content.None? {
      result.AddIssues([unread], []);
      OneEvent(env, [], Raised(unread));
      NoEvents(env);
      assert [] + [Raised(unread)] == [Raised(unread)];
      return;
    }
    var data := content.value;
    ghost var fs: seq<Finding> := [];
    if mismatch.Some? {
      result.AddFindings([mismatch.value], []);
      fs := [mismatch.value];
      assert [] + fs == fs;
    }
    var analysis := env.analyze(path, data);
    result.AddFindings(analysis.findings, fs);
    result.lifecycleScripts := result.lifecycleScripts + analysis.lifecycleScripts;
    result.filesScanned := 1;
    result.bytesScanned := |data|;
    OwnEvents(env, path, data, mismatch);
    ghost var own := (if mismatch.Some? then [Reported(mismatch.value)] else []) + [Analysed([], path, data)];
    if archives && IsArchivePath(path, data) {
      var budget := new ArchiveBudget(cfg);
      ghost var b := budget.Value();
      var inner := ScanArchiveBytes(env, cfg, [], path, data, 0, budget);
      ghost var o := ScanArchive(env, cfg, [], path, data, 0, b);
      ArchiveConserves(env, cfg, [], path, data, 0, b);
      result.Merge(env, inner, FindingsOf(env, own), [], o.events);
      Concat(own, o.events);
      ConcatFindings(env, own, o.events);
      ConcatIssues(own, o.events);
    }
  }

  lemma NoEvents(env: Env)
    ensures FindingsOf(env, []) == [] && IssuesOf([]) == [] && BytesOf([]) == 0
  {
  }

  lemma OwnEvents(env: Env, path: string, data: Bytes, mismatch: Option<Finding>)
    ensures
      var own := (if mismatch.Some? then [Reported(mismatch.value)] else []) + [Analysed([], path, data)];
      && FindingsOf(env, own) == (if mismatch.Some? then [mismatch.value] else []) + env.analyze(path, data).findings
      && IssuesOf(own) == [] && BytesOf(own) == |data|
  {
    if mismatch.Some? {
      OneEvent(env, [], Reported(mismatch.value));
      OneEvent(env, [] + [Reported(mismatch.value)], Analysed([], path, data));
    } else {
      OneEvent(env, [], Analysed([], path, data));
    }
  }
}
