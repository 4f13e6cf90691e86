/**
 The scanner's exit code.  It is computed from samples that were cut per analysis, per file and per archive, and
 overall; it is the one the full set of findings would give.
 */
module Verdict {

  import opened ArchiveBudgets
  import opened ArchiveCompleteness
  import opened ArchiveScanner
  import opened ArchiveTheorems
  import opened Archives
  import opened Findings
  import opened Options

  /** Everything one scan of a file found, before any duplicate collapsed or any list was cut. */
  function RawOf(env: Env, events: seq<Event>): seq<Finding> {
    if events == [] then []
    else
      (match events[0]
       case Analysed(_, path, data) => env.raw(path, data)
       case Reported(finding) => [finding]
       case _ => []) + RawOf(env, events[1..])
  }

  function AllRaw(env: Env, files: seq<seq<Event>>): seq<Finding> {
    if files == [] then [] else AllRaw(env, files[..|files| - 1]) + RawOf(env, files[|files| - 1])
  }

  /** What the files hand to the scanner, file by file. */
  function Handed(env: Env, files: seq<seq<Event>>): seq<Finding> {
    if files == [] then [] else Handed(env, files[..|files| - 1]) + Kept(FILE_LIMITS, FindingsOf(env, files[|files| - 1]))
  }

  function HandedIssues(files: seq<seq<Event>>): seq<Issue> {
    if files == [] then [] else HandedIssues(files[..|files| - 1]) + KeptIssues(FILE_ISSUE_LIMIT, IssuesOf(files[|files| - 1]))
  }

  function FindingsRaised(env: Env, files: seq<seq<Event>>): nat {
    if files == [] then 0 else FindingsRaised(env, files[..|files| - 1]) + |FindingsOf(env, files[|files| - 1])|
  }

  /** Findings raised by some files and by some more. */
  lemma {:induction false} RaisedAddsUp(env: Env, files: seq<seq<Event>>, more: seq<seq<Event>>)
    ensures FindingsRaised(env, files + more) == FindingsRaised(env, files) + FindingsRaised(env, more)
    ensures |more| == 1 ==> FindingsRaised(env, more) == |FindingsOf(env, more[0])|
    decreases |more|
  {
    if more == [] {
      assert files + more == files;
    } else {
      assert (files + more)[..|files + more| - 1] == files + more[..|more| - 1];
      RaisedAddsUp(env, files, more[..|more| - 1]);
      RaisedAddsUp(env, [], more[..|more| - 1]);
    }
  }

  function IssuesRaised(files: seq<seq<Event>>): nat {
    if files == [] then 0 else IssuesRaised(files[..|files| - 1]) + |IssuesOf(files[|files| - 1])|
  }

  /** The exit code the full, uncut record calls for. */
  ghost function FullVerdict(env: Env, files: seq<seq<Event>>, failOn: Severity): int {
    if IssuesRaised(files) > 0 then 2 else if AtLeast(AllRaw(env, files), Rank(failOn)) then 1 else 0
  }

  /** One of the findings an event stands for before anything was collapsed or cut. */
  predicate Holds(env: Env, e: Event, f: Finding) {
    (e.Analysed? && f in env.raw(e.path, e.data)) || e == Reported(f)
  }

  lemma {:induction false} RawAre(env: Env, events: seq<Event>, f: Finding)
    ensures f in RawOf(env, events) <==> exists i :: 0 <= i < |events| && Holds(env, events[i], f)
    decreases |events|
  {
    if events != [] {
      RawAre(env, events[1..], f);
      if i :| 0 <= i < |events| && Holds(env, events[i], f) {
        if i > 0 { assert events[1..][i - 1] == events[i]; }
      }
    }
  }

  predicate FoundIn(env: Env, events: seq<Event>, f: Finding) { exists i :: 0 <= i < |events| && Holds(env, events[i], f) }

  lemma {:induction false} AllRawAre(env: Env, files: seq<seq<Event>>, f: Finding)
    ensures f in AllRaw(env, files) <==> exists k :: 0 <= k < |files| && FoundIn(env, files[k], f)
    decreases |files|
  {
    if files != [] {
      var before := files[..|files| - 1];
      AllRawAre(env, before, f);
      RawAre(env, files[|files| - 1], f);
      if k :| 0 <= k < |files| && FoundIn(env, files[k], f) {
        if k < |before| { assert before[k] == files[k]; }
      }
      if k :| 0 <= k < |before| && FoundIn(env, before[k], f) { assert files[k] == before[k]; }
    }
  }

  predicate RaisedIn(events: seq<Event>) { exists i :: 0 <= i < |events| && events[i].Raised? }

  lemma {:induction false} CleanIsQuiet(events: seq<Event>)
    ensures Clean(events) <==> !RaisedIn(events)
    decreases |events|
  {
    if events != [] {
      CleanIsQuiet(events[1..]);
      if i :| 0 <= i < |events| && events[i].Raised? {
        if i > 0 { assert events[1..][i - 1] == events[i]; }
      }
    }
  }

  /**
   The exit code in terms of the events alone: 2 if any is an issue; otherwise 1 if anything that was found is as
   severe as asked, review being the least severe and critical the most; otherwise 0.
   */
  lemma VerdictIs(env: Env, files: seq<seq<Event>>, failOn: Severity)
    ensures
      var issue := exists k :: 0 <= k < |files| && RaisedIn(files[k]);
      var severe := exists k, f :: 0 <= k < |files| && FoundIn(env, files[k], f) && AsSevereAs(f.severity, failOn);
      FullVerdict(env, files, failOn) == if issue then 2 else if severe then 1 else 0
  {
    hide Clean, RaisedIn, FoundIn;
    NoIssueAnywhere(files);
    forall k | 0 <= k < |files| ensures Clean(files[k]) <==> !RaisedIn(files[k]) { CleanIsQuiet(files[k]); }
    forall f ensures f in AllRaw(env, files) <==> exists k :: 0 <= k < |files| && FoundIn(env, files[k], f) { AllRawAre(env, files, f); }
    forall f: Finding ensures Rank(f.severity) >= Rank(failOn) <==> AsSevereAs(f.severity, failOn) { RankOrders(f.severity, failOn); }
    if AtLeast(AllRaw(env, files), Rank(failOn)) {
      var i :| 0 <= i < |AllRaw(env, files)| && Rank(AllRaw(env, files)[i].severity) >= Rank(failOn);
      assert AllRaw(env, files)[i] in AllRaw(env, files);
    }
    if k, f :| 0 <= k < |files| && FoundIn(env, files[k], f) && AsSevereAs(f.severity, failOn) {
      assert f in AllRaw(env, files);
      var i :| 0 <= i < |AllRaw(env, files)| && AllRaw(env, files)[i] == f;
      assert AtLeast(AllRaw(env, files), Rank(failOn));
    }
  }

  /** Every analysis collapses duplicates and keeps its 128 most severe findings. */
  ghost predicate Bounds(env: Env) {
    forall path, data :: IsBounded(env.raw(path, data), env.analyze(path, data).findings)
  }

  lemma {:induction false} AnalysesKeepSeverity(env: Env, events: seq<Event>, threshold: int)
    requires Bounds(env)
    ensures AtLeast(FindingsOf(env, events), threshold) <==> AtLeast(RawOf(env, events), threshold)
    decreases |events|
  {
    if events != [] {
      var first, rest := events[0], events[1..];
      AnalysesKeepSeverity(env, rest, threshold);
      match first {
        case Analysed(_, path, data) =>
          BoundedAtLeast(env.raw(path, data), env.analyze(path, data).findings, threshold);
          AtLeastConcat(env.raw(path, data), RawOf(env, rest), threshold);
          AtLeastConcat(env.analyze(path, data).findings, FindingsOf(env, rest), threshold);
        case Reported(finding) =>
          AtLeastConcat([finding], RawOf(env, rest), threshold);
          AtLeastConcat([finding], FindingsOf(env, rest), threshold);
        case _ =>
          assert [] + RawOf(env, rest) == RawOf(env, rest) && [] + FindingsOf(env, rest) == FindingsOf(env, rest);
      }
    }
  }

  lemma {:induction false} FilesKeepSeverity(env: Env, files: seq<seq<Event>>, threshold: int)
    requires Bounds(env)
    ensures AtLeast(Handed(env, files), threshold) <==> AtLeast(AllRaw(env, files), threshold)
    decreases |files|
  {
    if files != [] {
      var before, last := files[..|files| - 1], files[|files| - 1];
      FilesKeepSeverity(env, before, threshold);
      AnalysesKeepSeverity(env, last, threshold);
      KeptAtLeast(FILE_LIMITS, FindingsOf(env, last), threshold);
      AtLeastConcat(Handed(env, before), Kept(FILE_LIMITS, FindingsOf(env, last)), threshold);
      AtLeastConcat(AllRaw(env, before), RawOf(env, last), threshold);
    }
  }

  /** What the scanner keeps of everything handed to it. */
  function SamplesOf(env: Env, files: seq<seq<Event>>): seq<Finding> {
    Kept(GLOBAL_LIMITS, Handed(env, files))
  }

  /** No cap changes the answer to "is anything at least this severe", for any threshold. */
  lemma CappingKeepsVerdict(env: Env, files: seq<seq<Event>>, threshold: int)
    requires Bounds(env)
    ensures AtLeast(SamplesOf(env, files), threshold) <==> AtLeast(AllRaw(env, files), threshold)
  {
    FilesKeepSeverity(env, files, threshold);
    KeptAtLeast(GLOBAL_LIMITS, Handed(env, files), threshold);
  }

  lemma {:induction false} HandedIssuesShow(files: seq<seq<Event>>)
    ensures HandedIssues(files) != [] <==> IssuesRaised(files) > 0
    decreases |files|
  {
    if files != [] { HandedIssuesShow(files[..|files| - 1]); }
  }

  lemma {:induction false} NoIssueAnywhere(files: seq<seq<Event>>)
    ensures IssuesRaised(files) == 0 <==> forall i :: 0 <= i < |files| ==> Clean(files[i])
    decreases |files|
  {
    if files != [] {
      var before := files[..|files| - 1];
      NoIssueAnywhere(before);
      assert forall i :: 0 <= i < |before| ==> before[i] == files[i];
    }
  }

  /**
   Exit 0 or 1 means complete: each file was read and analysed, and of the archive it holds, at every level,
   exactly the members outside plain gzip payloads were analysed.
   */
  lemma VerdictMeansComplete(
      env: Env, cfg: Config, files: seq<seq<Event>>, i: nat, path: string, content: Option<Bytes>, unread: Issue, mismatch: Option<Finding>,
      failOn: Severity, route: Route, n: Node)
    requires Honest(env) && i < |files| && files[i] == FileEvents(env, cfg, path, content, unread, mismatch, true)
    requires FullVerdict(env, files, failOn) != 2
    ensures content.Some? && Analysed([], path, content.value) in files[i]
    ensures
      IsArchivePath(path, content.value) ==>
        var archive := ScanArchive(env, cfg, [], path, content.value, 0, Budget(cfg.maxTotalBytes, cfg.maxMembers)).events;
        && (forall e :: e in archive ==> e in files[i])
        && (Says(archive, [], route, n) <==>
              Descend(env, path, content.value, route) == Some(n) && !Crosses(env, path, content.value, route))
  {
    NoIssueAnywhere(files);
    assert Clean(files[i]);
    if content.None? { RaisedOnly(unread); }
    if content.Some? && IsArchivePath(path, content.value) {
      var own := (if mismatch.Some? then [Reported(mismatch.value)] else []) + [Analysed([], path, content.value)];
      var b := Budget(cfg.maxTotalBytes, cfg.maxMembers);
      CleanConcat(own, ScanArchive(env, cfg, [], path, content.value, 0, b).events);
      ArchiveExact(env, cfg, [], path, content.value, 0, b, route, n);
    }
  }

  lemma NothingFound(env: Env, issue: Issue)
    ensures FindingsOf(env, [Raised(issue)]) == [] && Kept(FILE_LIMITS, []) == []
    ensures IssuesOf([Raised(issue)]) == [issue] && KeptIssues(FILE_ISSUE_LIMIT, [issue]) == [issue]
  {
    assert [Raised(issue)][1..] == [];
  }

  class LocalScanner {
    var findings: seq<Finding>
    var issues: seq<Issue>
    var issuesObserved: bool
    var findingsOmitted: nat
    var issuesOmitted: nat
    var samplesBySeverity: map<Severity, nat>

    ghost predicate Sampled(fs: seq<Finding>)
      reads this
    {
      && findings == Kept(GLOBAL_LIMITS, fs)
      && forall s :: s in samplesBySeverity && samplesBySeverity[s] == Count(findings, s)
    }

    /** What is reported after these files: the samples, and every omission counted. */
    ghost predicate Totals(env: Env, files: seq<seq<Event>>)
      reads this
    {
      && Sampled(Handed(env, files)) && |findings| + findingsOmitted == FindingsRaised(env, files)
      && issues == KeptIssues(GLOBAL_ISSUE_LIMIT, HandedIssues(files)) && |issues| + issuesOmitted == IssuesRaised(files)
      && issuesObserved == (IssuesRaised(files) > 0)
    }

    constructor ()
      ensures Sampled([]) && issues == [] && !issuesObserved && findingsOmitted == issuesOmitted == 0
    {
      findings, issues, issuesObserved, findingsOmitted, issuesOmitted := [], [], false, 0, 0;
      samplesBySeverity := map[Review := 0, High := 0, Critical := 0];
      new;
      forall s ensures s in samplesBySeverity && samplesBySeverity[s] == Count(findings, s) {
        match s case Review => case High => case Critical =>
      }
    }

    method AddFinding(f: Finding, ghost before: seq<Finding>)
      requires Sampled(before)
      modifies this`findings, this`findingsOmitted, this`samplesBySeverity
      ensures Sampled(before + [f])
      ensures |findings| + findingsOmitted == |old(findings)| + old(findingsOmitted) + 1
    {
      hide Kept, Count;
      KeptAppend(GLOBAL_LIMITS, before, f);
      if samplesBySeverity[f.severity] < LimitOf(GLOBAL_LIMITS, f.severity) {
        forall s ensures Count(findings + [f], s) == Count(findings, s) + if f.severity == s then 1 else 0 {
          CountAppend(findings, f, s);
        }
        findings := findings + [f];
        samplesBySeverity := samplesBySeverity[f.severity := samplesBySeverity[f.severity] + 1];
      } else {
        findingsOmitted := findingsOmitted + 1;
      }
    }

    method AddFindings(fs: seq<Finding>, ghost before: seq<Finding>)
      requires Sampled(before)
      modifies this`findings, this`findingsOmitted, this`samplesBySeverity
      ensures Sampled(before + fs)
      ensures |findings| + findingsOmitted == |old(findings)| + old(findingsOmitted) + |fs|
    {
      hide Kept, Count;
      assert before + fs[..0] == before;
      for i := 0 to |fs|
        invariant Sampled(before + fs[..i])
        invariant |findings| + findingsOmitted == |old(findings)| + old(findingsOmitted) + i
      {
        AddFinding(fs[i], before + fs[..i]);
        assert (before + fs[..i]) + [fs[i]] == before + fs[..i + 1];
      }
      assert fs[..|fs|] == fs;
    }

    method AddIssues(xs: seq<Issue>, ghost before: seq<Issue>)
      requires issues == KeptIssues(GLOBAL_ISSUE_LIMIT, before)
      modifies this`issues, this`issuesOmitted, this`issuesObserved
      ensures issues == KeptIssues(GLOBAL_ISSUE_LIMIT, before + xs)
      ensures |issues| + issuesOmitted == |old(issues)| + old(issuesOmitted) + |xs|
      ensures issuesObserved == (old(issuesObserved) || xs != [])
    {
      assert before + xs[..0] == before;
      for i := 0 to |xs|
        invariant issues == KeptIssues(GLOBAL_ISSUE_LIMIT, before + xs[..i])
        invariant |issues| + issuesOmitted == |old(issues)| + old(issuesOmitted) + i
        invariant issuesObserved == (old(issuesObserved) || i > 0)
      {
        issuesObserved := true;
        assert (before + xs[..i]) + [xs[i]] == before + xs[..i + 1];
        if |issues| < GLOBAL_ISSUE_LIMIT {
          issues := issues + [xs[i]];
        } else {
          issuesOmitted := issuesOmitted + 1;
        }
      }
      assert xs[..|xs|] == xs;
    }

    /** One more file's result: its samples are added, its omissions carried over. */
    method Consume(result: FileResult, ghost env: Env, ghost files: seq<seq<Event>>, ghost events: seq<Event>)
      requires Totals(env, files) && result.Samples(FindingsOf(env, events)) && result.IssueSamples(IssuesOf(events))
      modifies this
      ensures Totals(env, files + [events])
    {
      hide Kept, Count, FindingsOf, IssuesOf;
      AddFindings(result.findings, Handed(env, files));
      AddIssues(result.issues, HandedIssues(files));
      findingsOmitted := findingsOmitted + result.findingsOmitted;
      issuesOmitted := issuesOmitted + result.issuesOmitted;
      if result.issuesOmitted > 0 { issuesObserved := true; }
      assert (files + [events])[..|files|] == files;
    }

    /** An issue the walk raises is recorded like a file that has nothing but that issue. */
    method NoteIssue(issue: Issue, ghost env: Env, ghost files: seq<seq<Event>>)
      requires Totals(env, files)
      modifies this`issues, this`issuesOmitted, this`issuesObserved
      ensures Totals(env, files + [[Raised(issue)]])
    {
      hide Kept, Count;
      ghost var record := [Raised(issue)];
      assert (files + [record])[..|files|] == files;
      RaisedOnly(issue);
      NothingFound(env, issue);
      assert Handed(env, files) + [] == Handed(env, files);
      AddIssues([issue], HandedIssues(files));
    }

    /**
     The exit code: 2 iff any scan raised any issue, kept or omitted; otherwise 1 iff any analysis found
     anything at least as severe as asked, kept or not.
     */
    method ExitCode(failOn: Severity, ghost env: Env, ghost files: seq<seq<Event>>) returns (code: int)
      requires Totals(env, files) && Bounds(env)
      ensures code == FullVerdict(env, files, failOn)
    {
      hide Kept, Count, Handed, AllRaw, KeptIssues, HandedIssues, IssuesRaised, FindingsRaised;
      if issuesObserved { return 2; }
      CappingKeepsVerdict(env, files, Rank(failOn));
      for i := 0 to |findings|
        invariant forall j :: 0 <= j < i ==> Rank(findings[j].severity) < Rank(failOn)
      {
        if Rank(findings[i].severity) >= Rank(failOn) { return 1; }
      }
      return 0;
    }
  }
}
