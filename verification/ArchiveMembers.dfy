/** What becomes of one archive member, and of one file that may be an archive, told from their own data. */
module ArchiveMembers {

  import opened ArchiveBudgets
  import opened ArchiveScanner
  import opened ArchiveTheorems
  import opened Archives
  import opened Findings
  import opened Options
  import Texts

  // ----- member names

  predicate IsSeparator(c: char) { c == '/' || c == '\\' }

  /** ".." between separators or at an end. */
  predicate ClimbsUp(name: string) {
    exists k: nat :: k < |name| && ClimbsAt(name, k)
  }

  predicate ClimbsAt(name: string, k: nat) {
    && k + 1 < |name| && name[k] == '.' && name[k + 1] == '.'
    && (k == 0 || IsSeparator(name[k - 1])) && (k + 2 == |name| || IsSeparator(name[k + 2]))
  }

  predicate IsRooted(name: string) {
    || (name != "" && IsSeparator(name[0]))
    || (|name| > 2 && ('A' <= name[0] <= 'Z' || 'a' <= name[0] <= 'z') && name[1] == ':' && IsSeparator(name[2]))
  }

  function Slashed(name: string): string {
    seq(|name|, i requires 0 <= i < |name| => if name[i] == '\\' then '/' else name[i])
  }

  /** The part stands at k, between slashes or ends. */
  predicate PartAt(s: string, part: string, k: nat) {
    && k + |part| <= |s| && s[k..k + |part|] == part
    && (k == 0 || s[k - 1] == '/') && (k + |part| == |s| || s[k + |part|] == '/')
  }

  lemma {:induction false} PartIsBetween(s: string, part: string)
    requires Texts.Without(part, '/')
    ensures part in Texts.Split(s, '/') <==> exists k: nat :: PartAt(s, part, k)
    decreases |s|
  {
    hide PartAt;
    if Texts.Without(s, '/') {
      Texts.SplitOne(s, '/');
      forall k: nat ensures PartAt(s, part, k) <==> k == 0 && part == s { WholePart(s, part, k); }
      assert PartAt(s, part, 0) <==> part == s;
    } else {
      var i := FirstSlash(s);
      var head, tail := s[..i], s[i + 1..];
      assert s == head + ['/'] + tail;
      Texts.SplitAt(head, '/', tail);
      PartIsBetween(tail, part);
      HeadPart(s, i, part);
      forall k: nat ensures PartAt(tail, part, k) ==> PartAt(s, part, k + i + 1) { LaterPart(s, i, part, k); }
      forall k: nat | PartAt(s, part, k) ensures part == head || exists m: nat :: PartAt(tail, part, m) { var m := EarlierPart(s, i, part, k); }
    }
  }

  lemma WholePart(s: string, part: string, k: nat)
    requires Texts.Without(s, '/')
    ensures PartAt(s, part, k) <==> k == 0 && part == s
  {
    assert forall j :: 0 <= j < |s| ==> s[j] != '/';
  }

  lemma HeadPart(s: string, i: nat, part: string)
    requires i < |s| && s[i] == '/'
    ensures part == s[..i] ==> PartAt(s, part, 0)
  {
  }

  lemma LaterPart(s: string, i: nat, part: string, k: nat)
    requires i < |s| && s[i] == '/'
    ensures PartAt(s[i + 1..], part, k) <==> PartAt(s, part, k + i + 1)
  {
    var tail := s[i + 1..];
    assert forall j :: 0 <= j < |tail| ==> tail[j] == s[i + 1 + j];
    if k + |part| <= |tail| { assert tail[k..k + |part|] == s[k + i + 1..k + i + 1 + |part|]; }
  }

  lemma EarlierPart(s: string, i: nat, part: string, k: nat) returns (m: nat)
    requires i < |s| && s[i] == '/' && Texts.Without(s[..i], '/') && Texts.Without(part, '/') && PartAt(s, part, k)
    ensures part == s[..i] || PartAt(s[i + 1..], part, m)
  {
    var end := k + |part|;
    assert forall j :: 0 <= j < i ==> s[j] == s[..i][j];
    assert forall j :: k <= j < end ==> s[j] == part[j - k];
    m := 0;
    if k == 0 {
      assert s[i] == '/' && (end < |s| ==> s[end] == '/');
      assert end == i;
    } else {
      assert k - 1 >= i;
      m := k - i - 1;
      LaterPart(s, i, part, m);
    }
  }

  lemma FirstSlash(s: string) returns (i: nat)
    requires !Texts.Without(s, '/')
    ensures i < |s| && s[i] == '/' && Texts.Without(s[..i], '/')
  {
    i := 0;
    while s[i] != '/'
      invariant i < |s| && (forall j :: 0 <= j < i ==> s[j] != '/')
      invariant exists j :: i <= j < |s| && s[j] == '/'
      decreases |s| - i
    {
      i := i + 1;
    }
  }

  /**
   A member's name is unsafe exactly if it holds a NUL, is rooted at a separator or a drive, or climbs up, with either
   kind of separator.
   */
  lemma UnsafeIff(name: string)
    ensures UnsafeName(name) <==> '\0' in name || IsRooted(name) || ClimbsUp(name)
  {
    var p := Slashed(name);
    PartIsBetween(p, "..");
    SlashedClimbs(name);
    assert "/" <= p <==> name != "" && IsSeparator(name[0]);
    assert p == seq(|name|, i requires 0 <= i < |name| => if name[i] == '\\' then '/' else name[i]);
  }

  lemma SlashedClimbs(name: string)
    ensures ClimbsUp(name) <==> exists k: nat :: PartAt(Slashed(name), "..", k)
  {
    hide Slashed, PartAt, ClimbsAt;
    forall k: nat ensures PartAt(Slashed(name), "..", k) <==> ClimbsAt(name, k)
      ensures ClimbsAt(name, k) ==> k < |name|
    { SlashedClimbsAt(name, k); }
    if ClimbsUp(name) {
      var k: nat :| k < |name| && ClimbsAt(name, k);
      assert PartAt(Slashed(name), "..", k);
    }
    if k: nat :| PartAt(Slashed(name), "..", k) { assert k < |name| && ClimbsAt(name, k); }
  }

  lemma SlashedClimbsAt(name: string, k: nat)
    ensures PartAt(Slashed(name), "..", k) <==> ClimbsAt(name, k)
    ensures ClimbsAt(name, k) ==> k < |name|
  {
    var p := Slashed(name);
    if k + 2 <= |name| { assert p[k..k + 2] == [p[k], p[k + 1]] && ".." == ['.', '.']; }
  }

  // ----- one member

  predicate Dropped(m: Member) { if m.TarMember? then !m.isFile else m.isDir }

  /** More than this the content may not hold, as its compressed form allows. */
  function RatioLimit(cfg: Config, m: Member): nat
    requires m.ZipMember?
  {
    if m.compressed == 0 then cfg.maxRatio else m.compressed * cfg.maxRatio
  }

  /** It passes every look at its header, and so is charged to the budget if that still suffices. */
  predicate Admitted(cfg: Config, m: Member) {
    && !Dropped(m) && m.size <= cfg.maxMemberBytes
    && (m.ZipMember? ==> m.regular && !m.encrypted && m.supported && m.size <= RatioLimit(cfg, m))
  }

  predicate Affords(b: Budget, m: Member) { b.members >= 1 && m.size <= b.bytes }

  /** The archive's own totals would still be kept. */
  predicate Contained(cfg: Config, m: Member, dataLen: nat, unpacked: nat) {
    && unpacked + m.size <= cfg.maxTotalBytes
    && (m.ZipMember? && dataLen > 0 ==> unpacked + m.size <= dataLen * cfg.maxRatio)
  }

  predicate InCount(cfg: Config, m: Member, i: nat) { m.TarMember? ==> i < cfg.maxMembers }

  /** Its name is reported exactly if it is unsafe, unless the archive has too many members to look at this one. */
  lemma NameIsReported(cfg: Config, at: Route, path: string, dataLen: nat, ms: seq<Member>, i: nat, unpacked: nat, b: Budget)
    requires i < |ms|
    ensures
      StepMember(cfg, at, path, dataLen, ms, i, unpacked, b).named ==
      if InCount(cfg, ms[i], i) && ('\0' in ms[i].name || IsRooted(ms[i].name) || ClimbsUp(ms[i].name)) then
        [Reported(Finding(path + "!" + ms[i].name, "archive-path-traversal", High, 0))]
      else []
  {
    hide UnsafeName;
    UnsafeIff(ms[i].name);
  }

  /** What is charged: the announced size and one member, exactly if it is admitted, affordable and contained. */
  lemma ChargedIff(cfg: Config, at: Route, path: string, dataLen: nat, ms: seq<Member>, i: nat, unpacked: nat, b: Budget)
    requires i < |ms|
    ensures
      var s, m := StepMember(cfg, at, path, dataLen, ms, i, unpacked, b), ms[i];
      if InCount(cfg, m, i) && Admitted(cfg, m) && Affords(b, m) && Contained(cfg, m, dataLen, unpacked) then
        s.b == Budget(b.bytes - m.size, b.members - 1) && s.unpacked == unpacked + m.size
      else s.b == b && s.unpacked == unpacked && s.archive.None? && (s.last.Some? ==> s.last.value.Raised?)
  {
    hide UnsafeName;
  }

  /**
   Where the loop over the members ends early: too many of them, an admitted one the budget or the archive's totals
   do not allow, or a tar stream that breaks off in one.
   */
  lemma HaltsIff(cfg: Config, at: Route, path: string, dataLen: nat, ms: seq<Member>, i: nat, unpacked: nat, b: Budget)
    requires i < |ms|
    ensures
      var s, m := StepMember(cfg, at, path, dataLen, ms, i, unpacked, b), ms[i];
      s.halts <==>
      || !InCount(cfg, m, i)
      || (Admitted(cfg, m) && (!Affords(b, m) || !Contained(cfg, m, dataLen, unpacked) || (m.TarMember? && (m.content.Overruns? || m.content.Breaks?))))
  {
    hide UnsafeName;
  }

  /** The issue of a member that is refused by its header names the first thing that is wrong with it. */
  lemma RefusalTells(cfg: Config, at: Route, path: string, dataLen: nat, ms: seq<Member>, i: nat, unpacked: nat, b: Budget)
    requires i < |ms| && InCount(cfg, ms[i], i) && !Admitted(cfg, ms[i])
    ensures
      var s, m := StepMember(cfg, at, path, dataLen, ms, i, unpacked, b), ms[i];
      if Dropped(m) then s.last.None?
      else
        s.last == Some(Raised(Issue(path + "!" + m.name,
          if m.ZipMember? && !m.regular then "archive-link-member"
          else if m.ZipMember? && m.encrypted then "archive-encrypted-member"
          else if m.ZipMember? && !m.supported then "archive-compression"
          else if m.size > cfg.maxMemberBytes then "archive-member-limit"
          else "archive-expansion-limit")))
  {
    hide UnsafeName;
  }

  /** And of one that is admitted, which limit it meets or what its content turns out to be. */
  lemma ContentTells(cfg: Config, at: Route, path: string, dataLen: nat, ms: seq<Member>, i: nat, unpacked: nat, b: Budget)
    requires i < |ms| && InCount(cfg, ms[i], i) && Admitted(cfg, ms[i])
    ensures
      var s, m := StepMember(cfg, at, path, dataLen, ms, i, unpacked, b), ms[i];
      var inside := path + "!" + m.name;
      if !Affords(b, m) then s.last == Some(Raised(Issue(path, if b.members < 1 then "archive-limit" else "archive-total-limit")))
      else if !Contained(cfg, m, dataLen, unpacked) then s.last == Some(Raised(Issue(path, "archive-total-limit")))
      else
        match m
        case TarMember(_, _, size, NoStream) => s.last.None?
        case TarMember(_, _, size, Overruns) => s.last == Some(Raised(Issue(path, "archive-expansion-limit")))
        case TarMember(_, _, size, Breaks) => s.last == Some(Raised(Issue(path, "archive-read")))
        case TarMember(_, _, size, Delivers(bytes)) =>
          s.last == Some(if |bytes| == size then Analysed(at + [i], inside, bytes) else Raised(Issue(inside, "archive-read")))
        case ZipMember(_, _, _, _, _, size, _, packed) =>
          s.last == Some(if |packed.bytes| > cfg.maxMemberBytes then Raised(Issue(inside, "archive-expansion-limit"))
                         else if packed.broken || |packed.bytes| != size then Raised(Issue(inside, "archive-read"))
                         else Analysed(at + [i], inside, packed.bytes))
  {
    hide UnsafeName;
  }

  /** What was analysed and is itself an archive is scanned as one, with the budget that is left. */
  lemma ArchiveIsEntered(cfg: Config, at: Route, path: string, dataLen: nat, ms: seq<Member>, i: nat, unpacked: nat, b: Budget)
    requires i < |ms|
    ensures
      var s := StepMember(cfg, at, path, dataLen, ms, i, unpacked, b);
      s.archive == if s.last.Some? && s.last.value.Analysed? && IsArchivePath(s.last.value.path, s.last.value.data) then Some(s.last.value.data) else None
  {
    hide UnsafeName;
  }

  // ----- a whole archive

  ghost predicate ReportsUnsafe(events: seq<Event>, path: string, name: string) {
    ('\0' in name || IsRooted(name) || ClimbsUp(name)) ==> Reported(Finding(path + "!" + name, "archive-path-traversal", High, 0)) in events
  }

  /** A clean scan has reported every unsafe name of the archive. */
  lemma {:induction false} CleanReportsNames(
      env: Env, cfg: Config, at: Route, path: string, dataLen: nat, ms: seq<Member>, ending: Ending, i: nat, unpacked: nat, depth: nat, b: Budget, k: nat)
    requires i <= k < |ms| && depth <= cfg.maxDepth
    requires Clean(ScanMembers(env, cfg, at, path, dataLen, ms, ending, i, unpacked, depth, b).events)
    ensures ReportsUnsafe(ScanMembers(env, cfg, at, path, dataLen, ms, ending, i, unpacked, depth, b).events, path, ms[k].name)
    decreases |ms| - i
  {
    hide StepMember, StepEvents, ClimbsUp, IsRooted, InCount;
    var s := StepMember(cfg, at, path, dataLen, ms, i, unpacked, b);
    var o := ScanMembers(env, cfg, at, path, dataLen, ms, ending, i, unpacked, depth, b);
    HaltsAreIssues(cfg, at, path, dataLen, ms, i, unpacked, b);
    NameIsReported(cfg, at, path, dataLen, ms, i, unpacked, b);
    NamedFirst(s);
    if !s.halts {
      var nested := NestedOut(env, cfg, at, path, s, i, ms[i].name, depth);
      var rest := ScanMembers(env, cfg, at, path, dataLen, ms, ending, i + 1, s.unpacked, depth, nested.budget);
      assert o.events == StepEvents(s) + nested.events + rest.events;
      CleanConcat(StepEvents(s) + nested.events, rest.events);
      if k > i { CleanReportsNames(env, cfg, at, path, dataLen, ms, ending, i + 1, s.unpacked, depth, nested.budget, k); }
    }
  }

  lemma NamedFirst(s: Step)
    ensures s.named <= StepEvents(s) && forall e :: e in s.named ==> e in StepEvents(s)
  {
  }

  /** An early end is an issue, and a member that is out of count is one. */
  lemma HaltsAreIssues(cfg: Config, at: Route, path: string, dataLen: nat, ms: seq<Member>, i: nat, unpacked: nat, b: Budget)
    requires i < |ms|
    ensures
      var s := StepMember(cfg, at, path, dataLen, ms, i, unpacked, b);
      && (!InCount(cfg, ms[i], i) ==> s.halts) && (s.halts ==> !Clean(StepEvents(s)))
  {
    hide UnsafeName;
    var s := StepMember(cfg, at, path, dataLen, ms, i, unpacked, b);
    if s.halts {
      RaisedOnly(s.last.value.issue);
      CleanConcat(s.named, [s.last.value]);
    }
  }

  /**
   A gzip file that reports more than the totals allow, with room for tar headers, or more than the ratio allows of its
   own size, is refused before anything is opened; a report that is in order is no issue by itself.
   */
  lemma ReportDecides(env: Env, cfg: Config, at: Route, path: string, data: Bytes, depth: nat, b: Budget)
    requires depth <= cfg.maxDepth
    ensures
      var n, o := |data|, ScanTar(env, cfg, at, path, data, depth, b);
      if n >= 4 && data[0] == 31 && data[1] == 139
         && var size := data[n - 4] as int + 256 * data[n - 3] as int + 65536 * data[n - 2] as int + 16777216 * data[n - 1] as int;
            size > cfg.maxTotalBytes + cfg.maxMembers * 1024 + 1048576 || size > n * cfg.maxRatio
      then o == Out([Raised(Issue(path, "archive-expansion-limit"))], b)
      else
        match OpenTar(env, cfg, data, b)
        case TooLong => o == Out([Raised(Issue(path, "archive-expansion-limit"))], b)
        case NotTar =>
          (IsGzip(data) && !NamedTar(path) ==> o == ScanGzip(env, cfg, at, path, data, depth, b))
          && (!IsGzip(data) || NamedTar(path) ==> o == Out([Raised(Issue(path, "archive-open"))], b))
        case Tar(_, _) => |o.events| > 0 && o.events[0] == Opened(path, data, depth)
  {
    hide OpenTar, ScanGzip, ScanMembers, NamedTar;
    FirstBytesAre(data);
  }

  /** Which payload of a plain gzip is analysed, what it is charged, and what is said of any other. */
  lemma PayloadDecides(env: Env, cfg: Config, at: Route, path: string, data: Bytes, depth: nat, b: Budget)
    ensures
      var s, o := env.gunzip(data), ScanGzip(env, cfg, at, path, data, depth, b);
      var n := |s.bytes|;
      && |o.events| == 2 && o.events[0] == Opened(path, data, depth)
      && o.events[1] ==
         (if n > cfg.maxTotalBytes || n > b.bytes then Raised(Issue(path, "archive-expansion-limit"))
          else if s.broken then Raised(Issue(path, "archive-read"))
          else if data != [] && n > cfg.maxRatio * |data| then Raised(Issue(path, "archive-expansion-limit"))
          else if b.members < 1 then Raised(Issue(path, "archive-total-limit"))
          else Analysed(at + [0], path + "!<gzip-payload>", s.bytes))
      && o.budget == if o.events[1].Analysed? then Budget(b.bytes - n, b.members - 1) else b
  {
    var n := |env.gunzip(data).bytes|;
    assert cfg.maxRatio * |data| == |data| * cfg.maxRatio;
  }

  /** The same letters, capital or not. */
  predicate Spells(s: string, word: string) {
    |s| == |word| && forall i :: 0 <= i < |s| ==> s[i] == word[i] || ('a' <= word[i] <= 'z' && s[i] as int + 32 == word[i] as int)
  }

  predicate EndsIn(path: string, suffix: string) { |suffix| <= |path| && Spells(path[|path| - |suffix|..], suffix) }

  lemma EndsInIff(path: string, suffix: string)
    requires forall i :: 0 <= i < |suffix| ==> !('A' <= suffix[i] <= 'Z')
    ensures EndsWith(Lower(path), suffix) <==> EndsIn(path, suffix)
  {
    if |suffix| <= |path| {
      var n := |path| - |suffix|;
      var end, lower := path[n..], Lower(path)[n..];
      forall i | 0 <= i < |suffix| ensures lower[i] == suffix[i] <==> end[i] == suffix[i] || ('a' <= suffix[i] <= 'z' && end[i] as int + 32 == suffix[i] as int) {
        assert lower[i] == Lower(path)[n + i] && end[i] == path[n + i];
      }
      assert lower == suffix <==> forall i :: 0 <= i < |suffix| ==> lower[i] == suffix[i];
    }
  }

  /** Which files are opened as archives: by the end of their name, or by their first bytes. */
  lemma NamesAre(path: string)
    ensures NamedTar(path) <==> EndsIn(path, ".tgz") || EndsIn(path, ".tar") || EndsIn(path, ".tar.gz")
    ensures NamedZip(path) <==> EndsIn(path, ".zip") || EndsIn(path, ".vsix")
  {
    hide Lower, EndsWith, EndsIn;
    EndsInIff(path, ".tgz");
    EndsInIff(path, ".tar");
    EndsInIff(path, ".tar.gz");
    EndsInIff(path, ".zip");
    EndsInIff(path, ".vsix");
  }

  /** Too deep an archive is only an issue; one that is named or begins like a ZIP is opened as that, any other as a tar. */
  lemma OpenedAs(env: Env, cfg: Config, at: Route, path: string, data: Bytes, depth: nat, b: Budget)
    ensures
      var o := ScanArchive(env, cfg, at, path, data, depth, b);
      if depth > cfg.maxDepth then o == Out([Raised(Issue(path, "archive-depth-limit"))], b)
      else if EndsIn(path, ".zip") || EndsIn(path, ".vsix") || IsZip(data) then o == ScanZip(env, cfg, at, path, data, depth, b)
      else o == ScanTar(env, cfg, at, path, data, depth, b)
  {
    hide EndsIn, NamedZip, IsZip, ScanZip, ScanTar;
    NamesAre(path);
  }

  lemma FirstBytesAre(data: Bytes)
    ensures IsGzip(data) <==> |data| >= 2 && data[0] == 31 && data[1] == 139
    ensures
      IsZip(data) <==>
      |data| >= 4 && data[0] == 80 && data[1] == 75 && ((data[2] == 3 && data[3] == 4) || (data[2] == 5 && data[3] == 6) || (data[2] == 7 && data[3] == 8))
    ensures IsTar(data) <==> |data| > 265 && data[257] == 117 && data[258] == 115 && data[259] == 116 && data[260] == 97 && data[261] == 114
  {
    if |data| > 265 {
      var u := data[257..262];
      assert data[257] == u[0] && data[258] == u[1] && data[259] == u[2] && data[260] == u[3] && data[261] == u[4];
    }
  }

  // ----- reading events, and one file

  lemma {:induction false} IssuesAre(events: seq<Event>, x: Issue)
    ensures x in IssuesOf(events) <==> Raised(x) in events
    decreases |events|
  {
    if events != [] {
      IssuesAre(events[1..], x);
      assert events == [events[0]] + events[1..];
    }
  }

  predicate Found(env: Env, e: Event, f: Finding) {
    (e.Analysed? && f in env.analyze(e.path, e.data).findings) || e == Reported(f)
  }

  lemma {:induction false} FindingsAre(env: Env, events: seq<Event>, f: Finding)
    ensures f in FindingsOf(env, events) <==> exists i :: 0 <= i < |events| && Found(env, events[i], f)
    decreases |events|
  {
    if events != [] {
      FindingsAre(env, events[1..], f);
      if i :| 0 <= i < |events| && Found(env, events[i], f) {
        if i > 0 { assert events[1..][i - 1] == events[i]; }
      }
    }
  }

  /** A file that was read reports first that its name and content disagree, if they do, then it is analysed. */
  lemma FileReports(env: Env, cfg: Config, path: string, content: Option<Bytes>, unread: Issue, mismatch: Option<Finding>, archives: bool)
    ensures
      var events := FileEvents(env, cfg, path, content, unread, mismatch, archives);
      if content.None? then events == [Raised(unread)]
      else
        && (if mismatch.Some? then [Reported(mismatch.value), Analysed([], path, content.value)] else [Analysed([], path, content.value)]) <= events
        && (!archives || !IsArchivePath(path, content.value) ==> |events| == if mismatch.Some? then 2 else 1)
  {
  }
}
