/**
 What scanning an archive does, as a function of the archive and of the budget it shares with every archive
 nested in it: the containers opened, the members analysed, the issues raised, in order.  The methods that do
 it, with their capped results, are in `ArchiveScanner`; what it guarantees is proved in `ArchiveTheorems`.

 Decoding is a parameter: tar, zip and gzip readers and the content analysis are functions of an `Env`.
 */
module Archives {

  import opened Findings
  import opened Options
  import Texts

  newtype byte = x: int | 0 <= x < 256

  type Bytes = seq<byte>

  const MIB: nat := 1024 * 1024

  datatype Config = Config(maxMemberBytes: nat, maxTotalBytes: nat, maxMembers: nat, maxRatio: nat, maxDepth: nat)

  datatype Budget = Budget(bytes: int, members: int)

  datatype Analysis = Analysis(findings: seq<Finding>, lifecycleScripts: nat)

  /** What a decompressor delivers before it ends or fails. */
  datatype Stream = Stream(bytes: Bytes, broken: bool)

  datatype TarContent = NoStream | Overruns | Breaks | Delivers(bytes: Bytes)

  datatype Member =
    | TarMember(name: string, isFile: bool, size: nat, content: TarContent)
    | ZipMember(name: string, isDir: bool, regular: bool, encrypted: bool, supported: bool, size: nat, compressed: nat, packed: Stream)

  type TarEntry = m: Member | m.TarMember? witness TarMember("", false, 0, NoStream)

  type ZipEntry = m: Member | m.ZipMember? witness ZipMember("", true, false, false, false, 0, 0, Stream([], false))

  datatype Ending = Ends | Overran | Corrupt

  datatype TarOpening = NotTar | TooLong | Tar(members: seq<TarEntry>, ending: Ending)

  datatype ZipOpening = NotZip | Zip(members: seq<ZipEntry>)

  datatype Limit = Unlimited | UpTo(n: int)

  /**
   raw: the findings of one analysis before duplicates collapse and the list is cut; analyze: after.
   tar: decoding through a reader that refuses to deliver more than a limit; need: the least limit it can do with.
   preflight: the operation of the issue an end-of-central-directory check raises.
   */
  datatype Env = Env(
    raw: (string, Bytes) -> seq<Finding>,
    analyze: (string, Bytes) -> Analysis,
    tar: (Bytes, Limit) -> TarOpening,
    need: Bytes -> int,
    gunzip: Bytes -> Stream,
    preflight: Bytes -> Option<string>,
    zip: Bytes -> ZipOpening)

  /** Where a member is: the index to follow at each level, from the outermost archive. */
  type Route = seq<nat>

  datatype Event =
    | Opened(path: string, data: Bytes, depth: nat)
    | Analysed(at: Route, path: string, data: Bytes)
    | Reported(finding: Finding)
    | Raised(issue: Issue)

  datatype Out = Out(events: seq<Event>, budget: Budget)

  // ----- names and magic numbers

  function Lower(s: string): string {
    seq(|s|, i requires 0 <= i < |s| => if 'A' <= s[i] <= 'Z' then ('a' as int + s[i] as int - 'A' as int) as char else s[i])
  }

  predicate EndsWith(s: string, suffix: string) {
    |suffix| <= |s| && s[|s| - |suffix|..] == suffix
  }

  predicate NamedTar(path: string) {
    var p := Lower(path);
    EndsWith(p, ".tgz") || EndsWith(p, ".tar") || EndsWith(p, ".tar.gz")
  }

  predicate NamedZip(path: string) {
    var p := Lower(path);
    EndsWith(p, ".zip") || EndsWith(p, ".vsix")
  }

  predicate IsGzip(data: Bytes) { [0x1f, 0x8b] <= data }

  predicate IsZip(data: Bytes) { [0x50, 0x4b, 3, 4] <= data || [0x50, 0x4b, 5, 6] <= data || [0x50, 0x4b, 7, 8] <= data }

  predicate IsTar(data: Bytes) { |data| > 265 && data[257..262] == [0x75, 0x73, 0x74, 0x61, 0x72] }

  predicate IsArchivePath(path: string, data: Bytes) {
    NamedTar(path) || NamedZip(path) || IsGzip(data) || IsZip(data) || IsTar(data)
  }

  predicate OpensAsZip(path: string, data: Bytes) { NamedZip(path) || IsZip(data) }

  function Inside(path: string, name: string): string { path + "!" + name }

  /** The member name leaves its logical root: a NUL, an absolute path, a drive, or a ".." component. */
  predicate UnsafeName(name: string) {
    || '\0' in name
    || var p := seq(|name|, i requires 0 <= i < |name| => if name[i] == '\\' then '/' else name[i]);
       || "/" <= p
       || (|p| > 2 && ('A' <= p[0] <= 'Z' || 'a' <= p[0] <= 'z') && p[1] == ':' && p[2] == '/')
       || ".." in Texts.Split(p, '/')
  }

  // ----- one member

  datatype Verdict = Skip | Refuse(issue: Issue) | Stop(why: Issue) | Take

  function Min(a: int, b: int): int { if a <= b then a else b }

  /** What can be said of a member before looking at any budget. */
  function Fit(cfg: Config, path: string, m: Member): Verdict {
    var inside := Inside(path, m.name);
    match m
    case TarMember(_, isFile, size, _) =>
      if !isFile then Skip
      else if size > cfg.maxMemberBytes then Refuse(Issue(inside, "archive-member-limit"))
      else Take
    case ZipMember(_, isDir, regular, encrypted, supported, size, compressed, _) =>
      if isDir then Skip
      else if !regular then Refuse(Issue(inside, "archive-link-member"))
      else if encrypted then Refuse(Issue(inside, "archive-encrypted-member"))
      else if !supported then Refuse(Issue(inside, "archive-compression"))
      else if size > cfg.maxMemberBytes then Refuse(Issue(inside, "archive-member-limit"))
      else if size > (if compressed < 1 then 1 else compressed) * cfg.maxRatio then Refuse(Issue(inside, "archive-expansion-limit"))
      else Take
  }

  /** One archive may not expand too far by itself. */
  predicate ExpandsTooFar(cfg: Config, m: Member, dataLen: nat, unpacked: nat) {
    unpacked > cfg.maxTotalBytes || (m.ZipMember? && dataLen > 0 && unpacked > dataLen * cfg.maxRatio)
  }

  function Judge(cfg: Config, path: string, m: Member, dataLen: nat, unpacked: nat, b: Budget): Verdict {
    var fit := Fit(cfg, path, m);
    if !fit.Take? then fit
    else if b.members <= 0 then Stop(Issue(path, "archive-limit"))
    else if m.size > b.bytes then Stop(Issue(path, "archive-total-limit"))
    else if ExpandsTooFar(cfg, m, dataLen, unpacked + m.size) then Stop(Issue(path, "archive-total-limit"))
    else Take
  }

  datatype Drained = Over | Broke | All(bytes: Bytes)

  /** Reading a stream to its end through a reader that raises once more than limit bytes came out. */
  function Drain(s: Stream, limit: int): Drained {
    if |s.bytes| > limit then Over else if s.broken then Broke else All(s.bytes)
  }

  datatype Content = Nothing | Abort(end: Issue) | Bad(bad: Issue) | Good(bytes: Bytes)

  function Read(cfg: Config, path: string, m: Member): Content {
    var inside := Inside(path, m.name);
    match m
    case TarMember(_, _, size, content) =>
      (match content
       case NoStream => Nothing
       case Overruns => Abort(Issue(path, "archive-expansion-limit"))
       case Breaks => Abort(Issue(path, "archive-read"))
       case Delivers(bytes) =>
         var got := if |bytes| > cfg.maxMemberBytes + 1 then bytes[..cfg.maxMemberBytes + 1] else bytes;
         if |got| != size then Bad(Issue(inside, "archive-read")) else Good(got))
    case ZipMember(_, _, _, _, _, size, _, packed) =>
      (match Drain(packed, cfg.maxMemberBytes)
       case Over => Bad(Issue(inside, "archive-expansion-limit"))
       case Broke => Bad(Issue(inside, "archive-read"))
       case All(bytes) => if |bytes| != size then Bad(Issue(inside, "archive-read")) else Good(bytes))
  }

  function Traversal(path: string, m: Member): seq<Event> {
    if UnsafeName(m.name) then [Reported(Finding(Inside(path, m.name), "archive-path-traversal", High, 0))] else []
  }

  function EndEvents(path: string, ending: Ending): seq<Event> {
    match ending
    case Ends => []
    case Overran => [Raised(Issue(path, "archive-expansion-limit"))]
    case Corrupt => [Raised(Issue(path, "archive-read"))]
  }

  // ----- archives

  function TarLimit(cfg: Config, b: Budget): int {
    Min(cfg.maxTotalBytes, b.bytes) + Min(cfg.maxMembers, b.members) * 1024 + MIB
  }

  /** The expanded size a gzip file reports in its last four bytes. */
  function Reported32(data: Bytes): nat
    requires |data| >= 4
  {
    var n := |data|;
    data[n - 4] as int + 0x100 * data[n - 3] as int + 0x1_0000 * data[n - 2] as int + 0x100_0000 * data[n - 1] as int
  }

  predicate ReportsTooMuch(cfg: Config, data: Bytes) {
    && IsGzip(data) && |data| >= 4
    && (Reported32(data) > cfg.maxTotalBytes + cfg.maxMembers * 1024 + MIB || Reported32(data) > |data| * cfg.maxRatio)
  }

  function OpenTar(env: Env, cfg: Config, data: Bytes, b: Budget): TarOpening {
    env.tar(data, if IsGzip(data) then UpTo(TarLimit(cfg, b)) else Unlimited)
  }

  function PayloadPath(path: string): string { Inside(path, "<gzip-payload>") }

  function ScanGzip(env: Env, cfg: Config, at: Route, path: string, data: Bytes, depth: nat, b: Budget): Out {
    var first := Opened(path, data, depth);
    match Drain(env.gunzip(data), Min(cfg.maxTotalBytes, b.bytes))
    case Over => Out([first, Raised(Issue(path, "archive-expansion-limit"))], b)
    case Broke => Out([first, Raised(Issue(path, "archive-read"))], b)
    case All(payload) =>
      if |data| > 0 && |payload| > |data| * cfg.maxRatio then Out([first, Raised(Issue(path, "archive-expansion-limit"))], b)
      else if b.members <= 0 || |payload| > b.bytes then Out([first, Raised(Issue(path, "archive-total-limit"))], b)
      else Out([first, Analysed(at + [0], PayloadPath(path), payload)], Budget(b.bytes - |payload|, b.members - 1))
  }

  /**
   One member: what its name and then its content add to the events, and whether the loop ends there.  An
   archive found inside is scanned next.
   */
  datatype Step = Step(named: seq<Event>, last: Option<Event>, halts: bool, unpacked: nat, b: Budget, archive: Option<Bytes>)

  function StepEvents(s: Step): seq<Event> {
    if s.last.Some? then s.named + [s.last.value] else s.named
  }

  function StepMember(cfg: Config, at: Route, path: string, dataLen: nat, ms: seq<Member>, i: nat, unpacked: nat, b: Budget): Step
    requires i < |ms|
  {
    var m := ms[i];
    if m.TarMember? && i + 1 > cfg.maxMembers then Step([], Some(Raised(Issue(path, "archive-limit"))), true, unpacked, b, None)
    else
      var named := Traversal(path, m);
      match Judge(cfg, path, m, dataLen, unpacked, b)
      case Skip => Step(named, None, false, unpacked, b, None)
      case Refuse(issue) => Step(named, Some(Raised(issue)), false, unpacked, b, None)
      case Stop(issue) => Step(named, Some(Raised(issue)), true, unpacked, b, None)
      case Take =>
        var u, rest := unpacked + m.size, Budget(b.bytes - m.size, b.members - 1);
        match Read(cfg, path, m)
        case Nothing => Step(named, None, false, u, rest, None)
        case Abort(issue) => Step(named, Some(Raised(issue)), true, u, rest, None)
        case Bad(issue) => Step(named, Some(Raised(issue)), false, u, rest, None)
        case Good(bytes) =>
          var inside := Inside(path, m.name);
          Step(named, Some(Analysed(at + [i], inside, bytes)), false, u, rest, if IsArchivePath(inside, bytes) then Some(bytes) else None)
  }

  function ScanMembers(
      env: Env, cfg: Config, at: Route, path: string, dataLen: nat, ms: seq<Member>, ending: Ending, i: nat, unpacked: nat, depth: nat, b: Budget): Out
    requires i <= |ms| && depth <= cfg.maxDepth
    decreases cfg.maxDepth + 1 - depth, 0, |ms| - i
  {
    if i == |ms| then Out(EndEvents(path, ending), b)
    else
      var s := StepMember(cfg, at, path, dataLen, ms, i, unpacked, b);
      if s.halts then Out(StepEvents(s), s.b)
      else
        var nested := NestedOut(env, cfg, at, path, s, i, ms[i].name, depth);
        Then(StepEvents(s) + nested.events, ScanMembers(env, cfg, at, path, dataLen, ms, ending, i + 1, s.unpacked, depth, nested.budget))
  }

  /** The archive found inside member i, if any. */
  function NestedOut(env: Env, cfg: Config, at: Route, path: string, s: Step, i: nat, name: string, depth: nat): Out
    requires depth <= cfg.maxDepth
    decreases cfg.maxDepth + 1 - depth, 0, 0
  {
    if s.archive.None? then Out([], s.b)
    else ScanArchive(env, cfg, at + [i], Inside(path, name), s.archive.value, depth + 1, s.b)
  }

  function Then(before: seq<Event>, after: Out): Out {
    Out(before + after.events, after.budget)
  }

  function ScanZip(env: Env, cfg: Config, at: Route, path: string, data: Bytes, depth: nat, b: Budget): Out
    requires depth <= cfg.maxDepth
    decreases cfg.maxDepth + 1 - depth, 1, 0
  {
    match env.preflight(data)
    case Some(operation) => Out([Raised(Issue(path, operation))], b)
    case None =>
      match env.zip(data)
      case NotZip => Out([Raised(Issue(path, "archive-open"))], b)
      case Zip(ms) =>
        if |ms| > cfg.maxMembers then Out([Opened(path, data, depth), Raised(Issue(path, "archive-limit"))], b)
        else Then([Opened(path, data, depth)], ScanMembers(env, cfg, at, path, |data|, ms, Ends, 0, 0, depth, b))
  }

  function ScanTar(env: Env, cfg: Config, at: Route, path: string, data: Bytes, depth: nat, b: Budget): Out
    requires depth <= cfg.maxDepth
    decreases cfg.maxDepth + 1 - depth, 1, 0
  {
    if ReportsTooMuch(cfg, data) then Out([Raised(Issue(path, "archive-expansion-limit"))], b)
    else
      match OpenTar(env, cfg, data, b)
      case TooLong => Out([Raised(Issue(path, "archive-expansion-limit"))], b)
      case NotTar =>
        if IsGzip(data) && !NamedTar(path) then ScanGzip(env, cfg, at, path, data, depth, b)
        else Out([Raised(Issue(path, "archive-open"))], b)
      case Tar(ms, ending) =>
        Then([Opened(path, data, depth)], ScanMembers(env, cfg, at, path, |data|, ms, ending, 0, 0, depth, b))
  }

  function ScanArchive(env: Env, cfg: Config, at: Route, path: string, data: Bytes, depth: nat, b: Budget): Out
    decreases if depth <= cfg.maxDepth then cfg.maxDepth + 1 - depth else 0, 2, 0
  {
    if depth > cfg.maxDepth then Out([Raised(Issue(path, "archive-depth-limit"))], b)
    else if OpensAsZip(path, data) then ScanZip(env, cfg, at, path, data, depth, b)
    else ScanTar(env, cfg, at, path, data, depth, b)
  }

  // ----- reading the events

  function BytesOf(events: seq<Event>): nat {
    if events == [] then 0 else (if events[0].Analysed? then |events[0].data| else 0) + BytesOf(events[1..])
  }

  function MembersOf(events: seq<Event>): nat {
    if events == [] then 0 else (if events[0].Analysed? then 1 else 0) + MembersOf(events[1..])
  }

  function ArchivesOf(events: seq<Event>): nat {
    if events == [] then 0 else (if events[0].Opened? then 1 else 0) + ArchivesOf(events[1..])
  }

  function ScriptsOf(env: Env, events: seq<Event>): nat {
    if events == [] then 0
    else (if events[0].Analysed? then env.analyze(events[0].path, events[0].data).lifecycleScripts else 0) + ScriptsOf(env, events[1..])
  }

  function FindingsOf(env: Env, events: seq<Event>): seq<Finding> {
    if events == [] then []
    else
      (match events[0]
       case Analysed(_, path, data) => env.analyze(path, data).findings
       case Reported(finding) => [finding]
       case _ => []) + FindingsOf(env, events[1..])
  }

  function IssuesOf(events: seq<Event>): seq<Issue> {
    if events == [] then [] else (if events[0].Raised? then [events[0].issue] else []) + IssuesOf(events[1..])
  }

  predicate Clean(events: seq<Event>) { IssuesOf(events) == [] }
}
