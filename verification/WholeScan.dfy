/**
 From the trees that are scanned to the exit code: the walk's own issues and the files it yields end in one record,
 in whatever order the workers finish.
 */
module WholeScan {

  import opened ArchiveBudgets
  import opened ArchiveCompleteness
  import opened ArchiveScanner
  import opened Archives
  import opened Findings
  import opened Options
  import opened Verdict
  import Walks
  import WalkLeaks
  import WalkReach

  /** What reading a yielded file gives: its bytes, or the issue that is raised instead, also by a worker that throws. */
  datatype Input = Input(content: Option<Bytes>, unread: Issue, mismatch: Option<Finding>)

  /** How the archives and the trees answer, and what each file turns out to hold. */
  datatype World = World(env: Env, cfg: Config, walk: Walks.Env, read: string -> Input)

  datatype Root = Root(path: string, node: Walks.Node)

  /** The roots one after the other; an identity yielded under one is not yielded under a later one. */
  function WalkRoots(w: Walks.Env, roots: seq<Root>): Walks.Visit {
    if roots == [] then Walks.Visit([], {})
    else
      var before, root := WalkRoots(w, roots[..|roots| - 1]), roots[|roots| - 1];
      var v := Walks.VisitRoot(w, root.path, root.node, before.seen);
      Walks.Visit(before.events + v.events, v.seen)
  }

  function FileRecord(w: World, path: string): seq<Event> {
    FileEvents(w.env, w.cfg, path, w.read(path).content, w.read(path).unread, w.read(path).mismatch, true)
  }

  /** What one event of the walk leaves in the record. */
  function RecordOf(w: World, e: Walks.Event): seq<seq<Event>> {
    match e
    case Yielded(path, _) => [FileRecord(w, path)]
    case Raised(path, operation) => [[Raised(Issue(path, operation))]]
    case _ => []
  }

  function Records(w: World, events: seq<Walks.Event>): seq<seq<Event>> {
    if events == [] then [] else RecordOf(w, events[0]) + Records(w, events[1..])
  }

  /** The files of all roots, as `WalkReach` finds them in the trees. */
  ghost function FilesOf(w: Walks.Env, roots: seq<Root>): iset<Walks.Identity> {
    iset i, id | 0 <= i < |roots| && id in WalkReach.OfRoot(w, roots[i].path, roots[i].node) :: id
  }

  lemma {:induction false} RecordsHave(w: World, events: seq<Walks.Event>, record: seq<Event>)
    ensures record in Records(w, events) <==> exists i :: 0 <= i < |events| && record in RecordOf(w, events[i])
    decreases |events|
  {
    hide RecordOf;
    if events != [] {
      RecordsHave(w, events[1..], record);
      if i :| 0 <= i < |events| && record in RecordOf(w, events[i]) {
        if i > 0 { assert events[1..][i - 1] == events[i]; }
      }
    }
  }

  lemma SameRecords(w: World, events: seq<Walks.Event>, files: seq<seq<Event>>, record: seq<Event>)
    requires multiset(files) == multiset(Records(w, events))
    ensures record in files <==> exists i :: 0 <= i < |events| && record in RecordOf(w, events[i])
  {
    RecordsHave(w, events, record);
    assert record in files <==> record in multiset(files);
    assert record in Records(w, events) <==> record in multiset(Records(w, events));
  }

  lemma NotTwoIff(env: Env, files: seq<seq<Event>>, failOn: Severity)
    ensures FullVerdict(env, files, failOn) != 2 <==> forall record :: record in files ==> Clean(record)
  {
    hide Clean;
    NoIssueAnywhere(files);
    assert (forall i :: 0 <= i < |files| ==> Clean(files[i])) <==> forall record :: record in files ==> Clean(record);
  }

  lemma CleanEvent(w: World, e: Walks.Event)
    ensures (forall record :: record in RecordOf(w, e) ==> Clean(record)) <==> !e.Raised? && (e.Yielded? ==> Clean(FileRecord(w, e.path)))
  {
    hide FileRecord;
    if e.Raised? {
      RaisedOnly(Issue(e.path, e.operation));
      assert [Raised(Issue(e.path, e.operation))] in RecordOf(w, e);
    } else if e.Yielded? {
      assert FileRecord(w, e.path) in RecordOf(w, e);
    }
  }

  /** The scan is complete exactly when the walk raised nothing and every file it yielded scanned clean. */
  lemma ExitIsTwoIff(w: World, roots: seq<Root>, files: seq<seq<Event>>, failOn: Severity)
    requires multiset(files) == multiset(Records(w, WalkRoots(w.walk, roots).events))
    ensures
      var events := WalkRoots(w.walk, roots).events;
      FullVerdict(w.env, files, failOn) != 2 <==>
      WalkReach.Unraised(events) && forall e :: e in events && e.Yielded? ==> Clean(FileRecord(w, e.path))
  {
    hide RecordOf, Records, WalkRoots, FileRecord, Clean, FullVerdict;
    var events := WalkRoots(w.walk, roots).events;
    NotTwoIff(w.env, files, failOn);
    forall record ensures record in files <==> exists i :: 0 <= i < |events| && record in RecordOf(w, events[i]) {
      SameRecords(w, events, files, record);
    }
    forall e ensures (forall record :: record in RecordOf(w, e) ==> Clean(record)) <==> !e.Raised? && (e.Yielded? ==> Clean(FileRecord(w, e.path))) {
      CleanEvent(w, e);
    }
    if forall record :: record in files ==> Clean(record) {
      forall e | e in events ensures !e.Raised? && (e.Yielded? ==> Clean(FileRecord(w, e.path))) {
        var i :| 0 <= i < |events| && events[i] == e;
        assert forall record :: record in RecordOf(w, events[i]) ==> record in files;
      }
    }
  }

  // ----- which files were yielded

  ghost predicate IsYielded(events: seq<Walks.Event>, id: Walks.Identity) {
    exists path :: Walks.Yielded(path, id) in events
  }

  lemma {:induction false} YieldsAre(events: seq<Walks.Event>, id: Walks.Identity)
    ensures id in Walks.Yields(events) <==> IsYielded(events, id)
    decreases |events|
  {
    if events != [] {
      YieldsAre(events[1..], id);
      assert events == [events[0]] + events[1..];
      if IsYielded(events, id) {
        var path :| Walks.Yielded(path, id) in events;
        assert events[0] == Walks.Yielded(path, id) || Walks.Yielded(path, id) in events[1..];
      }
      if IsYielded(events[1..], id) {
        var path :| Walks.Yielded(path, id) in events[1..];
        assert Walks.Yielded(path, id) in events;
      }
      if events[0].Yielded? && events[0].id == id { assert Walks.Yielded(events[0].path, id) in events; }
    }
  }

  /** Over all roots: exactly the yielded files are remembered, they are files of the trees, and without an issue all of them. */
  lemma {:induction false} RootsYield(w: Walks.Env, roots: seq<Root>)
    ensures
      var v := WalkRoots(w, roots);
      && (forall id :: id in v.seen <==> IsYielded(v.events, id))
      && (forall id :: id in v.seen ==> id in FilesOf(w, roots))
      && (WalkReach.Unraised(v.events) ==> forall id :: id in FilesOf(w, roots) ==> id in v.seen)
    decreases |roots|
  {
    hide Walks.VisitRoot, WalkReach.OfRoot, Walks.Yields, Walks.Once;
    if roots != [] {
      var n := |roots| - 1;
      var before, root := WalkRoots(w, roots[..n]), roots[n];
      var v := Walks.VisitRoot(w, root.path, root.node, before.seen);
      RootsYield(w, roots[..n]);
      WalkReach.WalkIsExact(w, root.path, root.node, before.seen);
      Walks.YieldedOnce(w, root.path, root.node, before.seen);
      forall id ensures IsYielded(before.events + v.events, id) <==> IsYielded(before.events, id) || id in Walks.Yields(v.events) {
        YieldsAre(v.events, id);
        YieldedInEither(before.events, v.events, id);
      }
      FilesNext(w, roots);
      assert forall e :: e in before.events || e in v.events ==> e in before.events + v.events;
    }
  }

  /** What was remembered when the walk came to root k. */
  function SeenBefore(w: Walks.Env, roots: seq<Root>, k: nat): set<Walks.Identity>
    requires k <= |roots|
  {
    WalkRoots(w, roots[..k]).seen
  }

  /** Nothing at root k fails: see `WalkLeaks.Fails`. */
  ghost predicate RootIsFine(w: Walks.Env, roots: seq<Root>, k: nat)
    requires k < |roots|
  {
    NoneFails(WalkLeaks.StopsOfRoot(w, roots[k].path, roots[k].node), SeenBefore(w, roots, k))
  }

  ghost predicate NoneFails(stops: seq<WalkLeaks.Stop>, seen: set<Walks.Identity>) {
    forall i: nat :: i < |stops| ==> !WalkLeaks.Fails(stops, seen, i)
  }

  /** Over all roots the walk raises nothing if and only if nothing fails at any of them. */
  lemma {:induction false} QuietIffFine(w: Walks.Env, roots: seq<Root>)
    ensures WalkReach.Unraised(WalkRoots(w, roots).events) <==> forall k :: 0 <= k < |roots| ==> RootIsFine(w, roots, k)
    decreases |roots|
  {
    hide Walks.VisitRoot, WalkLeaks.StopsOfRoot, WalkLeaks.Fails;
    if roots != [] {
      var n := |roots| - 1;
      var before, root := WalkRoots(w, roots[..n]), roots[n];
      var v := Walks.VisitRoot(w, root.path, root.node, before.seen);
      QuietIffFine(w, roots[..n]);
      WalkLeaks.RaisedExactly(w, root.path, root.node, before.seen);
      forall k | 0 <= k < n ensures RootIsFine(w, roots[..n], k) <==> RootIsFine(w, roots, k) {
        assert roots[..n][..k] == roots[..k];
      }
      assert RootIsFine(w, roots, n) <==> NoneFails(WalkLeaks.StopsOfRoot(w, root.path, root.node), before.seen);
      assert forall e :: e in before.events + v.events <==> e in before.events || e in v.events;
    }
  }

  /**
   The exit code from the trees themselves: 2 if and only if something fails at some root, or some file that was
   yielded did not scan clean.
   */
  lemma TreesDecideExitTwo(w: World, roots: seq<Root>, files: seq<seq<Event>>, failOn: Severity)
    requires multiset(files) == multiset(Records(w, WalkRoots(w.walk, roots).events))
    ensures
      FullVerdict(w.env, files, failOn) == 2 <==>
      || (exists k :: 0 <= k < |roots| && !RootIsFine(w.walk, roots, k))
      || exists e :: e in WalkRoots(w.walk, roots).events && e.Yielded? && !Clean(FileRecord(w, e.path))
  {
    hide Records, WalkRoots, FileRecord, Clean, FullVerdict, RootIsFine;
    ExitIsTwoIff(w, roots, files, failOn);
    QuietIffFine(w.walk, roots);
  }

  /** A root that no exclusion covers and that cannot be looked at, or is a link, makes the exit code 2. */
  lemma BlindRootExitsTwo(w: World, roots: seq<Root>, files: seq<seq<Event>>, failOn: Severity, k: nat)
    requires multiset(files) == multiset(Records(w, WalkRoots(w.walk, roots).events))
    requires k < |roots| && w.walk.excluded(roots[k].path).None? && (roots[k].node.Unreadable? || roots[k].node.Link?)
    ensures FullVerdict(w.env, files, failOn) == 2
  {
    hide Records, WalkRoots, FileRecord, Clean, FullVerdict;
    TreesDecideExitTwo(w, roots, files, failOn);
    var stops := WalkLeaks.StopsOfRoot(w.walk, roots[k].path, roots[k].node);
    assert WalkLeaks.Fails(stops, SeenBefore(w.walk, roots, k), 0);
    assert !RootIsFine(w.walk, roots, k);
  }

  lemma YieldedInEither(a: seq<Walks.Event>, b: seq<Walks.Event>, id: Walks.Identity)
    ensures IsYielded(a + b, id) <==> IsYielded(a, id) || IsYielded(b, id)
  {
    assert forall e :: e in a + b <==> e in a || e in b;
  }

  lemma FilesNext(w: Walks.Env, roots: seq<Root>)
    requires roots != []
    ensures
      var last := roots[|roots| - 1];
      FilesOf(w, roots) == FilesOf(w, roots[..|roots| - 1]) + WalkReach.OfRoot(w, last.path, last.node)
  {
    hide WalkReach.OfRoot;
    var n := |roots| - 1;
    var before := roots[..n];
    forall id ensures id in FilesOf(w, roots) <==> id in FilesOf(w, before) || id in WalkReach.OfRoot(w, roots[n].path, roots[n].node) {
      if i :| 0 <= i < |roots| && id in WalkReach.OfRoot(w, roots[i].path, roots[i].node) {
        if i < n { assert before[i] == roots[i]; }
      }
      if i :| 0 <= i < |before| && id in WalkReach.OfRoot(w, before[i].path, before[i].node) { assert roots[i] == before[i]; }
    }
  }

  /** This file was read, analysed, and its archive, if it is one, scanned without an issue. */
  ghost predicate FullyScanned(w: World, path: string, record: seq<Event>) {
    && record == FileRecord(w, path) && Clean(record)
    && w.read(path).content.Some? && Analysed([], path, w.read(path).content.value) in record
  }

  lemma CleanIsScanned(w: World, path: string)
    ensures Clean(FileRecord(w, path)) ==> FullyScanned(w, path, FileRecord(w, path))
  {
    if w.read(path).content.None? { RaisedOnly(w.read(path).unread); }
  }

  /**
   Exit 0 or 1 means that nothing was skipped: every candidate file of every root's tree that no exclusion covers was
   yielded under some path and fully scanned, and no other file was.
   */
  lemma ExitMeansWholeTrees(w: World, roots: seq<Root>, files: seq<seq<Event>>, failOn: Severity)
    requires multiset(files) == multiset(Records(w, WalkRoots(w.walk, roots).events))
    requires FullVerdict(w.env, files, failOn) != 2
    ensures
      var events := WalkRoots(w.walk, roots).events;
      && (forall id :: id in FilesOf(w.walk, roots) <==>
           exists path :: Walks.Yielded(path, id) in events && FileRecord(w, path) in files && FullyScanned(w, path, FileRecord(w, path)))
      && forall id :: IsYielded(events, id) ==> id in FilesOf(w.walk, roots)
  {
    hide RecordOf, Records, WalkRoots, FileRecord, Clean, FullVerdict, FullyScanned, FilesOf;
    var events := WalkRoots(w.walk, roots).events;
    ExitIsTwoIff(w, roots, files, failOn);
    RootsYield(w.walk, roots);
    forall path, id | Walks.Yielded(path, id) in events ensures FileRecord(w, path) in files && FullyScanned(w, path, FileRecord(w, path)) {
      var e := Walks.Yielded(path, id);
      assert Clean(FileRecord(w, e.path));
      CleanIsScanned(w, path);
      YieldLeavesRecord(w, events, files, e);
    }
    forall id ensures id in FilesOf(w.walk, roots) <==> IsYielded(events, id) {}
  }

  lemma YieldLeavesRecord(w: World, events: seq<Walks.Event>, files: seq<seq<Event>>, e: Walks.Event)
    requires multiset(files) == multiset(Records(w, events)) && e in events && e.Yielded?
    ensures FileRecord(w, e.path) in files
  {
    hide Records;
    SameRecords(w, events, files, FileRecord(w, e.path));
    var i :| 0 <= i < |events| && events[i] == e;
    assert FileRecord(w, e.path) in RecordOf(w, events[i]);
  }
}
