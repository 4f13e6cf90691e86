/**
 Which issues a walk raises and which descriptors it loses, said about the tree alone.  A descriptor is lost when the
 stat right after its open fails: the handler reports the entry but has no descriptor to close.
 */
module WalkLeaks {

  import opened Options
  import opened WalkReach
  import opened Walks

  function LostIn(events: seq<Event>): nat {
    if events == [] then 0 else LostIn(events[..|events| - 1]) + if events[|events| - 1].Lost? then 1 else 0
  }

  lemma {:induction false} LostConcat(a: seq<Event>, b: seq<Event>)
    ensures LostIn(a + b) == LostIn(a) + LostIn(b)
    decreases |b|
  {
    if b == [] {
      assert a + b == a;
    } else {
      LostConcat(a, b[..|b| - 1]);
      assert (a + b)[..|a + b| - 1] == a + b[..|b| - 1];
    }
  }

  lemma {:induction false} QuietLost(events: seq<Event>)
    requires forall e :: e in events ==> !e.Lost?
    ensures LostIn(events) == 0
    decreases |events|
  {
    if events != [] { QuietLost(events[..|events| - 1]); }
  }

  function RaisedIn(events: seq<Event>): nat {
    if events == [] then 0 else RaisedIn(events[..|events| - 1]) + if events[|events| - 1].Raised? then 1 else 0
  }

  lemma {:induction false} RaisedConcat(a: seq<Event>, b: seq<Event>)
    ensures RaisedIn(a + b) == RaisedIn(a) + RaisedIn(b)
    decreases |b|
  {
    if b == [] {
      assert a + b == a;
    } else {
      RaisedConcat(a, b[..|b| - 1]);
      assert (a + b)[..|a + b| - 1] == a + b[..|b| - 1];
    }
  }

  lemma {:induction false} NoneRaised(events: seq<Event>)
    ensures RaisedIn(events) == 0 <==> forall e :: e in events ==> !e.Raised?
    decreases |events|
  {
    if events != [] {
      NoneRaised(events[..|events| - 1]);
      assert events == events[..|events| - 1] + [events[|events| - 1]];
    }
  }

  /** One issue, for each way but the good one. */
  lemma LostOnOpening(path: string, opening: Opening)
    ensures LostIn(OpenEvents(path, opening)) == if opening.StatFails? then 1 else 0
    ensures RaisedIn(OpenEvents(path, opening)) == if opening.Opens? then 0 else 1
  {
    var events := OpenEvents(path, opening);
    assert events[..0] == [];
    if opening.StatFails? {
      LostConcat([Lost(path)], [Raised(path, "open-directory")]);
      RaisedConcat([Lost(path)], [Raised(path, "open-directory")]);
      assert [Lost(path)] + [Raised(path, "open-directory")] == events;
      assert [Lost(path)][..0] == [] && [Raised(path, "open-directory")][..0] == [];
    }
  }

  // ----- the stops of a tree

  /** A directory the walk opens, a candidate file it opens unless the identity is remembered, or what it cannot look at. */
  datatype Stop = Dir(opening: Opening) | File(id: Identity, opening: Opening) | Blind

  /** In visiting order, whatever is remembered: an entry, the names of a directory, a directory, a repository. */
  function StopsAt(env: Env, dir: string, name: string, n: Node): seq<Stop>
    decreases n, 2, 0
  {
    var path := Under(dir, name);
    match n
    case Regular(_, _, _) => StopsOfFile(env, path, n)
    case Directory(_, _) =>
      if name == ".git" then StopsOfGit(env, path, n)
      else if (dir == env.home && name in BULK) || env.excluded(path).Some? then []
      else StopsOfDirectory(env, path, n)
    case Unreadable => [Blind]
    case _ => []
  }

  function StopsOfFile(env: Env, path: string, n: Node): seq<Stop>
    requires n.Regular?
  {
    if env.candidate(path) then [File(Identity(n.dev, n.ino, env.role(path)), n.opening)] else []
  }

  function StopsAmong(env: Env, path: string, d: Node, names: seq<string>): seq<Stop>
    requires d.Directory?
    decreases d, 0, |names|
  {
    if names == [] then []
    else (if Lookup(d, names[0]).Some? then StopsAt(env, path, names[0], Lookup(d, names[0]).value) else []) + StopsAmong(env, path, d, names[1..])
  }

  function StopsOfDirectory(env: Env, path: string, d: Node): seq<Stop>
    requires d.Directory?
    decreases d, 1, 0
  {
    [Dir(d.opening)] + if d.opening.Opens? then StopsAmong(env, path, d, NamesOf(d)) else []
  }

  function StopsOfGit(env: Env, path: string, git: Node): seq<Stop>
    requires git.Directory?
    decreases git, 1, 0
  {
    [Dir(git.opening)] +
    if !git.opening.Opens? then []
    else
      match Lookup(git, "hooks")
      case Some(Directory(opening, entries)) =>
        [Dir(opening)] +
        if opening.Opens? then StopsAmong(env, Under(path, "hooks"), Lookup(git, "hooks").value, SortedNames(entries)) else []
      case Some(Unreadable) => [Blind]
      case _ => []
  }

  function StopsOfRoot(env: Env, path: string, n: Node): seq<Stop> {
    if env.excluded(path).Some? then []
    else if n.Regular? then StopsOfFile(env, path, n)
    else if n.Directory? then StopsOfDirectory(env, path, n)
    else if n.Special? then []
    else [Blind]
  }

  // ----- which of them fail, and which of those lose a descriptor

  predicate Hands(stop: Stop, id: Identity) {
    stop.File? && stop.id == id && (stop.opening.Opens? || stop.opening.ListFails?)
  }

  /** A file whose identity is remembered, or was handed over at an earlier stop, is not opened at all. */
  predicate PassedOver(stops: seq<Stop>, seen: set<Identity>, i: nat)
    requires i < |stops|
  {
    stops[i].File? && (stops[i].id in seen || exists j :: 0 <= j < i && Hands(stops[j], stops[i].id))
  }

  /** The walk cannot look at it, or opening it, or for a directory listing it, goes wrong. */
  predicate Fails(stops: seq<Stop>, seen: set<Identity>, i: nat)
    requires i < |stops|
  {
    match stops[i]
    case Blind => true
    case Dir(opening) => !opening.Opens?
    case File(_, opening) => !opening.Opens? && !opening.ListFails? && !PassedOver(stops, seen, i)
  }

  ghost function FailSet(stops: seq<Stop>, seen: set<Identity>): set<nat> {
    set i: nat | i < |stops| && Fails(stops, seen, i)
  }

  function FailCount(stops: seq<Stop>, seen: set<Identity>): nat {
    if stops == [] then 0
    else FailCount(stops[..|stops| - 1], seen) + if Fails(stops, seen, |stops| - 1) then 1 else 0
  }

  lemma {:induction false} FailCountIs(stops: seq<Stop>, seen: set<Identity>)
    ensures FailCount(stops, seen) == |FailSet(stops, seen)|
    decreases |stops|
  {
    if stops != [] {
      var n: nat := |stops| - 1;
      var before := stops[..n];
      FailCountIs(before, seen);
      forall i: nat | i < n ensures Fails(before, seen, i) <==> Fails(stops, seen, i) { SamePassedOver(before, stops, seen, i); }
      assert FailSet(stops, seen) == FailSet(before, seen) + if Fails(stops, seen, n) then {n} else {};
      assert n !in FailSet(before, seen);
    }
  }

  lemma SamePassedOver(before: seq<Stop>, stops: seq<Stop>, seen: set<Identity>, i: nat)
    requires before <= stops && i < |before|
    ensures PassedOver(before, seen, i) <==> PassedOver(stops, seen, i)
  {
  }

  lemma FailsAfter(a: seq<Stop>, b: seq<Stop>, seen: set<Identity>, i: nat)
    requires i < |b|
    ensures Fails(a + b, seen, |a| + i) <==> Fails(b, seen + Handed(a), i)
  {
    var ab, stop := a + b, b[i];
    assert ab[|a| + i] == stop;
    if stop.File? {
      assert (exists j :: 0 <= j < |a| && Hands(a[j], stop.id)) <==> stop.id in Handed(a);
      forall j | 0 <= j < |a| + i ensures ab[j] == if j < |a| then a[j] else b[j - |a|] {}
      if exists j :: 0 <= j < i && Hands(b[j], stop.id) {
        var j :| 0 <= j < i && Hands(b[j], stop.id);
        assert ab[|a| + j] == b[j];
      }
      if exists j :: 0 <= j < |a| && Hands(a[j], stop.id) {
        var j :| 0 <= j < |a| && Hands(a[j], stop.id);
        assert ab[j] == a[j];
      }
    }
  }

  lemma {:induction false} FailCountConcat(a: seq<Stop>, b: seq<Stop>, seen: set<Identity>)
    ensures FailCount(a + b, seen) == FailCount(a, seen) + FailCount(b, seen + Handed(a))
    decreases |b|
  {
    if b == [] {
      assert a + b == a;
    } else {
      var n: nat := |b| - 1;
      FailCountConcat(a, b[..n], seen);
      assert (a + b)[..|a + b| - 1] == a + b[..n];
      FailsAfter(a, b, seen, n);
      forall k: nat | k < n ensures b[..n][k] == b[k] {}
    }
  }

  /** Its stat fails; and, for a file, nothing remembered it and no earlier stop with its identity was handed over. */
  predicate Leaks(stops: seq<Stop>, seen: set<Identity>, i: nat)
    requires i < |stops|
  {
    && !stops[i].Blind? && stops[i].opening.StatFails?
    && (stops[i].File? ==> stops[i].id !in seen && forall j :: 0 <= j < i ==> !Hands(stops[j], stops[i].id))
  }

  ghost function LeakSet(stops: seq<Stop>, seen: set<Identity>): set<nat> {
    set i: nat | i < |stops| && Leaks(stops, seen, i)
  }

  ghost function Handed(stops: seq<Stop>): set<Identity> {
    set j | 0 <= j < |stops| && stops[j].File? && Hands(stops[j], stops[j].id) :: stops[j].id
  }

  /** How many leak, counted from the front. */
  function LeakCount(stops: seq<Stop>, seen: set<Identity>): nat {
    if stops == [] then 0
    else LeakCount(stops[..|stops| - 1], seen) + if Leaks(stops, seen, |stops| - 1) then 1 else 0
  }

  lemma {:induction false} LeakCountIs(stops: seq<Stop>, seen: set<Identity>)
    ensures LeakCount(stops, seen) == |LeakSet(stops, seen)|
    decreases |stops|
  {
    if stops != [] {
      var n: nat := |stops| - 1;
      var before := stops[..n];
      LeakCountIs(before, seen);
      forall i: nat | i < n ensures Leaks(before, seen, i) <==> Leaks(stops, seen, i) {}
      assert LeakSet(stops, seen) == LeakSet(before, seen) + if Leaks(stops, seen, n) then {n} else {};
      assert n !in LeakSet(before, seen);
    }
  }

  lemma HandedConcat(a: seq<Stop>, b: seq<Stop>)
    ensures Handed(a + b) == Handed(a) + Handed(b)
  {
    var ab := a + b;
    forall id | id in Handed(a) + Handed(b) ensures id in Handed(ab) {
      if id in Handed(a) {
        var j :| 0 <= j < |a| && a[j].File? && a[j].id == id && Hands(a[j], id);
        assert ab[j] == a[j];
      } else {
        var j :| 0 <= j < |b| && b[j].File? && b[j].id == id && Hands(b[j], id);
        assert ab[|a| + j] == b[j];
      }
    }
    forall id | id in Handed(ab) ensures id in Handed(a) + Handed(b) {
      var j :| 0 <= j < |ab| && ab[j].File? && ab[j].id == id && Hands(ab[j], id);
      assert j < |a| ==> ab[j] == a[j];
      assert j >= |a| ==> ab[j] == b[j - |a|];
    }
  }

  lemma LeaksAfter(a: seq<Stop>, b: seq<Stop>, seen: set<Identity>, i: nat)
    requires i < |b|
    ensures Leaks(a + b, seen, |a| + i) <==> Leaks(b, seen + Handed(a), i)
  {
    var ab, stop := a + b, b[i];
    assert ab[|a| + i] == stop;
    if stop.File? {
      assert (exists j :: 0 <= j < |a| && Hands(a[j], stop.id)) <==> stop.id in Handed(a);
      forall j | 0 <= j < |a| + i ensures ab[j] == if j < |a| then a[j] else b[j - |a|] {}
      if Leaks(ab, seen, |a| + i) {
        forall j | 0 <= j < i ensures !Hands(b[j], stop.id) { assert ab[|a| + j] == b[j]; }
        forall j | 0 <= j < |a| ensures !Hands(a[j], stop.id) { assert ab[j] == a[j]; }
      }
    }
  }

  lemma {:induction false} LeakCountConcat(a: seq<Stop>, b: seq<Stop>, seen: set<Identity>)
    ensures LeakCount(a + b, seen) == LeakCount(a, seen) + LeakCount(b, seen + Handed(a))
    decreases |b|
  {
    if b == [] {
      assert a + b == a;
    } else {
      var n: nat := |b| - 1;
      LeakCountConcat(a, b[..n], seen);
      assert (a + b)[..|a + b| - 1] == a + b[..n];
      LeaksAfter(a, b, seen, n);
    }
  }

  // ----- a visit follows the stops

  /** What is remembered, what is lost and how many issues are raised are what the stops say. */
  ghost predicate Follows(v: Visit, seen: set<Identity>, stops: seq<Stop>) {
    v.seen == seen + Handed(stops) && LostIn(v.events) == LeakCount(stops, seen) && RaisedIn(v.events) == FailCount(stops, seen)
  }

  lemma FollowsThen(before: Visit, after: Visit, seen: set<Identity>, a: seq<Stop>, b: seq<Stop>)
    requires Follows(before, seen, a) && Follows(after, before.seen, b)
    ensures Follows(Visit(before.events + after.events, after.seen), seen, a + b)
  {
    hide LostIn, RaisedIn, LeakCount, FailCount, Handed;
    LostConcat(before.events, after.events);
    RaisedConcat(before.events, after.events);
    LeakCountConcat(a, b, seen);
    FailCountConcat(a, b, seen);
    HandedConcat(a, b);
  }

  lemma FollowsNothing(events: seq<Event>, seen: set<Identity>)
    requires forall e :: e in events ==> !e.Lost? && !e.Raised?
    ensures Follows(Visit(events, seen), seen, [])
  {
    QuietLost(events);
    NoneRaised(events);
    assert Handed([]) == {};
  }

  lemma FollowsDir(events: seq<Event>, seen: set<Identity>, opening: Opening)
    requires LostIn(events) == (if opening.StatFails? then 1 else 0) && RaisedIn(events) == if opening.Opens? then 0 else 1
    ensures Follows(Visit(events, seen), seen, [Dir(opening)])
  {
    var stops := [Dir(opening)];
    assert stops[..0] == [];
    assert FailCount(stops, seen) == FailCount([], seen) + if Fails(stops, seen, 0) then 1 else 0;
    assert LeakCount(stops, seen) == LeakCount([], seen) + if Leaks(stops, seen, 0) then 1 else 0;
    assert Handed(stops) == {};
  }

  lemma FollowsBlind(events: seq<Event>, seen: set<Identity>)
    requires LostIn(events) == 0 && RaisedIn(events) == 1
    ensures Follows(Visit(events, seen), seen, [Blind])
  {
    var stops := [Blind];
    assert stops[..0] == [];
    assert LeakCount(stops, seen) == LeakCount([], seen) + if Leaks(stops, seen, 0) then 1 else 0;
    assert FailCount(stops, seen) == FailCount([], seen) + if Fails(stops, seen, 0) then 1 else 0;
    assert Handed(stops) == {};
  }

  lemma OneRaised(before: seq<Event>, path: string, operation: string)
    requires forall e :: e in before ==> !e.Lost? && !e.Raised?
    ensures LostIn(before + [Raised(path, operation)]) == 0 && RaisedIn(before + [Raised(path, operation)]) == 1
  {
    var events := before + [Raised(path, operation)];
    assert events[..|events| - 1] == before;
    QuietLost(before);
    NoneRaised(before);
  }

  lemma FileFollows(env: Env, path: string, n: Node, seen: set<Identity>)
    requires n.Regular?
    ensures Follows(VisitFile(env, path, n, seen), seen, StopsOfFile(env, path, n))
  {
    var v := VisitFile(env, path, n, seen);
    var stops := StopsOfFile(env, path, n);
    if !env.candidate(path) {
      FollowsNothing(v.events, seen);
      return;
    }
    var id := Identity(n.dev, n.ino, env.role(path));
    assert stops == [File(id, n.opening)] && stops[..0] == [];
    assert LeakCount(stops, seen) == LeakCount([], seen) + if Leaks(stops, seen, 0) then 1 else 0;
    assert FailCount(stops, seen) == FailCount([], seen) + if Fails(stops, seen, 0) then 1 else 0;
    assert Handed(stops) == if Hands(stops[0], id) then {id} else {};
    if id !in seen && n.opening.StatFails? {
      OneLost(path);
    } else if id !in seen && (n.opening.OpenFails? || n.opening.Races?) {
      var e := v.events[1];
      OneRaised([FileSeen], path, e.operation);
      assert v.events == [FileSeen] + [Raised(path, e.operation)];
    } else {
      QuietLost(v.events);
      NoneRaised(v.events);
    }
  }

  lemma OneLost(path: string)
    ensures LostIn([FileSeen, Lost(path), Raised(path, "open")]) == 1 && RaisedIn([FileSeen, Lost(path), Raised(path, "open")]) == 1
  {
    var events := [FileSeen, Lost(path), Raised(path, "open")];
    assert events == [FileSeen, Lost(path)] + [Raised(path, "open")];
    LostConcat([FileSeen, Lost(path)], [Raised(path, "open")]);
    assert [FileSeen, Lost(path)] == [FileSeen] + [Lost(path)];
    LostConcat([FileSeen], [Lost(path)]);
    assert events[..2] == [FileSeen, Lost(path)];
    NoneRaised([FileSeen, Lost(path)]);
  }

  /** The names are entries of the directory. */
  ghost predicate AllThere(d: Node, names: seq<string>)
    requires d.Directory?
  {
    forall name :: name in names ==> Lookup(d, name).Some?
  }

  lemma {:induction false} SortedAreThere(entries: seq<Entry>, name: string)
    requires name in SortedNames(entries)
    ensures Find(entries, name).Some?
    decreases |entries|
  {
    InsertHas(entries[0].name, SortedNames(entries[1..]), name);
    if entries[0].name != name { SortedAreThere(entries[1..], name); }
  }

  lemma FrameIsThere(d: Node)
    requires d.Directory?
    ensures AllThere(d, SortedNames(d.entries)) && AllThere(d, NamesOf(d))
  {
    hide Find, SortedNames, IsBareRepository;
    forall name ensures name in SortedNames(d.entries) ==> Lookup(d, name).Some?
    {
      if name in SortedNames(d.entries) { SortedAreThere(d.entries, name); }
    }
    forall name ensures name in Only(SortedNames(d.entries), "hooks") ==> name in SortedNames(d.entries) { OnlyHas(SortedNames(d.entries), "hooks", name); }
  }

  lemma {:induction false} NamesFollow(env: Env, path: string, d: Node, names: seq<string>, seen: set<Identity>)
    requires d.Directory? && AllThere(d, names)
    ensures Follows(VisitNames(env, path, d, names, seen), seen, StopsAmong(env, path, d, names))
    decreases d, 0, |names|
  {
    hide Follows, StopsAt, VisitEntry, Find;
    if names == [] {
      FollowsNothing([], seen);
    } else {
      var n := Lookup(d, names[0]);
      assert AllThere(d, names[1..]);
      EntryFollows(env, path, names[0], n, d, seen);
      var first := VisitEntry(env, path, names[0], n, d, seen);
      NamesFollow(env, path, d, names[1..], first.seen);
      FollowsThen(first, VisitNames(env, path, d, names[1..], first.seen), seen,
                  StopsAt(env, path, names[0], n.value), StopsAmong(env, path, d, names[1..]));
    }
  }

  lemma {:induction false} EntryFollows(env: Env, dir: string, name: string, n: Option<Node>, parent: Node, seen: set<Identity>)
    requires n.Some? && n.value < parent
    ensures Follows(VisitEntry(env, dir, name, n, parent, seen), seen, StopsAt(env, dir, name, n.value))
    decreases parent, 0, 0
  {
    hide Follows, VisitFile, VisitPlan, StopsOfFile, StopsOfGit, StopsOfDirectory, PlanGit, PlanDirectory;
    var path := Under(dir, name);
    if n.value.Regular? {
      FileFollows(env, path, n.value, seen);
      var events := if name == ".git" then [Repository(dir)] else [];
      var v := VisitFile(env, path, n.value, seen);
      FollowsNothing(events, seen);
      FollowsThen(Visit(events, seen), v, seen, [], StopsOfFile(env, path, n.value));
      assert [] + StopsOfFile(env, path, n.value) == StopsOfFile(env, path, n.value);
    } else if n.value.Directory? {
      var p := PlanEntry(env, dir, name, n.value);
      if name == ".git" {
        GitFollows(env, dir, n.value, seen);
      } else if (dir == env.home && name in BULK) || env.excluded(path).Some? {
        NoPlanFollows(env, p, n.value, seen);
      } else {
        DirectoryFollows(env, path, n.value, seen);
      }
    } else if n.value.Unreadable? {
      OneRaised([], path, "stat");
      assert [] + [Raised(path, "stat")] == [Raised(path, "stat")];
      FollowsBlind([Raised(path, "stat")], seen);
    } else {
      FollowsNothing(VisitEntry(env, dir, name, n, parent, seen).events, seen);
    }
  }

  lemma NoPlanFollows(env: Env, p: Plan, bound: Node, seen: set<Identity>)
    requires p.below.None? && forall e :: e in p.events ==> !e.Lost? && !e.Raised?
    ensures Follows(VisitPlan(env, p, bound, seen), seen, [])
  {
    FollowsNothing(p.events, seen);
  }

  /** A plan's events, then the frame it pushes, if any. */
  lemma {:induction false} PlanFollows(env: Env, p: Plan, bound: Node, seen: set<Identity>, first: seq<Stop>)
    requires p.below.Some? ==> p.below.value.Directory? && (p.below.value < bound || p.below.value == bound)
    requires p.below.Some? ==> AllThere(p.below.value, p.names)
    requires Follows(Visit(p.events, seen), seen, first)
    ensures
      Follows(VisitPlan(env, p, bound, seen), seen,
              first + if p.below.Some? then StopsAmong(env, p.path, p.below.value, p.names) else [])
    decreases bound, 1, 0
  {
    hide Follows, VisitNames, StopsAmong;
    if p.below.None? {
      assert first + [] == first;
    } else {
      var d := p.below.value;
      NamesFollow(env, p.path, d, p.names, seen);
      var v := VisitNames(env, p.path, d, p.names, seen);
      var stops := StopsAmong(env, p.path, d, p.names);
      FollowsNothing([Left(p.path)], v.seen);
      FollowsThen(v, Visit([Left(p.path)], v.seen), seen, stops, []);
      assert stops + [] == stops;
      FollowsThen(Visit(p.events, seen), VisitFrame(env, p.path, d, p.names, seen), seen, first, stops);
    }
  }

  lemma {:induction false} DirectoryFollows(env: Env, path: string, d: Node, seen: set<Identity>)
    requires d.Directory?
    ensures Follows(VisitPlan(env, PlanDirectory(path, d), d, seen), seen, StopsOfDirectory(env, path, d))
    decreases d, 1, 1
  {
    hide Follows, VisitPlan, StopsAmong, NamesOf, IsBareRepository, LostIn, RaisedIn, AllThere;
    FrameIsThere(d);
    var p := PlanDirectory(path, d);
    var open := OpenEvents(path, d.opening);
    LostOnOpening(path, d.opening);
    if d.opening.Opens? {
      QuietLost(BareEvents(path, d));
      LostConcat(open, BareEvents(path, d));
      NoneRaised(BareEvents(path, d));
      RaisedConcat(open, BareEvents(path, d));
    }
    FollowsDir(p.events, seen, d.opening);
    PlanFollows(env, p, d, seen, [Dir(d.opening)]);
  }

  lemma {:induction false} GitFollows(env: Env, dir: string, git: Node, seen: set<Identity>)
    requires git.Directory?
    ensures Follows(VisitPlan(env, PlanGit(dir, git), git, seen), seen, StopsOfGit(env, Under(dir, ".git"), git))
    decreases git, 1, 1
  {
    hide Follows, VisitPlan, StopsAmong, SortedNames, Find, OpenEvents, LostIn, RaisedIn, AllThere;
    var path := Under(dir, ".git");
    var p := PlanGit(dir, git);
    var hooks := Lookup(git, "hooks");
    GitLost(dir, git);
    if git.opening.Opens? && hooks.Some? && hooks.value.Directory? {
      FrameIsThere(hooks.value);
      FollowsDir([], seen, git.opening) by { QuietLost([]); NoneRaised([]); }
      FollowsDir(p.events, seen, hooks.value.opening);
      FollowsThen(Visit([], seen), Visit(p.events, seen), seen, [Dir(git.opening)], [Dir(hooks.value.opening)]);
      assert [] + p.events == p.events;
      PlanFollows(env, p, git, seen, [Dir(git.opening)] + [Dir(hooks.value.opening)]);
      GitStops(env, dir, git);
    } else if git.opening.Opens? && hooks == Some(Unreadable) {
      FollowsDir([], seen, git.opening) by { QuietLost([]); NoneRaised([]); }
      FollowsBlind(p.events, seen);
      FollowsThen(Visit([], seen), Visit(p.events, seen), seen, [Dir(git.opening)], [Blind]);
      assert [] + p.events == p.events;
      PlanFollows(env, p, git, seen, [Dir(git.opening)] + [Blind]);
      var stops := [Dir(git.opening)] + [Blind];
      assert stops + [] == stops && StopsOfGit(env, path, git) == stops && p.below.None?;
    } else {
      FollowsDir(p.events, seen, git.opening);
      PlanFollows(env, p, git, seen, [Dir(git.opening)]);
    }
  }

  lemma GitStops(env: Env, dir: string, git: Node)
    requires git.Directory? && git.opening.Opens? && Lookup(git, "hooks").Some? && Lookup(git, "hooks").value.Directory?
    ensures
      var p, hooks := PlanGit(dir, git), Lookup(git, "hooks").value;
      StopsOfGit(env, Under(dir, ".git"), git) ==
      [Dir(git.opening)] + [Dir(hooks.opening)] + if p.below.Some? then StopsAmong(env, p.path, p.below.value, p.names) else []
  {
    hide StopsAmong, SortedNames, Find, OpenEvents;
    var hooks := Lookup(git, "hooks").value;
    var below := if hooks.opening.Opens? then StopsAmong(env, Under(Under(dir, ".git"), "hooks"), hooks, SortedNames(hooks.entries)) else [];
    assert [Dir(git.opening)] + ([Dir(hooks.opening)] + below) == [Dir(git.opening)] + [Dir(hooks.opening)] + below;
  }

  /** What a repository's plan loses and raises, before its hooks are gone through. */
  lemma GitLost(dir: string, git: Node)
    requires git.Directory?
    ensures
      var events, hooks := PlanGit(dir, git).events, Lookup(git, "hooks");
      if !git.opening.Opens? then LostIn(events) == (if git.opening.StatFails? then 1 else 0) && RaisedIn(events) == 1
      else if hooks.Some? && hooks.value.Directory? then
        LostIn(events) == (if hooks.value.opening.StatFails? then 1 else 0) && RaisedIn(events) == if hooks.value.opening.Opens? then 0 else 1
      else LostIn(events) == 0 && RaisedIn(events) == if hooks == Some(Unreadable) then 1 else 0
  {
    hide SortedNames, Find, OpenEvents, LostIn, RaisedIn;
    var path := Under(dir, ".git");
    var first := [Repository(dir), Excluded(Under(path, "objects"))];
    var open := OpenEvents(path, git.opening);
    QuietLost(first);
    NoneRaised(first);
    LostOnOpening(path, git.opening);
    LostConcat(first, open);
    RaisedConcat(first, open);
    if git.opening.Opens? {
      var hooks := Lookup(git, "hooks");
      QuietLost([Left(path)]);
      NoneRaised([Left(path)]);
      if hooks.Some? && hooks.value.Directory? {
        var inner := OpenEvents(Under(path, "hooks"), hooks.value.opening);
        LostOnOpening(Under(path, "hooks"), hooks.value.opening);
        LostConcat(first + open, inner);
        LostConcat(first + open + inner, [Left(path)]);
        RaisedConcat(first + open, inner);
        RaisedConcat(first + open + inner, [Left(path)]);
      } else if hooks == Some(Unreadable) {
        var blind := [Raised(Under(path, "hooks"), "stat")];
        OneRaised([], Under(path, "hooks"), "stat");
        assert [] + blind == blind;
        LostConcat(blind, [Left(path)]);
        RaisedConcat(blind, [Left(path)]);
        assert PlanGit(dir, git).events == (first + open) + (blind + [Left(path)]);
        LostConcat(first + open, blind + [Left(path)]);
        RaisedConcat(first + open, blind + [Left(path)]);
      } else {
        var rest := PlanGit(dir, git).events[|first + open|..];
        assert PlanGit(dir, git).events == (first + open) + rest;
        QuietLost(rest);
        NoneRaised(rest);
        LostConcat(first + open, rest);
        RaisedConcat(first + open, rest);
      }
    }
  }

  lemma RootFollows(env: Env, path: string, n: Node, seen: set<Identity>)
    ensures Follows(VisitRoot(env, path, n, seen), seen, StopsOfRoot(env, path, n))
  {
    hide VisitFile, PlanDirectory, VisitPlan, StopsOfFile, StopsOfDirectory, Follows;
    var v := VisitRoot(env, path, n, seen);
    if env.excluded(path).Some? || n.Special? {
      FollowsNothing(v.events, seen);
    } else if n.Regular? {
      FileFollows(env, path, n, seen);
    } else if n.Directory? {
      DirectoryFollows(env, path, n, seen);
    } else if n.Unreadable? {
      OneRaised([], path, "stat-root");
      assert [] + [Raised(path, "stat-root")] == [Raised(path, "stat-root")];
      FollowsBlind(v.events, seen);
    } else {
      OneRaised([SymlinkSkipped], path, "root-symlink");
      assert [SymlinkSkipped] + [Raised(path, "root-symlink")] == [SymlinkSkipped, Raised(path, "root-symlink")];
      FollowsBlind(v.events, seen);
    }
  }

  /**
   A walk of any tree loses exactly one descriptor for each leaking stop: each directory it comes to whose stat
   fails, and each candidate file whose stat fails while its identity is not remembered.
   */
  lemma LostExactly(env: Env, path: string, n: Node, seen: set<Identity>)
    ensures
      var v, stops := VisitRoot(env, path, n, seen), StopsOfRoot(env, path, n);
      && LostIn(v.events) == |LeakSet(stops, seen)|
      && (LostIn(v.events) == 0 <==> forall i: nat :: i < |stops| ==> !Leaks(stops, seen, i))
      && v.seen == seen + Handed(stops)
  {
    hide VisitRoot, StopsOfRoot, LostIn;
    var stops := StopsOfRoot(env, path, n);
    RootFollows(env, path, n, seen);
    LeakCountIs(stops, seen);
    if i: nat :| i < |stops| && Leaks(stops, seen, i) { assert i in LeakSet(stops, seen); }
    if LeakSet(stops, seen) != {} {
      var i :| i in LeakSet(stops, seen);
      assert Leaks(stops, seen, i);
    }
  }

  /**
   A walk of any tree raises exactly one issue for each failing stop, so none if and only if the root is no link and
   can be looked at, and so can every entry the walk comes to, every directory among them opens without a race and
   can be listed, and every candidate file that is not passed over opens without a race.
   */
  lemma RaisedExactly(env: Env, path: string, n: Node, seen: set<Identity>)
    ensures
      var v, stops := VisitRoot(env, path, n, seen), StopsOfRoot(env, path, n);
      && RaisedIn(v.events) == |FailSet(stops, seen)|
      && ((forall e :: e in v.events ==> !e.Raised?) <==> forall i: nat :: i < |stops| ==> !Fails(stops, seen, i))
  {
    hide VisitRoot, StopsOfRoot, RaisedIn, Fails;
    var stops := StopsOfRoot(env, path, n);
    RootFollows(env, path, n, seen);
    FailCountIs(stops, seen);
    NoneRaised(VisitRoot(env, path, n, seen).events);
    if i: nat :| i < |stops| && Fails(stops, seen, i) { assert i in FailSet(stops, seen); }
    if FailSet(stops, seen) != {} {
      var i :| i in FailSet(stops, seen);
      assert Fails(stops, seen, i);
    }
  }

  /** An empty directory opened as a root, whose stat then fails: one descriptor is lost. */
  lemma OneDescriptorIsLost(env: Env, path: string, seen: set<Identity>)
    requires env.excluded(path).None?
    ensures LostIn(VisitRoot(env, path, Directory(StatFails, []), seen).events) == 1
  {
    LostOnOpening(path, StatFails);
  }
}
