/**
 What a walk records besides files and issues, said about the tree alone: the repositories and exclusions it names and
 how many links, special files and files it counts.
 */
module WalkMarks {

  import opened Options
  import opened WalkReach
  import opened Walks

  // ----- entries and bare repositories

  /** The first entry with this name is this node. */
  ghost predicate Holds(entries: seq<Entry>, name: string, n: Node) {
    exists i :: 0 <= i < |entries| && entries[i] == Entry(name, n) && forall j :: 0 <= j < i ==> entries[j].name != name
  }

  lemma {:induction false} FindIff(entries: seq<Entry>, name: string, n: Node)
    ensures Find(entries, name) == Some(n) <==> Holds(entries, name, n)
    decreases |entries|
  {
    if entries != [] {
      FindIff(entries[1..], name, n);
      assert forall i :: 0 <= i < |entries[1..]| ==> entries[1..][i] == entries[i + 1];
      if entries[0].name == name {
        assert entries[0] == Entry(name, entries[0].node);
      } else {
        if Holds(entries[1..], name, n) {
          var i :| 0 <= i < |entries[1..]| && entries[1..][i] == Entry(name, n) && forall j :: 0 <= j < i ==> entries[1..][j].name != name;
          var k := i + 1;
          forall j | 0 <= j < k ensures entries[j].name != name { assert j > 0 ==> entries[j] == entries[1..][j - 1]; }
          assert entries[k] == Entry(name, n);
        }
        if Holds(entries, name, n) {
          var i :| 0 <= i < |entries| && entries[i] == Entry(name, n) && forall j :: 0 <= j < i ==> entries[j].name != name;
          var k := i - 1;
          forall j | 0 <= j < k ensures entries[1..][j].name != name { assert entries[1..][j] == entries[j + 1]; }
          assert entries[1..][k] == Entry(name, n);
        }
      }
    }
  }

  ghost predicate HoldsFile(d: Node, name: string)
    requires d.Directory?
  {
    exists n :: Holds(d.entries, name, n) && n.Regular?
  }

  ghost predicate HoldsDirectory(d: Node, name: string)
    requires d.Directory?
  {
    exists n :: Holds(d.entries, name, n) && n.Directory?
  }

  ghost predicate HoldsEither(d: Node, name: string)
    requires d.Directory?
  {
    HoldsFile(d, name) || HoldsDirectory(d, name)
  }

  lemma HoldsIff(d: Node, name: string)
    requires d.Directory?
    ensures IsFile(Lookup(d, name)) <==> HoldsFile(d, name)
    ensures IsDirectory(Lookup(d, name)) <==> HoldsDirectory(d, name)
  {
    hide Find, Holds;
    forall n ensures Lookup(d, name) == Some(n) <==> Holds(d.entries, name, n) { FindIff(d.entries, name, n); }
  }

  /** A bare repository has a file HEAD, a directory objects, and config, refs or packed-refs as a file or directory. */
  lemma BareIff(d: Node)
    requires d.Directory?
    ensures
      IsBareRepository(d) <==>
      HoldsFile(d, "HEAD") && HoldsDirectory(d, "objects") && (HoldsEither(d, "config") || HoldsEither(d, "refs") || HoldsEither(d, "packed-refs"))
  {
    hide Find, HoldsFile, HoldsDirectory;
    forall name ensures IsFile(Lookup(d, name)) <==> HoldsFile(d, name)
      ensures IsDirectory(Lookup(d, name)) <==> HoldsDirectory(d, name)
    { HoldsIff(d, name); }
    var names := ["config", "refs", "packed-refs"];
    assert names[0] in names && names[1] in names && names[2] in names;
  }

  // ----- the places a walk comes to

  datatype Place =
    | AtRoot(path: string, node: Node)
    | AtEntry(dir: string, name: string, node: Node)
    | AtHooks(git: string, node: Node)

  /** In visiting order: an entry and what lies below it, unless that is not gone through. */
  function PlacesAt(env: Env, dir: string, name: string, n: Node): seq<Place>
    decreases n, 2, 0
  {
    [AtEntry(dir, name, n)] +
    if !n.Directory? then []
    else if name == ".git" then PlacesOfGit(env, Under(dir, name), n)
    else if Skipped(env, dir, name) then []
    else PlacesOfDirectory(env, Under(dir, name), n)
  }

  predicate Skipped(env: Env, dir: string, name: string) {
    (dir == env.home && name in BULK) || env.excluded(Under(dir, name)).Some?
  }

  function PlacesOfDirectory(env: Env, path: string, d: Node): seq<Place>
    requires d.Directory?
    decreases d, 1, 0
  {
    if d.opening.Opens? then PlacesAmong(env, path, d, NamesOf(d)) else []
  }

  function PlacesOfGit(env: Env, path: string, git: Node): seq<Place>
    requires git.Directory?
    decreases git, 1, 0
  {
    if !git.opening.Opens? then []
    else
      match Lookup(git, "hooks")
      case None => []
      case Some(hooks) =>
        [AtHooks(path, hooks)] +
        if hooks.Directory? && hooks.opening.Opens? then PlacesAmong(env, Under(path, "hooks"), hooks, SortedNames(hooks.entries)) else []
  }

  function PlacesAmong(env: Env, path: string, d: Node, names: seq<string>): seq<Place>
    requires d.Directory?
    decreases d, 0, |names|
  {
    if names == [] then []
    else (if Lookup(d, names[0]).Some? then PlacesAt(env, path, names[0], Lookup(d, names[0]).value) else []) + PlacesAmong(env, path, d, names[1..])
  }

  function PlacesOfRoot(env: Env, path: string, n: Node): seq<Place> {
    [AtRoot(path, n)] + if n.Directory? && env.excluded(path).None? then PlacesOfDirectory(env, path, n) else []
  }

  // ----- what is recorded at a place

  predicate IsMark(e: Event) {
    e.Repository? || e.Excluded? || e.SymlinkSkipped? || e.SpecialSkipped? || e.FileSeen? || e.NonCodeSkipped?
  }

  function Marked(events: seq<Event>): seq<Event> {
    if events == [] then [] else Marked(events[..|events| - 1]) + if IsMark(events[|events| - 1]) then [events[|events| - 1]] else []
  }

  function MarksHere(env: Env, place: Place): seq<Event> {
    match place
    case AtRoot(path, n) =>
      if env.excluded(path).Some? then [Excluded(env.excluded(path).value)]
      else if n.Directory? then MarksOfDirectory(path, n)
      else MarksOfOther(env, path, n)
    case AtEntry(dir, name, n) =>
      if n.Directory? then
        if name == ".git" then [Repository(dir), Excluded(Under(Under(dir, name), "objects"))]
        else if dir == env.home && name in BULK then [Excluded(Under(dir, name))]
        else if env.excluded(Under(dir, name)).Some? then [Excluded(env.excluded(Under(dir, name)).value)]
        else MarksOfDirectory(Under(dir, name), n)
      else (if name == ".git" && n.Regular? then [Repository(dir)] else []) + MarksOfOther(env, Under(dir, name), n)
    case AtHooks(git, n) => if n.Link? then [SymlinkSkipped] else if n.Special? || n.Regular? then [SpecialSkipped] else []
  }

  function MarksOfDirectory(path: string, d: Node): seq<Event>
    requires d.Directory?
  {
    if d.opening.Opens? && IsBareRepository(d) then [Repository(path), Excluded(Under(path, "objects"))] else []
  }

  function MarksOfOther(env: Env, path: string, n: Node): seq<Event> {
    if n.Link? then [SymlinkSkipped]
    else if n.Special? then [SpecialSkipped]
    else if !n.Regular? then []
    else if env.candidate(path) then [FileSeen]
    else [FileSeen, NonCodeSkipped]
  }

  function MarksOf(env: Env, places: seq<Place>): seq<Event> {
    if places == [] then [] else MarksHere(env, places[0]) + MarksOf(env, places[1..])
  }

  lemma {:induction false} MarkedConcat(a: seq<Event>, b: seq<Event>)
    ensures Marked(a + b) == Marked(a) + Marked(b)
    decreases |b|
  {
    if b == [] {
      assert a + b == a;
    } else {
      MarkedConcat(a, b[..|b| - 1]);
      assert (a + b)[..|a + b| - 1] == a + b[..|b| - 1];
    }
  }

  lemma {:induction false} MarksConcat(env: Env, a: seq<Place>, b: seq<Place>)
    ensures MarksOf(env, a + b) == MarksOf(env, a) + MarksOf(env, b)
    decreases |a|
  {
    hide MarksHere;
    if a == [] {
      assert a + b == b;
    } else {
      MarksConcat(env, a[1..], b);
      assert (a + b)[1..] == a[1..] + b;
    }
  }

  lemma {:induction false} NoMarks(events: seq<Event>)
    requires forall e :: e in events ==> !IsMark(e)
    ensures Marked(events) == []
    decreases |events|
  {
    if events != [] { NoMarks(events[..|events| - 1]); }
  }

  lemma {:induction false} AllMarks(events: seq<Event>)
    requires forall e :: e in events ==> IsMark(e)
    ensures Marked(events) == events
    decreases |events|
  {
    if events != [] {
      AllMarks(events[..|events| - 1]);
      assert events == events[..|events| - 1] + [events[|events| - 1]];
    }
  }

  lemma OneMarks(env: Env, place: Place)
    ensures MarksOf(env, [place]) == MarksHere(env, place)
  {
    assert [place][1..] == [];
  }

  lemma NothingMarks(env: Env)
    ensures MarksOf(env, []) == []
  {
  }

  // ----- a walk records what its places say

  lemma FileMarks(env: Env, path: string, n: Node, seen: set<Identity>)
    requires n.Regular?
    ensures Marked(VisitFile(env, path, n, seen).events) == MarksOfOther(env, path, n)
  {
    hide Marked;
    var events := VisitFile(env, path, n, seen).events;
    if env.candidate(path) {
      assert events == [FileSeen] + events[1..];
      MarkedConcat([FileSeen], events[1..]);
      AllMarks([FileSeen]);
      NoMarks(events[1..]);
    } else {
      AllMarks(events);
    }
  }

  lemma {:induction false} NamesMark(env: Env, path: string, d: Node, names: seq<string>, seen: set<Identity>)
    requires d.Directory?
    ensures Marked(VisitNames(env, path, d, names, seen).events) == MarksOf(env, PlacesAmong(env, path, d, names))
    decreases d, 0, |names|
  {
    hide Marked, MarksOf, PlacesAt, VisitEntry, Find;
    if names == [] {
      NoMarks([]);
      NothingMarks(env);
    } else {
      var n := Lookup(d, names[0]);
      EntryMarks(env, path, names[0], n, d, seen);
      var first := VisitEntry(env, path, names[0], n, d, seen);
      NamesMark(env, path, d, names[1..], first.seen);
      MarkedConcat(first.events, VisitNames(env, path, d, names[1..], first.seen).events);
      MarksConcat(env, if n.Some? then PlacesAt(env, path, names[0], n.value) else [], PlacesAmong(env, path, d, names[1..]));
    }
  }

  lemma {:induction false} EntryMarks(env: Env, dir: string, name: string, n: Option<Node>, parent: Node, seen: set<Identity>)
    requires n.Some? ==> n.value < parent
    ensures Marked(VisitEntry(env, dir, name, n, parent, seen).events) == MarksOf(env, if n.Some? then PlacesAt(env, dir, name, n.value) else [])
    decreases parent, 0, 0
  {
    hide Marked, MarksOf, VisitFile, VisitPlan, PlanGit, PlanDirectory, PlacesOfGit, PlacesOfDirectory, MarksOfOther, MarksOfDirectory;
    var path := Under(dir, name);
    var v := VisitEntry(env, dir, name, n, parent, seen);
    if n.None? {
      NoMarks(v.events);
      NothingMarks(env);
      return;
    }
    var here := AtEntry(dir, name, n.value);
    var below := PlacesAt(env, dir, name, n.value)[1..];
    assert PlacesAt(env, dir, name, n.value) == [here] + below;
    MarksConcat(env, [here], below);
    OneMarks(env, here);
    NothingMarks(env);
    if n.value.Directory? {
      if name == ".git" {
        GitMarks(env, dir, n.value, seen);
      } else if Skipped(env, dir, name) {
        PlanMarks(env, PlanEntry(env, dir, name, n.value), n.value, seen);
        AllMarks(PlanEntry(env, dir, name, n.value).events);
      } else {
        DirectoryMarks(env, path, n.value, seen);
      }
    } else if n.value.Regular? {
      var events := if name == ".git" then [Repository(dir)] else [];
      FileMarks(env, path, n.value, seen);
      MarkedConcat(events, VisitFile(env, path, n.value, seen).events);
      AllMarks(events);
    } else {
      OtherMarks(env, path, n.value, v.events);
    }
  }

  /** Of what is neither a file nor a directory, one mark or one issue. */
  lemma OtherMarks(env: Env, path: string, n: Node, events: seq<Event>)
    requires !n.Directory? && !n.Regular? && |events| > 0
    requires events[0] == if n.Link? then SymlinkSkipped else if n.Special? then SpecialSkipped else events[0]
    requires n.Unreadable? ==> !IsMark(events[0])
    requires forall i :: 0 < i < |events| ==> !IsMark(events[i])
    ensures Marked(events) == MarksOfOther(env, path, n)
  {
    assert events == [events[0]] + events[1..];
    MarkedConcat([events[0]], events[1..]);
    NoMarks(events[1..]);
    if n.Unreadable? { NoMarks([events[0]]); } else { AllMarks([events[0]]); }
  }

  /** A plan's marks, then those of the frame it pushes, if any. */
  lemma {:induction false} PlanMarks(env: Env, p: Plan, bound: Node, seen: set<Identity>)
    requires p.below.Some? ==> p.below.value.Directory? && (p.below.value < bound || p.below.value == bound)
    ensures
      Marked(VisitPlan(env, p, bound, seen).events) ==
      Marked(p.events) + MarksOf(env, if p.below.Some? then PlacesAmong(env, p.path, p.below.value, p.names) else [])
    decreases bound, 1, 0
  {
    hide Marked, MarksOf, VisitNames, PlacesAmong;
    if p.below.None? {
      NothingMarks(env);
    } else {
      var d := p.below.value;
      NamesMark(env, p.path, d, p.names, seen);
      var v := VisitNames(env, p.path, d, p.names, seen);
      MarkedConcat(v.events, [Left(p.path)]);
      NoMarks([Left(p.path)]);
      MarkedConcat(p.events, v.events + [Left(p.path)]);
    }
  }

  lemma {:induction false} DirectoryMarks(env: Env, path: string, d: Node, seen: set<Identity>)
    requires d.Directory?
    ensures
      Marked(VisitPlan(env, PlanDirectory(path, d), d, seen).events) ==
      MarksOfDirectory(path, d) + MarksOf(env, PlacesOfDirectory(env, path, d))
    decreases d, 1, 1
  {
    hide Marked, MarksOf, VisitPlan, PlacesAmong, NamesOf, IsBareRepository;
    PlanMarks(env, PlanDirectory(path, d), d, seen);
    NoMarks(OpenEvents(path, d.opening));
    if d.opening.Opens? {
      MarkedConcat([Entered(path)], BareEvents(path, d));
      AllMarks(BareEvents(path, d));
    }
  }

  lemma {:induction false} GitMarks(env: Env, dir: string, git: Node, seen: set<Identity>)
    requires git.Directory?
    ensures
      Marked(VisitPlan(env, PlanGit(dir, git), git, seen).events) ==
      [Repository(dir), Excluded(Under(Under(dir, ".git"), "objects"))] + MarksOf(env, PlacesOfGit(env, Under(dir, ".git"), git))
    decreases git, 1, 1
  {
    hide Marked, MarksOf, VisitPlan, PlacesAmong, SortedNames, Find, OpenEvents;
    var path := Under(dir, ".git");
    var p := PlanGit(dir, git);
    var hooks := Lookup(git, "hooks");
    PlanMarks(env, p, git, seen);
    GitPlanMarks(dir, git);
    NothingMarks(env);
    if git.opening.Opens? && hooks.Some? {
      var here := AtHooks(path, hooks.value);
      OneMarks(env, here);
      MarksConcat(env, [here], PlacesOfGit(env, path, git)[1..]);
      assert PlacesOfGit(env, path, git) == [here] + PlacesOfGit(env, path, git)[1..];
    }
  }

  /** What a repository's plan marks before its hooks are gone through. */
  lemma GitPlanMarks(dir: string, git: Node)
    requires git.Directory?
    ensures
      Marked(PlanGit(dir, git).events) ==
      [Repository(dir), Excluded(Under(Under(dir, ".git"), "objects"))] +
      if !git.opening.Opens? then []
      else if Lookup(git, "hooks") == Some(Link) then [SymlinkSkipped]
      else if Lookup(git, "hooks").Some? && (Lookup(git, "hooks").value.Special? || Lookup(git, "hooks").value.Regular?) then [SpecialSkipped]
      else []
  {
    hide Marked, SortedNames, Find, OpenEvents;
    var path := Under(dir, ".git");
    var first := [Repository(dir), Excluded(Under(path, "objects"))];
    var open := OpenEvents(path, git.opening);
    var events := PlanGit(dir, git).events;
    OpeningMarks(path, git.opening);
    AllMarks(first);
    MarkedConcat(first, open);
    if git.opening.Opens? {
      var rest := events[|first + open|..];
      assert events == (first + open) + rest;
      MarkedConcat(first + open, rest);
      var hooks := Lookup(git, "hooks");
      if hooks.Some? && hooks.value.Directory? {
        OpeningMarks(Under(path, "hooks"), hooks.value.opening);
        assert rest == OpenEvents(Under(path, "hooks"), hooks.value.opening) + [Left(path)];
        MarkedConcat(OpenEvents(Under(path, "hooks"), hooks.value.opening), [Left(path)]);
        NoMarks([Left(path)]);
      } else if hooks.Some? && !hooks.value.Unreadable? {
        assert rest == [rest[0]] + [Left(path)];
        MarkedConcat([rest[0]], [Left(path)]);
        AllMarks([rest[0]]);
        NoMarks([Left(path)]);
      } else {
        NoMarks(rest);
      }
    }
  }

  lemma OpeningMarks(path: string, opening: Opening)
    ensures Marked(OpenEvents(path, opening)) == []
  {
    NoMarks(OpenEvents(path, opening));
  }

  /** A walk of any tree marks what its places say, in their order, whatever was remembered. */
  lemma MarksAreOfPlaces(env: Env, path: string, n: Node, seen: set<Identity>)
    ensures Marked(VisitRoot(env, path, n, seen).events) == MarksOf(env, PlacesOfRoot(env, path, n))
  {
    hide Marked, MarksOf, VisitFile, VisitPlan, PlanDirectory, PlacesOfDirectory, MarksOfOther, MarksOfDirectory;
    var events := VisitRoot(env, path, n, seen).events;
    var here, below := AtRoot(path, n), PlacesOfRoot(env, path, n)[1..];
    assert PlacesOfRoot(env, path, n) == [here] + below;
    MarksConcat(env, [here], below);
    OneMarks(env, here);
    NothingMarks(env);
    if env.excluded(path).Some? {
      AllMarks(events);
    } else if n.Directory? {
      DirectoryMarks(env, path, n, seen);
    } else if n.Regular? {
      FileMarks(env, path, n, seen);
    } else {
      OtherMarks(env, path, n, events);
    }
  }

  lemma {:induction false} MarkedHas(events: seq<Event>, e: Event)
    ensures e in Marked(events) <==> IsMark(e) && e in events
    decreases |events|
  {
    if events != [] {
      MarkedHas(events[..|events| - 1], e);
      assert events == events[..|events| - 1] + [events[|events| - 1]];
    }
  }

  lemma {:induction false} MarksOfHas(env: Env, places: seq<Place>, e: Event)
    ensures e in MarksOf(env, places) <==> exists place :: place in places && e in MarksHere(env, place)
    decreases |places|
  {
    if places != [] {
      MarksOfHas(env, places[1..], e);
      assert places == [places[0]] + places[1..];
    }
  }

  /** An entry .git that is a file or a directory, or an opened directory that is a bare repository. */
  predicate IsRepositoryAt(env: Env, place: Place, path: string) {
    match place
    case AtEntry(dir, name, n) =>
      if name == ".git" then path == dir && (n.Regular? || n.Directory?)
      else path == Under(dir, name) && n.Directory? && n.opening.Opens? && IsBareRepository(n) && !Skipped(env, dir, name)
    case AtRoot(p, n) => path == p && n.Directory? && n.opening.Opens? && IsBareRepository(n) && env.excluded(p).None?
    case AtHooks(_, _) => false
  }

  /** A path is recorded as a repository exactly if some place the walk comes to makes it one. */
  lemma RepositoriesAre(env: Env, path: string, n: Node, seen: set<Identity>, r: string)
    ensures
      Repository(r) in VisitRoot(env, path, n, seen).events <==> exists place :: place in PlacesOfRoot(env, path, n) && IsRepositoryAt(env, place, r)
  {
    hide VisitRoot, PlacesOfRoot, Marked, MarksOf, IsBareRepository;
    MarksAreOfPlaces(env, path, n, seen);
    MarkedHas(VisitRoot(env, path, n, seen).events, Repository(r));
    MarksOfHas(env, PlacesOfRoot(env, path, n), Repository(r));
    forall place ensures Repository(r) in MarksHere(env, place) <==> IsRepositoryAt(env, place, r) {}
  }

  // ----- the counters

  /** The place is one of those that this counter counts. */
  predicate Counts(env: Env, place: Place, counter: Event) {
    && (place.AtRoot? ==> env.excluded(place.path).None?)
    && match counter
       case SymlinkSkipped => place.node.Link?
       case SpecialSkipped => place.node.Special? || (place.AtHooks? && place.node.Regular?)
       case FileSeen => !place.AtHooks? && place.node.Regular?
       case NonCodeSkipped => !place.AtHooks? && place.node.Regular? && !env.candidate(if place.AtRoot? then place.path else Under(place.dir, place.name))
       case _ => false
  }

  ghost function Counted(env: Env, places: seq<Place>, counter: Event): set<nat> {
    set i: nat | i < |places| && Counts(env, places[i], counter)
  }

  predicate IsCounter(e: Event) { e.SymlinkSkipped? || e.SpecialSkipped? || e.FileSeen? || e.NonCodeSkipped? }

  lemma {:induction false} MarkedKeeps(events: seq<Event>, e: Event)
    requires IsMark(e)
    ensures multiset(Marked(events))[e] == multiset(events)[e]
    decreases |events|
  {
    if events != [] {
      MarkedKeeps(events[..|events| - 1], e);
      assert events == events[..|events| - 1] + [events[|events| - 1]];
    }
  }

  lemma OtherCountsOnce(env: Env, path: string, n: Node, e: Event)
    requires IsCounter(e)
    ensures
      multiset(MarksOfOther(env, path, n))[e] ==
      match e
      case SymlinkSkipped => if n.Link? then 1 else 0
      case SpecialSkipped => if n.Special? then 1 else 0
      case FileSeen => if n.Regular? then 1 else 0
      case _ => if n.Regular? && !env.candidate(path) then 1 else 0
  {
  }

  lemma NoCounter(events: seq<Event>, e: Event)
    requires IsCounter(e) && forall x :: x in events ==> x.Repository? || x.Excluded?
    ensures multiset(events)[e] == 0
  {
    assert e !in events;
  }

  /** At a directory only paths are marked. */
  lemma PathsOnly(env: Env, place: Place)
    requires !place.AtHooks? && (place.node.Directory? || (place.AtRoot? && env.excluded(place.path).Some?))
    ensures forall x :: x in MarksHere(env, place) ==> x.Repository? || x.Excluded?
  {
    hide IsBareRepository, Under;
  }

  lemma EntryCountsOnce(env: Env, place: Place, e: Event)
    requires IsCounter(e) && place.AtEntry? && !place.node.Directory?
    ensures multiset(MarksHere(env, place))[e] == multiset(MarksOfOther(env, Under(place.dir, place.name), place.node))[e]
  {
    hide MarksOfOther, Under;
    var first := if place.name == ".git" && place.node.Regular? then [Repository(place.dir)] else [];
    NoCounter(first, e);
    assert MarksHere(env, place) == first + MarksOfOther(env, Under(place.dir, place.name), place.node);
  }

  lemma CountsOnce(env: Env, place: Place, e: Event)
    requires IsCounter(e)
    ensures multiset(MarksHere(env, place))[e] == if Counts(env, place, e) then 1 else 0
  {
    hide MarksOfDirectory, MarksOfOther, Under;
    if !place.AtHooks? && (place.node.Directory? || (place.AtRoot? && env.excluded(place.path).Some?)) {
      PathsOnly(env, place);
      NoCounter(MarksHere(env, place), e);
    } else if place.AtRoot? {
      OtherCountsOnce(env, place.path, place.node, e);
    } else if place.AtEntry? {
      OtherCountsOnce(env, Under(place.dir, place.name), place.node, e);
      EntryCountsOnce(env, place, e);
    }
  }

  lemma {:induction false} MarksCount(env: Env, places: seq<Place>, e: Event)
    requires IsCounter(e)
    ensures multiset(MarksOf(env, places))[e] == |Counted(env, places, e)|
    decreases |places|
  {
    hide Counts, MarksHere, MarksOf, Counted, IsCounter;
    NothingMarks(env);
    NothingCounted(env, e);
    if places != [] {
      var n: nat := |places| - 1;
      var before, last := places[..n], places[n];
      MarksCount(env, before, e);
      MarksConcat(env, before, [last]);
      OneMarks(env, last);
      CountsOnce(env, last, e);
      assert places == before + [last];
      CountedAppend(env, before, last, e);
    }
  }

  lemma NothingCounted(env: Env, e: Event)
    ensures Counted(env, [], e) == {}
  {
  }

  lemma CountedAppend(env: Env, before: seq<Place>, last: Place, e: Event)
    ensures |Counted(env, before + [last], e)| == |Counted(env, before, e)| + if Counts(env, last, e) then 1 else 0
  {
    hide Counts;
    var n: nat, places := |before|, before + [last];
    forall i: nat | i < n ensures places[i] == before[i] {}
    assert Counted(env, places, e) == Counted(env, before, e) + if Counts(env, last, e) then {n} else {};
    assert n !in Counted(env, before, e);
  }

  /** Each counter ends at the number of places it counts. */
  lemma CountersAre(env: Env, path: string, n: Node, seen: set<Identity>, e: Event)
    requires IsCounter(e)
    ensures multiset(VisitRoot(env, path, n, seen).events)[e] == |Counted(env, PlacesOfRoot(env, path, n), e)|
  {
    hide VisitRoot, PlacesOfRoot, Marked, MarksOf, Counted;
    MarksAreOfPlaces(env, path, n, seen);
    MarkedKeeps(VisitRoot(env, path, n, seen).events, e);
    MarksCount(env, PlacesOfRoot(env, path, n), e);
  }

  // ----- the exclusions

  /** The objects of a repository, a bulk directory of the home, or a path that is excluded. */
  predicate IsExclusionAt(env: Env, place: Place, path: string) {
    match place
    case AtEntry(dir, name, n) =>
      && n.Directory?
      && if name == ".git" then path == dir + "/.git/objects"
         else if Skipped(env, dir, name) then
           if dir == env.home && name in BULK then path == dir + "/" + name else env.excluded(dir + "/" + name) == Some(path)
         else n.opening.Opens? && IsBareRepository(n) && path == dir + "/" + name + "/objects"
    case AtRoot(p, n) =>
      if env.excluded(p).Some? then env.excluded(p) == Some(path)
      else n.Directory? && n.opening.Opens? && IsBareRepository(n) && path == p + "/objects"
    case AtHooks(_, _) => false
  }

  /** A path is recorded as excluded exactly if some place the walk comes to makes it so. */
  lemma ExclusionsAre(env: Env, path: string, n: Node, seen: set<Identity>, x: string)
    ensures
      Excluded(x) in VisitRoot(env, path, n, seen).events <==> exists place :: place in PlacesOfRoot(env, path, n) && IsExclusionAt(env, place, x)
  {
    hide VisitRoot, PlacesOfRoot, Marked, MarksOf, IsBareRepository, IsExclusionAt, MarksHere;
    MarksAreOfPlaces(env, path, n, seen);
    MarkedHas(VisitRoot(env, path, n, seen).events, Excluded(x));
    MarksOfHas(env, PlacesOfRoot(env, path, n), Excluded(x));
    forall place ensures Excluded(x) in MarksHere(env, place) <==> IsExclusionAt(env, place, x) { ExclusionHere(env, place, x); }
  }

  lemma ExclusionHere(env: Env, place: Place, x: string)
    ensures Excluded(x) in MarksHere(env, place) <==> IsExclusionAt(env, place, x)
  {
    hide IsBareRepository;
    if place.AtEntry? {
      assert place.dir + "/" + ".git" + "/" + "objects" == place.dir + "/.git/objects";
      assert place.dir + "/" + place.name + "/" + "objects" == place.dir + "/" + place.name + "/objects";
    } else if place.AtRoot? {
      assert place.path + "/" + "objects" == place.path + "/objects";
    }
  }
}
