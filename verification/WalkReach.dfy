/**
 Which files a walk remembers, said about the tree alone: a walk without an issue yields exactly the candidate
 files of the tree that no exclusion covers, and one with issues yields no others.
 */
module WalkReach {

  import opened Options
  import opened Walks

  // ----- the files of a tree

  /** The candidates below a directory; of a bare repository only those below its hooks. */
  ghost function Below(env: Env, path: string, d: Node, bare: bool): iset<Identity>
    requires d.Directory?
    decreases d, 0
  {
    iset name, id | Lookup(d, name).Some? && (bare ==> name == "hooks") && id in At(env, path, name, Lookup(d, name).value) :: id
  }

  /** The candidates an entry stands for; of a repository only those below its hooks. */
  ghost function At(env: Env, dir: string, name: string, n: Node): iset<Identity>
    decreases n, 1
  {
    var path := Under(dir, name);
    match n
    case Regular(dev, ino, _) => Candidate(env, path, dev, ino)
    case Directory(_, _) =>
      if name == ".git" then
        var hooks := Lookup(n, "hooks");
        if hooks.Some? && hooks.value.Directory? then Below(env, Under(path, "hooks"), hooks.value, false) else iset{}
      else if (dir == env.home && name in BULK) || env.excluded(path).Some? then iset{}
      else Below(env, path, n, IsBareRepository(n))
    case _ => iset{}
  }

  ghost function Candidate(env: Env, path: string, dev: nat, ino: nat): iset<Identity> {
    if env.candidate(path) then iset{Identity(dev, ino, env.role(path))} else iset{}
  }

  ghost function OfRoot(env: Env, path: string, n: Node): iset<Identity> {
    if env.excluded(path).Some? then iset{}
    else if n.Regular? then Candidate(env, path, n.dev, n.ino)
    else if n.Directory? then Below(env, path, n, IsBareRepository(n))
    else iset{}
  }

  /** The candidates among these names of a directory. */
  ghost function Among(env: Env, path: string, d: Node, names: seq<string>): iset<Identity>
    requires d.Directory?
  {
    iset name, id | name in names && Lookup(d, name).Some? && id in At(env, path, name, Lookup(d, name).value) :: id
  }

  // ----- what a visit remembers

  ghost predicate Unraised(events: seq<Event>) {
    forall e :: e in events ==> !e.Raised?
  }

  /** Nothing beyond the files is remembered, nothing is forgotten, and without an issue no file is missing. */
  ghost predicate Exact(v: Visit, seen: set<Identity>, files: iset<Identity>) {
    && (forall id :: id in seen ==> id in v.seen)
    && (forall id :: id in v.seen ==> id in seen || id in files)
    && (Unraised(v.events) ==> forall id :: id in files ==> id in v.seen)
  }

  lemma ExactThen(before: Visit, after: Visit, seen: set<Identity>, files: iset<Identity>, more: iset<Identity>)
    requires Exact(before, seen, files) && Exact(after, before.seen, more)
    ensures Exact(Visit(before.events + after.events, after.seen), seen, files + more)
  {
    var events := before.events + after.events;
    assert forall e :: e in before.events ==> e in events;
    assert forall e :: e in after.events ==> e in events;
  }

  lemma ExactAround(events: seq<Event>, v: Visit, after: seq<Event>, seen: set<Identity>, files: iset<Identity>)
    requires Exact(v, seen, files)
    ensures Exact(Visit(events + v.events + after, v.seen), seen, files)
  {
    assert forall e :: e in v.events ==> e in events + v.events + after;
  }

  // ----- names

  lemma {:induction false} InsertHas(name: string, names: seq<string>, x: string)
    ensures x in InsertName(name, names) <==> x == name || x in names
    decreases |names|
  {
    if !(names == [] || Before(name, names[0])) {
      InsertHas(name, names[1..], x);
      assert names == [names[0]] + names[1..];
    }
  }

  lemma {:induction false} FoundIsSorted(entries: seq<Entry>, name: string)
    requires Find(entries, name).Some?
    ensures name in SortedNames(entries)
    decreases |entries|
  {
    InsertHas(entries[0].name, SortedNames(entries[1..]), name);
    if entries[0].name != name { FoundIsSorted(entries[1..], name); }
  }

  lemma {:induction false} OnlyHas(names: seq<string>, name: string, x: string)
    ensures x in Only(names, name) <==> x == name && x in names
    decreases |names|
  {
    if names != [] {
      OnlyHas(names[1..], name, x);
      assert names == [names[0]] + names[1..];
    }
  }

  /** The names a frame goes through miss nothing that lies below its directory. */
  lemma FrameMissesNothing(env: Env, path: string, d: Node)
    requires d.Directory?
    ensures Among(env, path, d, NamesOf(d)) == Below(env, path, d, IsBareRepository(d))
    ensures Among(env, path, d, SortedNames(d.entries)) == Below(env, path, d, false)
  {
    hide At, IsBareRepository, Find, SortedNames, Only;
    forall name
      ensures Lookup(d, name).Some? ==> name in SortedNames(d.entries)
      ensures name in Only(SortedNames(d.entries), "hooks") <==> name == "hooks" && name in SortedNames(d.entries)
    {
      if Lookup(d, name).Some? { FoundIsSorted(d.entries, name); }
      OnlyHas(SortedNames(d.entries), "hooks", name);
    }
  }

  // ----- the visits

  lemma {:induction false} NamesExact(env: Env, path: string, d: Node, names: seq<string>, seen: set<Identity>)
    requires d.Directory?
    ensures Exact(VisitNames(env, path, d, names, seen), seen, Among(env, path, d, names))
    decreases d, 0, |names|
  {
    hide Exact, At, VisitEntry, Find;
    if names == [] {
      ExactNone([], seen);
      assert Among(env, path, d, names) == iset{};
    } else {
      var n := Lookup(d, names[0]);
      EntryExact(env, path, names[0], n, d, seen);
      var first := VisitEntry(env, path, names[0], n, d, seen);
      NamesExact(env, path, d, names[1..], first.seen);
      var files := if n.Some? then At(env, path, names[0], n.value) else iset{};
      ExactThen(first, VisitNames(env, path, d, names[1..], first.seen), seen, files, Among(env, path, d, names[1..]));
      assert Among(env, path, d, names) == files + Among(env, path, d, names[1..]);
    }
  }

  lemma ExactNone(events: seq<Event>, seen: set<Identity>)
    ensures Exact(Visit(events, seen), seen, iset{})
  {
  }

  lemma FileExact(env: Env, path: string, n: Node, seen: set<Identity>)
    requires n.Regular?
    ensures Exact(VisitFile(env, path, n, seen), seen, Candidate(env, path, n.dev, n.ino))
  {
    var v := VisitFile(env, path, n, seen);
    if v.events[|v.events| - 1].Raised? { assert v.events[|v.events| - 1] in v.events; }
  }

  lemma {:induction false} EntryExact(env: Env, dir: string, name: string, n: Option<Node>, parent: Node, seen: set<Identity>)
    requires n.Some? ==> n.value < parent
    ensures Exact(VisitEntry(env, dir, name, n, parent, seen), seen, if n.Some? then At(env, dir, name, n.value) else iset{})
    decreases parent, 0, 0
  {
    hide Exact, VisitFile, PlanEntry, VisitPlan, Below;
    var path := Under(dir, name);
    if n.Some? && n.value.Regular? {
      FileExact(env, path, n.value, seen);
      var events := if name == ".git" then [Repository(dir)] else [];
      var v := VisitFile(env, path, n.value, seen);
      ExactAround(events, v, [], seen, Candidate(env, path, n.value.dev, n.value.ino));
      assert events + v.events + [] == events + v.events;
    } else if n.Some? && n.value.Directory? {
      PlanEntryFits(env, dir, name, n.value);
      PlanExact(env, PlanEntry(env, dir, name, n.value), n.value, seen, At(env, dir, name, n.value));
    } else {
      ExactNone(VisitEntry(env, dir, name, n, parent, seen).events, seen);
    }
  }

  /** A plan goes through the files, or says why it cannot. */
  ghost predicate Fits(env: Env, p: Plan, files: iset<Identity>) {
    if p.below.Some? then p.below.value.Directory? && files == Among(env, p.path, p.below.value, p.names)
    else files == iset{} || !Unraised(p.events)
  }

  lemma PlanDirectoryFits(env: Env, path: string, d: Node)
    requires d.Directory?
    ensures Fits(env, PlanDirectory(path, d), Below(env, path, d, IsBareRepository(d)))
  {
    hide Below, Among, IsBareRepository, NamesOf;
    FrameMissesNothing(env, path, d);
    var events := OpenEvents(path, d.opening);
    if !d.opening.Opens? { assert events[|events| - 1] in events; }
  }

  lemma PlanGitFits(env: Env, dir: string, git: Node)
    requires git.Directory?
    ensures Fits(env, PlanGit(dir, git), At(env, dir, ".git", git))
  {
    hide Below, Among, IsBareRepository, SortedNames, Find;
    var path := Under(dir, ".git");
    var p := PlanGit(dir, git);
    var found := [Repository(dir), Excluded(Under(path, "objects"))];
    var events := OpenEvents(path, git.opening);
    if !git.opening.Opens? {
      assert events[|events| - 1] in found + events;
    } else {
      var hooks := Lookup(git, "hooks");
      if hooks.Some? && hooks.value.Directory? {
        FrameMissesNothing(env, Under(path, "hooks"), hooks.value);
        var inner := OpenEvents(Under(path, "hooks"), hooks.value.opening);
        if !hooks.value.opening.Opens? { assert inner[|inner| - 1] in found + events + inner + [Left(path)]; }
      }
    }
  }

  lemma PlanEntryFits(env: Env, dir: string, name: string, d: Node)
    requires d.Directory?
    ensures Fits(env, PlanEntry(env, dir, name, d), At(env, dir, name, d))
  {
    hide PlanGit, PlanDirectory, Below, Among, IsBareRepository, Find;
    PlanGitFits(env, dir, d);
    PlanDirectoryFits(env, Under(dir, name), d);
  }

  lemma {:induction false} PlanExact(env: Env, p: Plan, bound: Node, seen: set<Identity>, files: iset<Identity>)
    requires p.below.Some? ==> p.below.value.Directory? && (p.below.value < bound || p.below.value == bound)
    requires Fits(env, p, files)
    ensures Exact(VisitPlan(env, p, bound, seen), seen, files)
    decreases bound, 2
  {
    hide Among, VisitNames;
    if p.below.Some? {
      NamesExact(env, p.path, p.below.value, p.names, seen);
      var v := VisitNames(env, p.path, p.below.value, p.names, seen);
      ExactAround(p.events, v, [Left(p.path)], seen, files);
      assert p.events + (v.events + [Left(p.path)]) == p.events + v.events + [Left(p.path)];
    }
  }

  /**
   Whatever order and depth the walk takes: with no issue raised it yields exactly the candidate files of the tree
   that are reached through no exclusion and were not remembered before; with issues, no others.
   */
  lemma WalkIsExact(env: Env, path: string, n: Node, seen: set<Identity>)
    ensures
      var v, files := VisitRoot(env, path, n, seen), OfRoot(env, path, n);
      && (forall id :: id in Yields(v.events) ==> id in files && id !in seen)
      && (Unraised(v.events) ==> forall id :: id in Yields(v.events) <==> id in files && id !in seen)
  {
    hide VisitRoot, OfRoot, Yields;
    RootExact(env, path, n, seen);
    YieldedOnce(env, path, n, seen);
  }

  lemma RootExact(env: Env, path: string, n: Node, seen: set<Identity>)
    ensures Exact(VisitRoot(env, path, n, seen), seen, OfRoot(env, path, n))
  {
    hide VisitFile, PlanDirectory, VisitPlan, Below, IsBareRepository;
    if env.excluded(path).None? && n.Regular? {
      FileExact(env, path, n, seen);
    } else if env.excluded(path).None? && n.Directory? {
      PlanDirectoryFits(env, path, n);
      PlanExact(env, PlanDirectory(path, n), n, seen, Below(env, path, n, IsBareRepository(n)));
    } else {
      ExactNone(VisitRoot(env, path, n, seen).events, seen);
    }
  }
}
