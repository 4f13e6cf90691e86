/**
 The directory walk as a function of a finite tree: what a recursive descent, in sorted order, sees and yields.
 `Walker` does it with an explicit stack of open directories.
 */
module Walks {

  import opened Options

  /** How opening an entry that was just looked at turns out. */
  datatype Opening = Opens | OpenFails | StatFails | Races | ListFails

  datatype Node =
    | Unreadable
    | Link
    | Special
    | Regular(dev: nat, ino: nat, opening: Opening)
    | Directory(opening: Opening, entries: seq<Entry>)

  datatype Entry = Entry(name: string, node: Node)

  /** What a file is deduplicated by: device, inode and role. */
  datatype Identity = Identity(dev: nat, ino: nat, role: string)

  /** Which files are candidates, in which role; which paths are excluded; which directory is the home. */
  datatype Env = Env(candidate: string -> bool, role: string -> string, excluded: string -> Option<string>, home: string)

  datatype Event =
    | Yielded(path: string, id: Identity)
    | Raised(path: string, operation: string)
    | Repository(path: string)
    | Excluded(path: string)
    | SymlinkSkipped
    | SpecialSkipped
    | FileSeen
    | NonCodeSkipped
    | DuplicateSkipped
    | Entered(path: string)
    | Left(path: string)
    | Lost(path: string)

  datatype Visit = Visit(events: seq<Event>, seen: set<Identity>)

  const BULK: set<string> := {"Library", "Movies", "Music", "Pictures", ".Trash"}

  function Under(dir: string, name: string): string { dir + "/" + name }

  function Lookup(d: Node, name: string): (r: Option<Node>)
    requires d.Directory?
    ensures r.Some? ==> r.value < d
  {
    Find(d.entries, name)
  }

  function Find(entries: seq<Entry>, name: string): (r: Option<Node>)
    ensures r.Some? ==> exists i :: 0 <= i < |entries| && entries[i].node == r.value
  {
    if entries == [] then None
    else if entries[0].name == name then Some(entries[0].node)
    else
      var r := Find(entries[1..], name);
      assert r.Some? ==> forall i :: 0 <= i < |entries[1..]| ==> entries[1..][i] == entries[i + 1];
      r
  }

  // ----- names in byte order

  predicate Before(s: string, t: string) {
    if t == [] then false else if s == [] then true else s[0] < t[0] || (s[0] == t[0] && Before(s[1..], t[1..]))
  }

  function InsertName(name: string, names: seq<string>): seq<string> {
    if names == [] || Before(name, names[0]) then [name] + names else [names[0]] + InsertName(name, names[1..])
  }

  function SortedNames(entries: seq<Entry>): seq<string> {
    if entries == [] then [] else InsertName(entries[0].name, SortedNames(entries[1..]))
  }

  // ----- bare repositories

  predicate IsFile(n: Option<Node>) { n.Some? && n.value.Regular? }

  predicate IsDirectory(n: Option<Node>) { n.Some? && n.value.Directory? }

  predicate IsBareRepository(d: Node)
    requires d.Directory?
  {
    && IsFile(Lookup(d, "HEAD")) && IsDirectory(Lookup(d, "objects"))
    && exists name :: name in ["config", "refs", "packed-refs"] && (IsFile(Lookup(d, name)) || IsDirectory(Lookup(d, name)))
  }

  /** The names a directory's frame goes through: all of them sorted, or only the hooks of a bare repository. */
  function NamesOf(d: Node): seq<string>
    requires d.Directory?
  {
    var names := SortedNames(d.entries);
    if IsBareRepository(d) then Only(names, "hooks") else names
  }

  function Only(names: seq<string>, name: string): seq<string> {
    if names == [] then [] else (if names[0] == name then [name] else []) + Only(names[1..], name)
  }

  function BareEvents(path: string, d: Node): seq<Event>
    requires d.Directory?
  {
    if IsBareRepository(d) then [Repository(path), Excluded(Under(path, "objects"))] else []
  }

  // ----- opening

  function OpenEvents(path: string, opening: Opening): seq<Event> {
    match opening
    case Opens => [Entered(path)]
    case OpenFails => [Raised(path, "open-directory")]
    case StatFails => [Lost(path), Raised(path, "open-directory")]
    case Races => [Raised(path, "race-check")]
    case ListFails => [Raised(path, "list-directory")]
  }

  // ----- the recursive walk

  function VisitFile(env: Env, path: string, n: Node, seen: set<Identity>): Visit
    requires n.Regular?
  {
    if !env.candidate(path) then Visit([FileSeen, NonCodeSkipped], seen)
    else
      var id := Identity(n.dev, n.ino, env.role(path));
      if id in seen then Visit([FileSeen, DuplicateSkipped], seen)
      else
        match n.opening
        case Opens => Visit([FileSeen, Yielded(path, id)], seen + {id})
        case ListFails => Visit([FileSeen, Yielded(path, id)], seen + {id})
        case OpenFails => Visit([FileSeen, Raised(path, "open")], seen)
        case StatFails => Visit([FileSeen, Lost(path), Raised(path, "open")], seen)
        case Races => Visit([FileSeen, Raised(path, "race-check")], seen)
  }

  function Prepend(events: seq<Event>, v: Visit): Visit {
    Visit(events + v.events, v.seen)
  }

  function Append(v: Visit, events: seq<Event>): Visit {
    Visit(v.events + events, v.seen)
  }

  /** A directory's frame: its names in order, then its descriptor is closed. */
  function VisitFrame(env: Env, path: string, d: Node, names: seq<string>, seen: set<Identity>): Visit
    requires d.Directory?
    decreases d, 1
  {
    Append(VisitNames(env, path, d, names, seen), [Left(path)])
  }

  function VisitNames(env: Env, path: string, d: Node, names: seq<string>, seen: set<Identity>): Visit
    requires d.Directory?
    decreases d, 0, |names|
  {
    if names == [] then Visit([], seen)
    else
      var first := VisitEntry(env, path, names[0], Lookup(d, names[0]), d, seen);
      Prepend(first.events, VisitNames(env, path, d, names[1..], first.seen))
  }

  /** What meeting a directory leads to: events, and perhaps a directory to go through with these names. */
  datatype Plan = Plan(events: seq<Event>, path: string, below: Option<Node>, names: seq<string>)

  function NoPlan(events: seq<Event>): Plan { Plan(events, "", None, []) }

  function PlanDirectory(path: string, d: Node): (p: Plan)
    requires d.Directory?
    ensures p.below.Some? ==> p.below.value == d
  {
    if d.opening.Opens? then Plan([Entered(path)] + BareEvents(path, d), path, Some(d), NamesOf(d))
    else NoPlan(OpenEvents(path, d.opening))
  }

  /** The hooks of a work tree's repository are gone through; its other contents are not. */
  function PlanGit(dir: string, git: Node): (p: Plan)
    requires git.Directory?
    ensures p.below.Some? ==> p.below.value < git && p.below.value.Directory?
  {
    var path := Under(dir, ".git");
    var hooks := Under(path, "hooks");
    var found := [Repository(dir), Excluded(Under(path, "objects"))] + OpenEvents(path, git.opening);
    if !git.opening.Opens? then NoPlan(found)
    else
      match Lookup(git, "hooks")
      case None => NoPlan(found + [Left(path)])
      case Some(Unreadable) => NoPlan(found + [Raised(hooks, "stat"), Left(path)])
      case Some(Link) => NoPlan(found + [SymlinkSkipped, Left(path)])
      case Some(Special) => NoPlan(found + [SpecialSkipped, Left(path)])
      case Some(Regular(_, _, _)) => NoPlan(found + [SpecialSkipped, Left(path)])
      case Some(Directory(opening, entries)) =>
        var events := found + OpenEvents(hooks, opening) + [Left(path)];
        if opening.Opens? then Plan(events, hooks, Lookup(git, "hooks"), SortedNames(entries)) else NoPlan(events)
  }

  function PlanEntry(env: Env, dir: string, name: string, d: Node): (p: Plan)
    requires d.Directory?
    ensures p.below.Some? ==> p.below.value.Directory? && (p.below.value < d || p.below.value == d)
  {
    var path := Under(dir, name);
    if name == ".git" then PlanGit(dir, d)
    else if dir == env.home && name in BULK then NoPlan([Excluded(path)])
    else if env.excluded(path).Some? then NoPlan([Excluded(env.excluded(path).value)])
    else PlanDirectory(path, d)
  }

  function VisitPlan(env: Env, p: Plan, ghost bound: Node, seen: set<Identity>): Visit
    requires p.below.Some? ==> p.below.value.Directory? && (p.below.value < bound || p.below.value == bound)
    decreases bound, 2
  {
    if p.below.None? then Visit(p.events, seen) else Prepend(p.events, VisitFrame(env, p.path, p.below.value, p.names, seen))
  }

  function VisitEntry(env: Env, dir: string, name: string, n: Option<Node>, ghost parent: Node, seen: set<Identity>): Visit
    requires n.Some? ==> n.value < parent
    decreases parent, 0, 0
  {
    var path := Under(dir, name);
    match n
    case None => Visit([Raised(path, "stat")], seen)
    case Some(Unreadable) => Visit([Raised(path, "stat")], seen)
    case Some(Link) => Visit([SymlinkSkipped], seen)
    case Some(Special) => Visit([SpecialSkipped], seen)
    case Some(Regular(_, _, _)) => Prepend(if name == ".git" then [Repository(dir)] else [], VisitFile(env, path, n.value, seen))
    case Some(Directory(_, _)) => VisitPlan(env, PlanEntry(env, dir, name, n.value), n.value, seen)
  }

  /** A scan root, which may also be a single file. */
  function VisitRoot(env: Env, path: string, n: Node, seen: set<Identity>): Visit {
    if env.excluded(path).Some? then Visit([Excluded(env.excluded(path).value)], seen)
    else
      match n
      case Unreadable => Visit([Raised(path, "stat-root")], seen)
      case Link => Visit([SymlinkSkipped, Raised(path, "root-symlink")], seen)
      case Special => Visit([SpecialSkipped], seen)
      case Regular(_, _, _) => VisitFile(env, path, n, seen)
      case Directory(_, _) => VisitPlan(env, PlanDirectory(path, n), n, seen)
  }

  // ----- names are visited in byte order, each once

  lemma {:induction false} BeforeIsTransitive(r: string, s: string, t: string)
    requires Before(r, s) && Before(s, t)
    ensures Before(r, t)
    decreases |r|
  {
    if r != [] && s != [] && t != [] && r[0] == s[0] == t[0] { BeforeIsTransitive(r[1..], s[1..], t[1..]); }
  }

  lemma {:induction false} BeforeIsTotal(s: string, t: string)
    ensures s == t || Before(s, t) || Before(t, s)
    decreases |s|
  {
    if s != [] && t != [] && s[0] == t[0] {
      BeforeIsTotal(s[1..], t[1..]);
      assert s == [s[0]] + s[1..] && t == [t[0]] + t[1..];
    }
  }

  ghost predicate InOrder(names: seq<string>) {
    forall i, j :: 0 <= i < j < |names| ==> Before(names[i], names[j])
  }

  lemma {:induction false} InsertKeepsOrder(name: string, names: seq<string>)
    requires InOrder(names) && name !in names
    ensures InOrder(InsertName(name, names)) && multiset(InsertName(name, names)) == multiset(names) + multiset{name}
    decreases |names|
  {
    var r := InsertName(name, names);
    if names == [] || Before(name, names[0]) {
      forall i, j | 0 <= i < j < |r| ensures Before(r[i], r[j]) {
        if i == 0 && j > 1 { BeforeIsTransitive(name, names[0], names[j - 1]); }
      }
    } else {
      BeforeIsTotal(name, names[0]);
      var rest := names[1..];
      assert names == [names[0]] + rest;
      InsertKeepsOrder(name, rest);
      forall i, j | 0 <= i < j < |r| ensures Before(r[i], r[j]) {
        if i == 0 {
          assert r[j] in multiset(InsertName(name, rest));
          assert r[j] == name || r[j] in multiset(rest);
          if r[j] != name {
            var k :| 0 <= k < |rest| && rest[k] == r[j];
            assert names[k + 1] == r[j];
          }
        }
      }
    }
  }

  ghost predicate DistinctNames(entries: seq<Entry>) {
    forall i, j :: 0 <= i < j < |entries| ==> entries[i].name != entries[j].name
  }

  /** A frame goes through every entry of its directory once, in byte order. */
  lemma {:induction false} SortedNamesInOrder(entries: seq<Entry>)
    requires DistinctNames(entries)
    ensures InOrder(SortedNames(entries))
    ensures |SortedNames(entries)| == |entries|
    ensures forall name :: name in SortedNames(entries) <==> exists i :: 0 <= i < |entries| && entries[i].name == name
    decreases |entries|
  {
    if entries != [] {
      var rest := entries[1..];
      assert forall i :: 0 <= i < |rest| ==> rest[i] == entries[i + 1];
      SortedNamesInOrder(rest);
      var before, after := SortedNames(rest), SortedNames(entries);
      InsertKeepsOrder(entries[0].name, before);
      assert |multiset(after)| == |multiset(before)| + 1;
      forall name ensures name in after <==> exists i :: 0 <= i < |entries| && entries[i].name == name {
        assert name in after <==> name in multiset(after);
        if name in before {
          var i :| 0 <= i < |rest| && rest[i].name == name;
          assert entries[i + 1].name == name;
        }
        if i :| 0 <= i < |entries| && entries[i].name == name {
          if i > 0 { assert rest[i - 1].name == name; } else { assert entries[0].name == name; }
          assert name in before || name == entries[0].name;
        }
      }
    }
  }

  // ----- each identity is yielded at most once

  function Yields(events: seq<Event>): seq<Identity> {
    if events == [] then [] else (if events[0].Yielded? then [events[0].id] else []) + Yields(events[1..])
  }

  lemma {:induction false} YieldsConcat(a: seq<Event>, b: seq<Event>)
    ensures Yields(a + b) == Yields(a) + Yields(b)
    decreases |a|
  {
    if a == [] {
      assert a + b == b;
    } else {
      assert (a + b)[0] == a[0] && (a + b)[1..] == a[1..] + b;
      YieldsConcat(a[1..], b);
    }
  }

  ghost predicate Once(ids: seq<Identity>) {
    forall i, j :: 0 <= i < j < |ids| ==> ids[i] != ids[j]
  }

  /** What was yielded is new, pairwise different, and remembered. */
  ghost predicate Fresh(v: Visit, seen: set<Identity>) {
    && Once(Yields(v.events))
    && (forall id :: id in Yields(v.events) ==> id !in seen)
    && v.seen == seen + set id | id in Yields(v.events)
  }

  lemma Quiet(events: seq<Event>)
    requires forall i :: 0 <= i < |events| ==> !events[i].Yielded?
    ensures Yields(events) == []
  {
  }

  lemma QuietFresh(events: seq<Event>, seen: set<Identity>)
    requires forall i :: 0 <= i < |events| ==> !events[i].Yielded?
    ensures Fresh(Visit(events, seen), seen)
  {
    Quiet(events);
  }

  lemma FreshThen(before: Visit, after: Visit, seen: set<Identity>)
    requires Fresh(before, seen) && Fresh(after, before.seen)
    ensures Fresh(Visit(before.events + after.events, after.seen), seen)
  {
    YieldsConcat(before.events, after.events);
    var a, b := Yields(before.events), Yields(after.events);
    forall i, j | 0 <= i < j < |a + b| ensures (a + b)[i] != (a + b)[j] {
      if i < |a| <= j {
        assert a[i] in before.seen && b[j - |a|] !in before.seen;
      }
    }
  }

  lemma FreshPrepend(events: seq<Event>, v: Visit, seen: set<Identity>)
    requires Fresh(v, seen) && forall i :: 0 <= i < |events| ==> !events[i].Yielded?
    ensures Fresh(Prepend(events, v), seen)
  {
    Quiet(events);
    YieldsConcat(events, v.events);
    assert [] + Yields(v.events) == Yields(v.events);
  }

  lemma FreshAppend(v: Visit, events: seq<Event>, seen: set<Identity>)
    requires Fresh(v, seen) && forall i :: 0 <= i < |events| ==> !events[i].Yielded?
    ensures Fresh(Append(v, events), seen)
  {
    Quiet(events);
    YieldsConcat(v.events, events);
    assert Yields(v.events) + [] == Yields(v.events);
  }

  lemma FileFresh(env: Env, path: string, n: Node, seen: set<Identity>)
    requires n.Regular?
    ensures Fresh(VisitFile(env, path, n, seen), seen)
  {
    var v := VisitFile(env, path, n, seen);
    if v.seen == seen {
      Quiet(v.events);
    } else {
      assert v.events == [FileSeen] + [v.events[1]];
      YieldsConcat([FileSeen], [v.events[1]]);
    }
  }

  lemma {:induction false} NamesFresh(env: Env, path: string, d: Node, names: seq<string>, seen: set<Identity>)
    requires d.Directory?
    ensures Fresh(VisitNames(env, path, d, names, seen), seen)
    decreases d, 0, |names|
  {
    if names != [] {
      EntryFresh(env, path, names[0], Lookup(d, names[0]), d, seen);
      var first := VisitEntry(env, path, names[0], Lookup(d, names[0]), d, seen);
      NamesFresh(env, path, d, names[1..], first.seen);
      FreshThen(first, VisitNames(env, path, d, names[1..], first.seen), seen);
    }
  }

  lemma {:induction false} FrameFresh(env: Env, path: string, d: Node, names: seq<string>, seen: set<Identity>)
    requires d.Directory?
    ensures Fresh(VisitFrame(env, path, d, names, seen), seen)
    decreases d, 1
  {
    NamesFresh(env, path, d, names, seen);
    FreshAppend(VisitNames(env, path, d, names, seen), [Left(path)], seen);
  }

  lemma {:induction false} EntryFresh(env: Env, dir: string, name: string, n: Option<Node>, parent: Node, seen: set<Identity>)
    requires n.Some? ==> n.value < parent
    ensures Fresh(VisitEntry(env, dir, name, n, parent, seen), seen)
    decreases parent, 0, 0
  {
    hide Fresh, VisitFile, PlanEntry, VisitPlan;
    var path := Under(dir, name);
    if n.Some? && n.value.Regular? {
      FileFresh(env, path, n.value, seen);
      FreshPrepend(if name == ".git" then [Repository(dir)] else [], VisitFile(env, path, n.value, seen), seen);
    } else if n.Some? && n.value.Directory? {
      PlansYieldNothing(env, dir, name, n.value);
      PlanFresh(env, PlanEntry(env, dir, name, n.value), n.value, seen);
    } else {
      QuietFresh(VisitEntry(env, dir, name, n, parent, seen).events, seen);
    }
  }

  lemma OpeningYieldsNothing(path: string, opening: Opening)
    ensures forall e :: e in OpenEvents(path, opening) ==> !e.Yielded?
  {
  }

  lemma GitYieldsNothing(dir: string, git: Node)
    requires git.Directory?
    ensures forall e :: e in PlanGit(dir, git).events ==> !e.Yielded?
  {
    hide SortedNames, Find, OpenEvents, Under;
    var path := Under(dir, ".git");
    OpeningYieldsNothing(path, git.opening);
    var hooks := Lookup(git, "hooks");
    if hooks.Some? && hooks.value.Directory? { OpeningYieldsNothing(Under(path, "hooks"), hooks.value.opening); }
  }

  lemma PlansYieldNothing(env: Env, dir: string, name: string, d: Node)
    requires d.Directory?
    ensures forall e :: e in PlanEntry(env, dir, name, d).events ==> !e.Yielded?
    ensures forall e :: e in PlanDirectory(dir, d).events ==> !e.Yielded?
  {
    hide SortedNames, IsBareRepository, Find, PlanGit, OpenEvents;
    GitYieldsNothing(dir, d);
    OpeningYieldsNothing(dir, d.opening);
    OpeningYieldsNothing(Under(dir, name), d.opening);
  }

  lemma {:induction false} PlanFresh(env: Env, p: Plan, bound: Node, seen: set<Identity>)
    requires p.below.Some? ==> p.below.value.Directory? && (p.below.value < bound || p.below.value == bound)
    requires forall e :: e in p.events ==> !e.Yielded?
    ensures Fresh(VisitPlan(env, p, bound, seen), seen)
    decreases bound, 2
  {
    hide Fresh, VisitFrame;
    if p.below.None? {
      QuietFresh(p.events, seen);
    } else {
      FrameFresh(env, p.path, p.below.value, p.names, seen);
      FreshPrepend(p.events, VisitFrame(env, p.path, p.below.value, p.names, seen), seen);
    }
  }

  /** Over a whole root, and over roots visited one after the other: each device, inode and role at most once. */
  lemma YieldedOnce(env: Env, path: string, n: Node, seen: set<Identity>)
    ensures Fresh(VisitRoot(env, path, n, seen), seen)
  {
    hide Fresh, VisitFile, PlanDirectory, VisitPlan;
    if env.excluded(path).None? && n.Regular? {
      FileFresh(env, path, n, seen);
    } else if env.excluded(path).None? && n.Directory? {
      PlansYieldNothing(env, path, "", n);
      PlanFresh(env, PlanDirectory(path, n), n, seen);
    } else {
      QuietFresh(VisitRoot(env, path, n, seen).events, seen);
    }
  }
}
