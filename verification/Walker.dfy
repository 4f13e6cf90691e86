/**
 The walk as the generator it is: a stack of open directories, resumed once per file.  Its run is the recursive
 walk of `Walks`, and every descriptor it opens is accounted for at every pause.
 */
module Walker {

  import opened Options
  import opened Sequences
  import opened WalkLeaks
  import opened Walks

  datatype Frame = Frame(path: string, fd: nat, dir: Node, names: seq<string>, index: nat)

  datatype OpenFile = OpenFile(path: string, fd: nat, id: Identity)

  ghost predicate Sound(stack: seq<Frame>) {
    forall i :: 0 <= i < |stack| ==> stack[i].dir.Directory? && stack[i].index <= |stack[i].names|
  }

  /** What the frames still have to do, the top one first. */
  ghost function RestOf(env: Env, stack: seq<Frame>, seen: set<Identity>): seq<Event>
    requires Sound(stack)
  {
    if stack == [] then []
    else
      var top := stack[|stack| - 1];
      var v := VisitFrame(env, top.path, top.dir, top.names[top.index..], seen);
      v.events + RestOf(env, stack[..|stack| - 1], v.seen)
  }

  ghost function FdSet(stack: seq<Frame>): set<nat> {
    set i | 0 <= i < |stack| :: stack[i].fd
  }

  ghost predicate DistinctFds(stack: seq<Frame>) {
    forall i, j :: 0 <= i < j < |stack| ==> stack[i].fd != stack[j].fd
  }

  lemma FdSetPush(stack: seq<Frame>, f: Frame)
    ensures FdSet(stack + [f]) == FdSet(stack) + {f.fd}
    ensures DistinctFds(stack + [f]) <==> DistinctFds(stack) && f.fd !in FdSet(stack)
  {
    var more := stack + [f];
    assert more[|stack|] == f;
    forall fd ensures fd in FdSet(more) <==> fd in FdSet(stack) + {f.fd} {
      if fd in FdSet(stack) {
        var i :| 0 <= i < |stack| && stack[i].fd == fd;
        assert more[i].fd == fd;
      }
    }
    if DistinctFds(more) {
      forall i, j | 0 <= i < j < |stack| ensures stack[i].fd != stack[j].fd { assert more[i] == stack[i] && more[j] == stack[j]; }
      forall i | 0 <= i < |stack| ensures stack[i].fd != f.fd { assert more[i] == stack[i]; }
    }
  }

  // ----- one turn of the loop, on the events

  lemma RestPush(env: Env, stack: seq<Frame>, f: Frame, seen: set<Identity>)
    requires Sound(stack) && f.dir.Directory? && f.index <= |f.names|
    ensures Sound(stack + [f])
    ensures
      var v := VisitFrame(env, f.path, f.dir, f.names[f.index..], seen);
      RestOf(env, stack + [f], seen) == v.events + RestOf(env, stack, v.seen)
  {
    assert (stack + [f])[..|stack|] == stack;
  }

  function Advanced(stack: seq<Frame>): seq<Frame>
    requires stack != []
  {
    stack[..|stack| - 1] + [stack[|stack| - 1].(index := stack[|stack| - 1].index + 1)]
  }

  lemma AdvancedFds(stack: seq<Frame>)
    requires stack != []
    ensures FdSet(Advanced(stack)) == FdSet(stack) && (DistinctFds(Advanced(stack)) <==> DistinctFds(stack))
  {
    hide FdSet, DistinctFds;
    var top := stack[|stack| - 1];
    assert stack == stack[..|stack| - 1] + [top];
    FdSetPush(stack[..|stack| - 1], top);
    FdSetPush(stack[..|stack| - 1], top.(index := top.index + 1));
  }

  lemma RestPop(env: Env, stack: seq<Frame>, seen: set<Identity>)
    requires Sound(stack) && stack != [] && stack[|stack| - 1].index == |stack[|stack| - 1].names|
    ensures RestOf(env, stack, seen) == [Left(stack[|stack| - 1].path)] + RestOf(env, stack[..|stack| - 1], seen)
  {
    var top := stack[|stack| - 1];
    assert top.names[top.index..] == [];
    assert VisitFrame(env, top.path, top.dir, [], seen).events == [] + [Left(top.path)];
  }

  lemma RestNext(env: Env, stack: seq<Frame>, seen: set<Identity>)
    requires Sound(stack) && stack != [] && stack[|stack| - 1].index < |stack[|stack| - 1].names|
    ensures Sound(Advanced(stack))
    ensures
      var top := stack[|stack| - 1];
      var v := VisitEntry(env, top.path, top.names[top.index], Lookup(top.dir, top.names[top.index]), top.dir, seen);
      RestOf(env, stack, seen) == v.events + RestOf(env, Advanced(stack), v.seen)
  {
    var top := stack[|stack| - 1];
    var name, names := top.names[top.index], top.names[top.index..];
    assert names[0] == name && names[1..] == top.names[top.index + 1..];
    var v := VisitEntry(env, top.path, name, Lookup(top.dir, name), top.dir, seen);
    var later := VisitNames(env, top.path, top.dir, names[1..], v.seen);
    RestPush(env, stack[..|stack| - 1], top.(index := top.index + 1), v.seen);
    assert VisitNames(env, top.path, top.dir, names, seen) == Prepend(v.events, later);
    assert VisitFrame(env, top.path, top.dir, names, seen).events == v.events + (later.events + [Left(top.path)]);
    Reassociate(v.events, later.events + [Left(top.path)], RestOf(env, stack[..|stack| - 1], later.seen));
  }

  ghost predicate LostApart(open: set<nat>, lost: set<nat>, opens: nat) {
    open !! lost && forall fd :: fd in lost ==> fd < opens
  }

  class DirectoryWalk {
    const env: Env
    var stack: seq<Frame>
    var seen: set<Identity>
    var trace: seq<Event>
    /** Descriptors are numbered in the order they are opened.  These are open and the walk can still close them. */
    var opens: nat
    ghost var open: set<nat>
    /** These are open as well, but no variable refers to them any more. */
    ghost var lost: set<nat>

    /** The walk can close exactly its frames' descriptors and these, and has lost one per Lost event. */
    ghost predicate Accounts(held: set<nat>)
      reads this
    {
      && open == FdSet(stack) + held && FdSet(stack) !! held && DistinctFds(stack)
      && (forall fd :: fd in open ==> fd < opens)
      && LostApart(open, lost, opens) && |lost| == LostIn(trace)
    }

    ghost predicate Valid()
      reads this
    {
      Sound(stack) && Accounts({})
    }

    constructor (env: Env, seen: set<Identity>)
      ensures Valid() && this.env == env && this.seen == seen && stack == [] && trace == [] && lost == {}
    {
      this.env, this.seen := env, seen;
      stack, trace, opens, open, lost := [], [], 0, {}, {};
    }

    method Say(events: seq<Event>, ghost held: set<nat>)
      requires Accounts(held) && forall e :: e in events ==> !e.Lost?
      modifies this`trace
      ensures trace == old(trace) + events && Accounts(held)
    {
      QuietLost(events);
      LostConcat(trace, events);
      trace := trace + events;
    }

    method OpenFd(ghost held: set<nat>) returns (fd: nat)
      requires Accounts(held)
      modifies this`opens, this`open
      ensures fd == old(opens) && opens == fd + 1 && open == old(open) + {fd} && fd !in held && fd !in FdSet(stack)
      ensures Accounts(held + {fd})
    {
      fd := opens;
      assert fd !in open;
      opens := opens + 1;
      open := open + {fd};
    }

    /** Closing takes a descriptor that is open, so none is closed twice. */
    method CloseFd(fd: nat, ghost held: set<nat>)
      requires Accounts(held) && fd in held
      modifies this`open
      ensures open == old(open) - {fd} && Accounts(held - {fd})
    {
      open := open - {fd};
    }

    /** Opens a directory; on any failure nothing stays open but a descriptor whose stat failed. */
    method FrameFor(path: string, d: Node, ghost held: set<nat>) returns (frame: Option<Frame>)
      requires d.Directory? && Accounts(held)
      modifies this`opens, this`open, this`lost, this`trace
      ensures trace == old(trace) + OpenEvents(path, d.opening)
      ensures frame.Some? <==> d.opening.Opens?
      ensures frame.Some? ==> frame.value.(fd := 0) == Frame(path, 0, d, SortedNames(d.entries), 0) && frame.value.fd !in held
      ensures Accounts(if frame.Some? then held + {frame.value.fd} else held)
    {
      hide LostIn, LostApart, FdSet, DistinctFds;
      frame := None;
      LostOnOpening(path, d.opening);
      LostConcat(trace, OpenEvents(path, d.opening));
      if d.opening.OpenFails? {
        trace := trace + OpenEvents(path, d.opening);
        return;
      }
      var fd := OpenFd(held);
      if d.opening.StatFails? {
        Forget(fd, path, held + {fd});
        assert held + {fd} - {fd} == held;
        return;
      }
      trace := trace + OpenEvents(path, d.opening);
      if d.opening.Opens? {
        frame := Some(Frame(path, fd, d, SortedNames(d.entries), 0));
      } else {
        CloseFd(fd, held + {fd});
        assert held + {fd} - {fd} == held;
      }
    }

    /** The stat of a descriptor just opened failed: nobody closes it. */
    method Forget(fd: nat, path: string, ghost held: set<nat>)
      requires Accounts(held) && fd in held
      modifies this`open, this`lost, this`trace
      ensures trace == old(trace) + OpenEvents(path, StatFails) && lost == old(lost) + {fd} && Accounts(held - {fd})
    {
      hide LostIn;
      LostOnOpening(path, StatFails);
      LostConcat(trace, OpenEvents(path, StatFails));
      trace := trace + [Lost(path), Raised(path, "open-directory")];
      open, lost := open - {fd}, lost + {fd};
    }

    method Push(frame: Frame)
      requires Sound(stack) && Accounts({frame.fd}) && frame.dir.Directory? && frame.index <= |frame.names|
      modifies this`stack
      ensures stack == old(stack) + [frame] && Valid()
    {
      FdSetPush(stack, frame);
      stack := stack + [frame];
    }

    /** The plan's events were said, and its directory, if any, is on top of the stack. */
    ghost predicate Followed(before: seq<Event>, frames: seq<Frame>, p: Plan)
      reads this
    {
      && trace == before + p.events
      && if p.below.None? then stack == frames
         else |stack| == |frames| + 1 && stack == frames + [Frame(p.path, stack[|frames|].fd, p.below.value, p.names, 0)]
    }

    /** An ordinary directory: gone through next, or only its hooks if it is a bare repository. */
    method Enter(path: string, d: Node)
      requires Valid() && d.Directory?
      modifies this`opens, this`open, this`lost, this`trace, this`stack
      ensures Followed(old(trace), old(stack), PlanDirectory(path, d)) && Valid()
    {
      hide LostIn, LostApart, FdSet, DistinctFds, SortedNames, IsBareRepository, NamesOf, Accounts;
      var frame := FrameFor(path, d, {});
      if frame.Some? {
        assert {} + {frame.value.fd} == {frame.value.fd};
        Say(BareEvents(path, d), {frame.value.fd});
        assert trace == old(trace) + ([Entered(path)] + BareEvents(path, d));
        Push(frame.value.(names := NamesOf(d)));
      }
    }

    /** A .git directory: only its hooks are gone through, and its own descriptor is closed at once. */
    method EnterGit(dir: string, git: Node)
      requires Valid() && git.Directory?
      modifies this`opens, this`open, this`lost, this`trace, this`stack
      ensures Followed(old(trace), old(stack), PlanGit(dir, git)) && Valid()
    {
      hide LostIn, LostApart, FdSet, DistinctFds, SortedNames, Find, OpenEvents, Under, Met, Sound, Accounts, PlanGit;
      var path := Under(dir, ".git");
      ghost var first := [Repository(dir), Excluded(Under(path, "objects"))];
      GitPlanned(dir, git);
      Say([Repository(dir), Excluded(Under(path, "objects"))], {});
      var gitFrame := FrameFor(path, git, {});
      assert trace == old(trace) + (first + OpenEvents(path, git.opening));
      if gitFrame.None? { return; }
      var fd := gitFrame.value.fd;
      assert {} + {fd} == {fd};
      EnterHooks(path, Lookup(git, "hooks"), fd);
    }

    /** The repository's descriptor is closed once its hooks were looked at. */
    method EnterHooks(path: string, hooks: Option<Node>, fd: nat)
      requires Sound(stack) && Accounts({fd})
      modifies this`opens, this`open, this`lost, this`trace, this`stack
      ensures trace == old(trace) + (Met(Under(path, "hooks"), hooks) + [Left(path)]) && Valid()
      ensures
        if hooks.Some? && hooks.value.Directory? && hooks.value.opening.Opens? then
          && |stack| == |old(stack)| + 1
          && stack == old(stack) + [Frame(Under(path, "hooks"), stack[|old(stack)|].fd, hooks.value, SortedNames(hooks.value.entries), 0)]
        else stack == old(stack)
    {
      hide LostIn, LostApart, FdSet, DistinctFds, SortedNames, OpenEvents, Under, Met, Accounts;
      var frame := MeetHooks(Under(path, "hooks"), hooks, fd);
      ghost var held := if frame.Some? then {frame.value.fd} else {};
      CloseFd(fd, held + {fd});
      assert held + {fd} - {fd} == held;
      Say([Left(path)], held);
      if frame.Some? { Push(frame.value); }
    }

    /** What stands where a repository's hooks would be. */
    method MeetHooks(path: string, hooks: Option<Node>, fd: nat) returns (frame: Option<Frame>)
      requires Accounts({fd})
      modifies this`opens, this`open, this`lost, this`trace
      ensures trace == old(trace) + Met(path, hooks)
      ensures frame.Some? <==> hooks.Some? && hooks.value.Directory? && hooks.value.opening.Opens?
      ensures frame.Some? ==> frame.value.(fd := 0) == Frame(path, 0, hooks.value, SortedNames(hooks.value.entries), 0) && frame.value.fd != fd
      ensures Accounts((if frame.Some? then {frame.value.fd} else {}) + {fd})
    {
      hide LostIn, LostApart, FdSet, DistinctFds, SortedNames, OpenEvents, Accounts;
      frame := None;
      if hooks.Some? && hooks.value.Directory? {
        frame := FrameFor(path, hooks.value, {fd});
        if frame.Some? { assert {frame.value.fd} + {fd} == {fd} + {frame.value.fd}; }
      } else {
        Say(Met(path, hooks), {fd});
      }
      assert {} + {fd} == {fd};
    }

    /** A regular file: opened and handed over if it is a candidate not seen before. */
    method Offer(path: string, n: Node) returns (file: Option<OpenFile>)
      requires n.Regular? && Valid()
      modifies this`opens, this`open, this`lost, this`trace, this`seen
      ensures var v := VisitFile(env, path, n, old(seen)); trace == old(trace) + v.events && seen == v.seen
      ensures Valid()
      ensures Given(file, VisitFile(env, path, n, old(seen)).events)
      ensures file.Some? ==> old(opens) <= file.value.fd < opens && file.value.fd !in open
      ensures seen == (if file.Some? then old(seen) + {file.value.id} else old(seen))
    {
      hide LostIn, LostApart, FdSet, DistinctFds, Yields, Sound, Given, Accounts;
      file := None;
      ghost var v := VisitFile(env, path, n, seen);
      VisitFileGives(env, path, n, seen);
      if !env.candidate(path) {
        Say([FileSeen, NonCodeSkipped], {});
        return;
      }
      var id := Identity(n.dev, n.ino, env.role(path));
      if id in seen {
        Say([FileSeen, DuplicateSkipped], {});
        return;
      }
      if n.opening.OpenFails? {
        Say([FileSeen, Raised(path, "open")], {});
        return;
      }
      file := OpenCandidate(path, n, id);
    }

    /** A candidate not seen before, which the open finds: kept, unless its stat fails or it is another file by now. */
    method OpenCandidate(path: string, n: Node, id: Identity) returns (file: Option<OpenFile>)
      requires n.Regular? && !n.opening.OpenFails? && env.candidate(path) && id == Identity(n.dev, n.ino, env.role(path))
      requires Valid() && id !in seen
      modifies this`opens, this`open, this`lost, this`trace, this`seen
      ensures Valid()
      ensures trace == old(trace) + VisitFile(env, path, n, old(seen)).events
      ensures file.Some? <==> n.opening.Opens? || n.opening.ListFails?
      ensures file.Some? ==> file.value.id == id && file.value.path == path
      ensures file.Some? ==> old(opens) <= file.value.fd < opens && file.value.fd !in open
      ensures seen == (if file.Some? then old(seen) + {id} else old(seen))
    {
      hide LostIn, LostApart, FdSet, DistinctFds, Yields, Sound, VisitFile, Accounts;
      VisitOpened(env, path, n, seen);
      file := None;
      var fd := OpenFd({});
      assert {} + {fd} == {fd} && {fd} - {fd} == {};
      if n.opening.StatFails? {
        ForgetFile(fd, path);
      } else if n.opening.Races? {
        CloseFd(fd, {fd});
        Say([FileSeen, Raised(path, "race-check")], {});
      } else {
        Say([FileSeen, Yielded(path, id)], {fd});
        HandOver(fd, id);
        file := Some(OpenFile(path, fd, id));
      }
    }

    /** From here on the consumer closes it. */
    method HandOver(fd: nat, id: Identity)
      requires Accounts({fd})
      modifies this`open, this`seen
      ensures open == old(open) - {fd} && seen == old(seen) + {id} && Accounts({})
    {
      hide LostIn, DistinctFds;
      seen := seen + {id};
      open := open - {fd};
      assert {fd} - {fd} == {};
    }

    method ForgetFile(fd: nat, path: string)
      requires Accounts({fd})
      modifies this`open, this`lost, this`trace
      ensures trace == old(trace) + [FileSeen, Lost(path), Raised(path, "open")] && lost == old(lost) + {fd} && Accounts({})
    {
      var events := [FileSeen, Lost(path), Raised(path, "open")];
      LostConcat(trace, events);
      OneLost(path);
      trace := trace + events;
      open, lost := open - {fd}, lost + {fd};
    }

    /** One name of a frame whose index has moved past it. */
    method MeetEntry(dir: string, name: string, n: Option<Node>, ghost parent: Node) returns (file: Option<OpenFile>)
      requires Valid() && (n.Some? ==> n.value < parent)
      modifies this`opens, this`open, this`lost, this`trace, this`stack, this`seen
      ensures Valid()
      ensures
        var v := VisitEntry(env, dir, name, n, parent, old(seen));
        trace + RestOf(env, stack, seen) == old(trace) + (v.events + RestOf(env, old(stack), v.seen))
      ensures |trace| > |old(trace)| && old(trace) <= trace && Given(file, trace[|old(trace)|..])
      ensures file.Some? ==> file.value.fd !in open && old(opens) <= file.value.fd < opens
      ensures seen == (if file.Some? then old(seen) + {file.value.id} else old(seen))
    {
      hide LostIn, LostApart, FdSet, DistinctFds, VisitPlan, PlanEntry, VisitFile, Given, RestOf, Yields, Accounts;
      file := None;
      ghost var was, frames, before := trace, stack, seen;
      if n.Some? && n.value.Directory? {
        ghost var p := PlanEntry(env, dir, name, n.value);
        MeetDirectory(dir, name, n.value);
        PlanRest(env, frames, stack, p, n.value, seen);
        PlanGives(env, dir, name, n.value);
        assert trace[|was|..] == p.events;
        Reassociate(was, p.events, RestOf(env, stack, seen));
        return;
      }
      ghost var v := VisitEntry(env, dir, name, n, parent, seen);
      if n.Some? && n.value.Regular? {
        file := MeetFile(dir, name, n.value);
      } else {
        Say(Passing(Under(dir, name), n), {});
        QuietGives(v.events);
      }
      assert trace[|was|..] == v.events;
      Reassociate(was, v.events, RestOf(env, stack, seen));
    }

    method MeetFile(dir: string, name: string, n: Node) returns (file: Option<OpenFile>)
      requires Valid() && n.Regular?
      modifies this`opens, this`open, this`lost, this`trace, this`seen
      ensures
        var v := Prepend(if name == ".git" then [Repository(dir)] else [], VisitFile(env, Under(dir, name), n, old(seen)));
        trace == old(trace) + v.events && seen == v.seen && v.events != [] && Given(file, v.events)
      ensures Valid()
      ensures file.Some? ==> file.value.fd !in open && old(opens) <= file.value.fd < opens
      ensures seen == (if file.Some? then old(seen) + {file.value.id} else old(seen))
    {
      hide LostIn, LostApart, FdSet, DistinctFds, Given, Sound, Accounts;
      ghost var was := trace;
      var path := Under(dir, name);
      ghost var v := VisitFile(env, path, n, seen);
      var found := if name == ".git" then [Repository(dir)] else [];
      Say(found, {});
      file := Offer(path, n);
      GivenAfter(found, v.events, file);
      assert trace == was + (found + v.events);
    }

    /** One turn of the loop: one name of the top frame, or the end of it. */
    method Turn() returns (file: Option<OpenFile>)
      requires Valid() && stack != []
      modifies this
      ensures Valid()
      ensures trace + RestOf(env, stack, seen) == old(trace) + old(RestOf(env, stack, seen))
      ensures |trace| > |old(trace)| && old(trace) <= trace && Given(file, trace[|old(trace)|..])
      ensures file.Some? ==> file.value.fd !in open && old(opens) <= file.value.fd < opens
      ensures seen == (if file.Some? then old(seen) + {file.value.id} else old(seen))
    {
      hide LostIn, LostApart, FdSet, DistinctFds, VisitFrame, VisitEntry, Find, Accounts;
      ghost var was := trace;
      var top := stack[|stack| - 1];
      if top.index >= |top.names| {
        RestPop(env, stack, seen);
        Pop();
        Reassociate(was, [Left(top.path)], RestOf(env, stack, seen));
        assert trace[|was|..] == [Left(top.path)];
        QuietGives([Left(top.path)]);
        return None;
      }
      var name := top.names[top.index];
      RestNext(env, stack, seen);
      Advance();
      file := MeetEntry(top.path, name, Lookup(top.dir, name), top.dir);
    }

    method Pop()
      requires Valid() && stack != []
      modifies this`open, this`stack, this`trace
      ensures stack == old(stack)[..|old(stack)| - 1] && trace == old(trace) + [Left(old(stack)[|old(stack)| - 1].path)] && Valid()
    {
      hide LostIn, LostApart, FdSet, DistinctFds, Accounts;
      var top := stack[|stack| - 1];
      Drop();
      Say([Left(top.path)], {});
    }

    /** The top frame's descriptor is closed. */
    method Drop()
      requires Valid() && stack != []
      modifies this`open, this`stack
      ensures stack == old(stack)[..|old(stack)| - 1] && Valid()
    {
      hide LostIn, LostApart, FdSet, DistinctFds;
      var top := stack[|stack| - 1];
      assert stack == stack[..|stack| - 1] + [top];
      FdSetPush(stack[..|stack| - 1], top);
      stack := stack[..|stack| - 1];
      CloseFd(top.fd, {top.fd});
      assert {top.fd} - {top.fd} == {};
    }

    method Advance()
      requires Valid() && stack != [] && stack[|stack| - 1].index < |stack[|stack| - 1].names|
      modifies this`stack
      ensures stack == Advanced(old(stack)) && Valid()
    {
      hide LostIn, LostApart, FdSet, DistinctFds;
      AdvancedFds(stack);
      var top := stack[|stack| - 1];
      stack := stack[..|stack| - 1] + [top.(index := top.index + 1)];
    }

    /** A directory met inside another one. */
    method MeetDirectory(dir: string, name: string, d: Node)
      requires Valid() && d.Directory?
      modifies this`opens, this`open, this`lost, this`trace, this`stack
      ensures Followed(old(trace), old(stack), PlanEntry(env, dir, name, d)) && Valid()
    {
      hide LostIn, LostApart, FdSet, DistinctFds, PlanGit, PlanDirectory, Accounts;
      var path := Under(dir, name);
      if name == ".git" {
        EnterGit(dir, d);
      } else if dir == env.home && name in BULK {
        Say([Excluded(path)], {});
      } else if env.excluded(path).Some? {
        Say([Excluded(env.excluded(path).value)], {});
      } else {
        Enter(path, d);
      }
    }

    /** next(): runs until a file is yielded or the walk is over. */
    method Next() returns (file: Option<OpenFile>)
      requires Valid()
      modifies this
      ensures Valid()
      ensures trace + RestOf(env, stack, seen) == old(trace) + old(RestOf(env, stack, seen))
      ensures file.None? ==> stack == []
      ensures old(trace) <= trace && Given(file, trace[|old(trace)|..])
      ensures file.Some? ==> file.value.fd !in open && file.value.fd < opens
      ensures seen == (if file.Some? then old(seen) + {file.value.id} else old(seen))
    {
      hide VisitFrame, LostIn, LostApart, FdSet, DistinctFds, Given, Yields, RestOf, Accounts;
      file := None;
      QuietGives([]);
      GivenYields(None, []);
      assert trace[|trace|..] == [];
      while stack != [] && file.None?
        invariant Valid()
        invariant trace + RestOf(env, stack, seen) == old(trace) + old(RestOf(env, stack, seen))
        invariant old(trace) <= trace && Given(file, trace[|old(trace)|..])
        invariant file.Some? ==> file.value.fd !in open && file.value.fd < opens
        invariant seen == (if file.Some? then old(seen) + {file.value.id} else old(seen))
        decreases |RestOf(env, stack, seen)|
      {
        ghost var before := trace;
        GivenYields(None, before[|old(trace)|..]);
        file := Turn();
        assert trace[|old(trace)|..] == before[|old(trace)|..] + trace[|before|..];
        GivenAfter(before[|old(trace)|..], trace[|before|..], file);
      }
    }

    /** The scan root: a file is yielded at once, a directory becomes the first frame. */
    method Begin(path: string, n: Node) returns (file: Option<OpenFile>)
      requires Valid() && stack == []
      modifies this
      ensures Valid()
      ensures trace + RestOf(env, stack, seen) == old(trace) + VisitRoot(env, path, n, old(seen)).events
      ensures old(trace) <= trace && Given(file, trace[|old(trace)|..])
      ensures file.Some? ==> file.value.fd !in open && file.value.fd < opens
      ensures seen == (if file.Some? then old(seen) + {file.value.id} else old(seen))
    {
      hide LostIn, LostApart, FdSet, DistinctFds, VisitFile, PlanDirectory, Yields, Given, VisitPlan, Accounts;
      ghost var was, before := trace, seen;
      file := None;
      ghost var v := VisitRoot(env, path, n, seen);
      if env.excluded(path).None? && n.Directory? {
        ghost var p := PlanDirectory(path, n);
        Enter(path, n);
        PlanRest(env, [], stack, p, n, seen);
        PlansYieldNothing(env, path, "", n);
        QuietGives(p.events);
        assert trace[|was|..] == p.events;
        Reassociate(was, p.events, RestOf(env, stack, seen));
        assert VisitPlan(env, p, n, seen).events + [] == v.events;
        return;
      }
      if env.excluded(path).None? && n.Regular? {
        file := Offer(path, n);
      } else {
        Say(if env.excluded(path).Some? then [Excluded(env.excluded(path).value)]
            else if n.Unreadable? then [Raised(path, "stat-root")]
            else if n.Link? then [SymlinkSkipped, Raised(path, "root-symlink")]
            else [SpecialSkipped], {});
        QuietGives(v.events);
      }
      assert trace[|was|..] == v.events;
      assert trace + [] == was + v.events;
    }

    /**
     A consumer that takes every file: what happened is the recursive walk, in its order; the files are its
     yields; and as many descriptors are left open as stops of the tree leak.
     */
    method WalkAll(path: string, n: Node) returns (files: seq<OpenFile>)
      requires Valid() && stack == []
      modifies this
      ensures trace == old(trace) + VisitRoot(env, path, n, old(seen)).events
      ensures IdsOf(files) == Yields(VisitRoot(env, path, n, old(seen)).events)
      ensures seen == VisitRoot(env, path, n, old(seen)).seen
      ensures stack == [] && open == {} && |lost| == |old(lost)| + |LeakSet(StopsOfRoot(env, path, n), old(seen))|
      ensures |lost| == |old(lost)| <==> forall i: nat :: i < |StopsOfRoot(env, path, n)| ==> !Leaks(StopsOfRoot(env, path, n), old(seen), i)
    {
      hide VisitRoot, LostIn, LostApart, Given, RestOf, FdSet, Yields, IdsOf, IdSet, Fresh, LeakSet, Leaks, StopsOfRoot;
      ghost var was, before := trace, seen;
      ghost var v := VisitRoot(env, path, n, seen);
      var file := Begin(path, n);
      files := if file.Some? then [file.value] else [];
      GivenYields(file, trace[|was|..]);
      IdsAppend([], file, before);
      assert [] + trace[|was|..] == trace[|was|..];
      var more := true;
      while more
        invariant Valid()
        invariant was <= trace && trace + RestOf(env, stack, seen) == was + v.events
        invariant IdsOf(files) == Yields(trace[|was|..])
        invariant seen == before + IdSet(IdsOf(files))
        invariant !more ==> stack == []
        decreases more, |RestOf(env, stack, seen)|
      {
        ghost var mid := trace;
        file := Next();
        YieldsConcat(mid[|was|..], trace[|mid|..]);
        assert trace[|was|..] == mid[|was|..] + trace[|mid|..];
        GivenYields(file, trace[|mid|..]);
        IdsAppend(files, file, before);
        if file.Some? {
          files := files + [file.value];
        } else {
          more := false;
        }
      }
      NothingLeft(env, seen);
      assert trace == was + v.events && trace[|was|..] == v.events;
      YieldedOnce(env, path, n, before);
      FreshSeen(v, before);
      WalkLoses(env, path, n, before, was);
    }

    /** The generator is closed early: every frame's descriptor is closed. */
    method Close()
      requires Valid()
      modifies this`open, this`stack
      ensures stack == [] && open == {} && trace == old(trace) && lost == old(lost)
    {
      hide LostIn, LostApart, FdSet, DistinctFds;
      while stack != []
        invariant Valid()
        decreases |stack|
      {
        Drop();
      }
      NothingLeft(env, seen);
    }
  }

  /** A file is returned exactly when the events end by yielding it, and nothing was yielded before it. */
  ghost predicate Given(file: Option<OpenFile>, events: seq<Event>) {
    && Yields(events) == (if file.Some? then [file.value.id] else [])
    && (file.Some? ==> events != [] && events[|events| - 1] == Yielded(file.value.path, file.value.id))
  }

  lemma GivenYields(file: Option<OpenFile>, events: seq<Event>)
    requires Given(file, events)
    ensures Yields(events) == (if file.Some? then [file.value.id] else []) && (file.Some? ==> events != [])
  {
  }

  function IdsOf(files: seq<OpenFile>): seq<Identity> {
    seq(|files|, i requires 0 <= i < |files| => files[i].id)
  }

  ghost function IdSet(ids: seq<Identity>): set<Identity> {
    set id | id in ids
  }

  lemma IdsAppend(files: seq<OpenFile>, file: Option<OpenFile>, before: set<Identity>)
    ensures
      if file.Some? then
        && IdsOf(files + [file.value]) == IdsOf(files) + [file.value.id] && IdsOf([file.value]) == [file.value.id]
        && before + IdSet(IdsOf(files + [file.value])) == before + IdSet(IdsOf(files)) + {file.value.id}
        && before + IdSet(IdsOf([file.value])) == before + {file.value.id}
      else IdsOf(files) + [] == IdsOf(files)
    ensures IdsOf([]) == [] && before + IdSet([]) == before
  {
    assert IdSet([]) == {};
    if file.Some? {
      assert IdsOf(files + [file.value]) == IdsOf(files) + [file.value.id];
      assert IdSet(IdsOf(files) + [file.value.id]) == IdSet(IdsOf(files)) + {file.value.id};
      assert IdsOf([file.value]) == [file.value.id] && IdSet([file.value.id]) == {file.value.id};
    }
  }

  lemma WalkLoses(env: Env, path: string, n: Node, seen: set<Identity>, was: seq<Event>)
    ensures
      var stops, lost := StopsOfRoot(env, path, n), LostIn(was + VisitRoot(env, path, n, seen).events);
      && lost == LostIn(was) + |LeakSet(stops, seen)|
      && (lost == LostIn(was) <==> forall i: nat :: i < |stops| ==> !Leaks(stops, seen, i))
  {
    hide VisitRoot, LostIn, LeakSet, Leaks, StopsOfRoot;
    LostConcat(was, VisitRoot(env, path, n, seen).events);
    LostExactly(env, path, n, seen);
  }

  lemma NothingLeft(env: Env, seen: set<Identity>)
    ensures RestOf(env, [], seen) == [] && FdSet([]) == {}
  {
  }

  lemma FreshSeen(v: Visit, before: set<Identity>)
    requires Fresh(v, before)
    ensures v.seen == before + IdSet(Yields(v.events))
  {
  }

  lemma GivenAfter(before: seq<Event>, events: seq<Event>, file: Option<OpenFile>)
    requires Yields(before) == [] && Given(file, events)
    ensures Given(file, before + events)
  {
    YieldsConcat(before, events);
  }

  /** What is said of the thing that stands where a repository's hooks would be. */
  function Met(path: string, hooks: Option<Node>): seq<Event> {
    match hooks
    case None => []
    case Some(Unreadable) => [Raised(path, "stat")]
    case Some(Link) => [SymlinkSkipped]
    case Some(Directory(opening, _)) => OpenEvents(path, opening)
    case Some(_) => [SpecialSkipped]
  }

  lemma GitPlanned(dir: string, git: Node)
    requires git.Directory?
    ensures
      var path, hooks, p := Under(dir, ".git"), Lookup(git, "hooks"), PlanGit(dir, git);
      var found := [Repository(dir), Excluded(Under(path, "objects"))] + OpenEvents(path, git.opening);
      && p.events == (if git.opening.Opens? then found + (Met(Under(path, "hooks"), hooks) + [Left(path)]) else found)
      && if git.opening.Opens? && hooks.Some? && hooks.value.Directory? && hooks.value.opening.Opens?
         then p.below == hooks && p.path == Under(path, "hooks") && p.names == SortedNames(hooks.value.entries)
         else p.below.None?
  {
    hide SortedNames, Find, OpenEvents, Under;
  }

  /** What is said of an entry that is neither a file nor a directory. */
  function Passing(path: string, n: Option<Node>): seq<Event> {
    match n
    case Some(Link) => [SymlinkSkipped]
    case Some(Special) => [SpecialSkipped]
    case _ => [Raised(path, "stat")]
  }

  lemma QuietGives(events: seq<Event>)
    requires forall e :: e in events ==> !e.Yielded?
    ensures Given(None, events)
  {
    Quiet(events);
  }

  lemma VisitFileGives(env: Env, path: string, n: Node, seen: set<Identity>)
    requires n.Regular?
    ensures
      var v := VisitFile(env, path, n, seen);
      if v.seen == seen then Given(None, v.events)
      else
        var id := Identity(n.dev, n.ino, env.role(path));
        v.seen == seen + {id} && forall fd :: Given(Some(OpenFile(path, fd, id)), v.events)
  {
    var v := VisitFile(env, path, n, seen);
    if v.seen == seen {
      QuietGives(v.events);
    } else {
      assert v.events == [FileSeen] + [v.events[1]];
      YieldsConcat([FileSeen], [v.events[1]]);
    }
  }

  lemma VisitOpened(env: Env, path: string, n: Node, seen: set<Identity>)
    requires n.Regular? && !n.opening.OpenFails? && env.candidate(path) && Identity(n.dev, n.ino, env.role(path)) !in seen
    ensures
      VisitFile(env, path, n, seen).events ==
      if n.opening.StatFails? then [FileSeen, Lost(path), Raised(path, "open")]
      else if n.opening.Races? then [FileSeen, Raised(path, "race-check")]
      else [FileSeen, Yielded(path, Identity(n.dev, n.ino, env.role(path)))]
  {
  }

  lemma PlanRest(env: Env, frames: seq<Frame>, stack: seq<Frame>, p: Plan, bound: Node, seen: set<Identity>)
    requires Sound(frames)
    requires p.below.Some? ==> p.below.value.Directory? && (p.below.value < bound || p.below.value == bound)
    requires if p.below.None? then stack == frames
             else |stack| == |frames| + 1 && stack == frames + [Frame(p.path, stack[|frames|].fd, p.below.value, p.names, 0)]
    ensures Sound(stack)
    ensures var v := VisitPlan(env, p, bound, seen); p.events + RestOf(env, stack, seen) == v.events + RestOf(env, frames, v.seen)
  {
    if p.below.Some? {
      var f := stack[|frames|];
      assert f.names[0..] == f.names;
      RestPush(env, frames, f, seen);
      var v := VisitFrame(env, p.path, p.below.value, p.names, seen);
      Reassociate(p.events, v.events, RestOf(env, frames, v.seen));
    }
  }

  lemma PlanGives(env: Env, dir: string, name: string, d: Node)
    requires d.Directory?
    ensures Given(None, PlanEntry(env, dir, name, d).events) && PlanEntry(env, dir, name, d).events != []
  {
    PlansYieldNothing(env, dir, name, d);
    Quiet(PlanEntry(env, dir, name, d).events);
  }
}
