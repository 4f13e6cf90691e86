/** How far one archive may expand by itself, whatever its headers say, at every nesting level. */
module ArchiveExpansion {

  import opened ArchiveCompleteness
  import opened ArchiveTheorems
  import opened Archives
  import opened Options
  import opened Sequences

  predicate IsOwn(e: Event, at: Route) { e.Analysed? && |e.at| == |at| + 1 }

  /** The bytes analysed directly in the archive at a route, not in archives inside it. */
  function OwnBytes(events: seq<Event>, at: Route): nat {
    if events == [] then 0 else (if IsOwn(events[0], at) then |events[0].data| else 0) + OwnBytes(events[1..], at)
  }

  lemma {:induction false} OwnConcat(a: seq<Event>, b: seq<Event>, at: Route)
    ensures OwnBytes(a + b, at) == OwnBytes(a, at) + OwnBytes(b, at)
    decreases |a|
  {
    if a == [] {
      assert a + b == b;
    } else {
      Tail(a, b);
      OwnConcat(a[1..], b, at);
    }
  }

  lemma {:induction false} NoneOwn(events: seq<Event>, at: Route)
    requires forall i :: 0 <= i < |events| ==> !IsOwn(events[i], at)
    ensures OwnBytes(events, at) == 0
    decreases |events|
  {
    if events != [] {
      assert !IsOwn(events[0], at);
      assert forall i :: 0 <= i < |events[1..]| ==> events[1..][i] == events[i + 1];
      NoneOwn(events[1..], at);
    }
  }

  /** Events of an archive inside member i are nobody's own at this level. */
  lemma NestedIsNotOwn(events: seq<Event>, at: Route, i: nat)
    requires Below(events, at + [i], 0)
    ensures OwnBytes(events, at) == 0
  {
    forall k | 0 <= k < |events| ensures !IsOwn(events[k], at) {
      if events[k].Analysed? {
        assert events[k] in events;
        assert at + [i] < events[k].at;
      }
    }
    NoneOwn(events, at);
  }

  /** The bound on an archive's own bytes: the configured total, and for a ZIP also the ratio. */
  predicate Within(cfg: Config, ratioed: bool, dataLen: nat, unpacked: nat) {
    unpacked <= cfg.maxTotalBytes && (ratioed && dataLen > 0 ==> unpacked <= dataLen * cfg.maxRatio)
  }

  predicate AllZip(ms: seq<Member>) {
    forall i :: 0 <= i < |ms| ==> ms[i].ZipMember?
  }

  lemma StepWithin(cfg: Config, at: Route, path: string, dataLen: nat, ms: seq<Member>, i: nat, unpacked: nat, b: Budget)
    requires i < |ms| && Within(cfg, AllZip(ms), dataLen, unpacked)
    ensures
      var s := StepMember(cfg, at, path, dataLen, ms, i, unpacked, b);
      && (s.last.Some? && s.last.value.Analysed? ==>
            IsOwn(s.last.value, at) && |s.last.value.data| <= cfg.maxMemberBytes && s.unpacked == unpacked + |s.last.value.data|)
      && unpacked <= s.unpacked && (!s.halts ==> Within(cfg, AllZip(ms), dataLen, s.unpacked))
      && (s.halts ==> s.last.Some? && s.last.value.Raised?)
  {
    hide UnsafeName;
    var m := ms[i];
    StepJudged(cfg, path, m, dataLen, unpacked, b);
  }

  lemma StepJudged(cfg: Config, path: string, m: Member, dataLen: nat, unpacked: nat, b: Budget)
    ensures Judge(cfg, path, m, dataLen, unpacked, b).Take? ==>
              && m.size <= cfg.maxMemberBytes && unpacked + m.size <= cfg.maxTotalBytes
              && (m.ZipMember? && dataLen > 0 ==> unpacked + m.size <= dataLen * cfg.maxRatio)
    ensures Read(cfg, path, m).Good? ==> |Read(cfg, path, m).bytes| == m.size
  {
  }

  lemma StepOwn(cfg: Config, at: Route, path: string, dataLen: nat, ms: seq<Member>, i: nat, unpacked: nat, b: Budget)
    requires i < |ms| && Within(cfg, AllZip(ms), dataLen, unpacked)
    ensures
      var s := StepMember(cfg, at, path, dataLen, ms, i, unpacked, b);
      && unpacked + OwnBytes(StepEvents(s), at) <= s.unpacked
      && (s.halts ==> OwnBytes(StepEvents(s), at) == 0)
      && (!s.halts ==> Within(cfg, AllZip(ms), dataLen, s.unpacked))
  {
    hide StepMember, Within, AllZip;
    StepWithin(cfg, at, path, dataLen, ms, i, unpacked, b);
    StepShape(cfg, at, path, dataLen, ms, i, unpacked, b);
    var s := StepMember(cfg, at, path, dataLen, ms, i, unpacked, b);
    assert forall k :: 0 <= k < |s.named| ==> !IsOwn(s.named[k], at);
    NoneOwn(s.named, at);
    if s.last.Some? {
      var last := [s.last.value];
      assert last[1..] == [];
      OwnConcat(s.named, last, at);
    }
  }

  lemma {:induction false} MembersWithin(
      env: Env, cfg: Config, at: Route, path: string, dataLen: nat, ms: seq<Member>, ending: Ending, i: nat, unpacked: nat, depth: nat, b: Budget)
    requires i <= |ms| && depth <= cfg.maxDepth && Within(cfg, AllZip(ms), dataLen, unpacked)
    ensures Within(cfg, AllZip(ms), dataLen, unpacked + OwnBytes(ScanMembers(env, cfg, at, path, dataLen, ms, ending, i, unpacked, depth, b).events, at))
    decreases |ms| - i
  {
    hide StepMember, StepEvents, AllZip;
    if i == |ms| {
      NoneOwn(EndEvents(path, ending), at);
    } else {
      StepOwn(cfg, at, path, dataLen, ms, i, unpacked, b);
      var s := StepMember(cfg, at, path, dataLen, ms, i, unpacked, b);
      if !s.halts {
        var nested := NestedOut(env, cfg, at, path, s, i, ms[i].name, depth);
        if s.archive.Some? {
          ArchiveBelow(env, cfg, at + [i], Inside(path, ms[i].name), s.archive.value, depth + 1, s.b);
        }
        NestedIsNotOwn(nested.events, at, i);
        var rest := ScanMembers(env, cfg, at, path, dataLen, ms, ending, i + 1, s.unpacked, depth, nested.budget);
        MembersWithin(env, cfg, at, path, dataLen, ms, ending, i + 1, s.unpacked, depth, nested.budget);
        OwnConcat(StepEvents(s) + nested.events, rest.events, at);
        OwnConcat(StepEvents(s), nested.events, at);
      }
    }
  }

  lemma GzipWithin(env: Env, cfg: Config, at: Route, path: string, data: Bytes, depth: nat, b: Budget)
    ensures
      var o := ScanGzip(env, cfg, at, path, data, depth, b);
      OwnBytes(o.events, at) <= cfg.maxTotalBytes && (|data| > 0 ==> OwnBytes(o.events, at) <= |data| * cfg.maxRatio)
  {
    var o := ScanGzip(env, cfg, at, path, data, depth, b);
    var first, last := [o.events[0]], [o.events[1]];
    assert o.events == first + last && last[1..] == [];
    NoneOwn(first, at);
    OwnConcat(first, last, at);
    assert |data| * cfg.maxRatio >= 0;
  }

  lemma ZipWithin(env: Env, cfg: Config, at: Route, path: string, data: Bytes, depth: nat, b: Budget)
    requires depth <= cfg.maxDepth
    ensures Within(cfg, true, |data|, OwnBytes(ScanZip(env, cfg, at, path, data, depth, b).events, at))
  {
    hide ScanMembers;
    var o := ScanZip(env, cfg, at, path, data, depth, b);
    var first := [Opened(path, data, depth)];
    if env.preflight(data).None? && env.zip(data).Zip? && |env.zip(data).members| <= cfg.maxMembers {
      var ms := env.zip(data).members;
      MembersWithin(env, cfg, at, path, |data|, ms, Ends, 0, 0, depth, b);
      NoneOwn(first, at);
      OwnConcat(first, ScanMembers(env, cfg, at, path, |data|, ms, Ends, 0, 0, depth, b).events, at);
    } else {
      NoneOwn(o.events, at);
    }
  }

  lemma TarWithin(env: Env, cfg: Config, at: Route, path: string, data: Bytes, depth: nat, b: Budget)
    requires depth <= cfg.maxDepth
    ensures Within(cfg, OpenTar(env, cfg, data, b).NotTar?, |data|, OwnBytes(ScanTar(env, cfg, at, path, data, depth, b).events, at))
  {
    hide ScanMembers, ScanGzip;
    var o := ScanTar(env, cfg, at, path, data, depth, b);
    var first := [Opened(path, data, depth)];
    var t := OpenTar(env, cfg, data, b);
    if !ReportsTooMuch(cfg, data) && t.Tar? {
      MembersWithin(env, cfg, at, path, |data|, t.members, t.ending, 0, 0, depth, b);
      NoneOwn(first, at);
      OwnConcat(first, ScanMembers(env, cfg, at, path, |data|, t.members, t.ending, 0, 0, depth, b).events, at);
    } else if !ReportsTooMuch(cfg, data) && t.NotTar? && IsGzip(data) && !NamedTar(path) {
      GzipWithin(env, cfg, at, path, data, depth, b);
    } else {
      NoneOwn(o.events, at);
    }
  }

  /**
   Every archive at every level, clean or not: what is analysed directly in it never exceeds the configured total,
   and for a ZIP or a plain gzip never the ratio times its own size either.
   */
  lemma ArchiveStaysWithin(env: Env, cfg: Config, at: Route, path: string, data: Bytes, depth: nat, b: Budget)
    ensures Within(cfg, OpensAsZip(path, data) || OpenTar(env, cfg, data, b).NotTar?, |data|,
                   OwnBytes(ScanArchive(env, cfg, at, path, data, depth, b).events, at))
  {
    hide ScanZip, ScanTar;
    if depth > cfg.maxDepth {
      NoneOwn(ScanArchive(env, cfg, at, path, data, depth, b).events, at);
    } else if OpensAsZip(path, data) {
      ZipWithin(env, cfg, at, path, data, depth, b);
    } else {
      TarWithin(env, cfg, at, path, data, depth, b);
    }
  }
}
