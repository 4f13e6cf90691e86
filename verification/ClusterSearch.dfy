/**
 `_cluster_signals`: find one occurrence of every signal group within `max_span` bytes of each other,
 reading the merged occurrence streams once and remembering a single offset per group.

 A group is the sorted stream of the offsets at which any of its signals occurs.  heapq.merge takes the
 smallest head first and breaks ties by group index, so events are ordered by offset and then by group.
 */
module ClusterSearch {

  import opened Options

  type Groups = seq<seq<int>>

  ghost predicate Sorted(groups: Groups) {
    forall i, a, b :: 0 <= i < |groups| && 0 <= a <= b < |groups[i]| ==> groups[i][a] <= groups[i][b]
  }

  /** One occurrence per group, given by its index in the group's stream. */
  ghost predicate Selection(groups: Groups, picks: seq<int>) {
    |picks| == |groups| && forall i :: 0 <= i < |groups| ==> 0 <= picks[i] < |groups[i]|
  }

  ghost predicate Fits(groups: Groups, span: int, picks: seq<int>) {
    && Selection(groups, picks)
    && forall i, j :: 0 <= i < |groups| && 0 <= j < |groups| ==> groups[i][picks[i]] - groups[j][picks[j]] <= span
  }

  /** Occurrence o of group i comes no later than occurrence e of group g in the merged stream. */
  predicate UpTo(o: int, i: int, e: int, g: int) {
    o < e || (o == e && i <= g)
  }

  ghost predicate AllUpTo(groups: Groups, picks: seq<int>, e: int, g: int)
    requires Selection(groups, picks)
  {
    forall i :: 0 <= i < |groups| ==> UpTo(groups[i][picks[i]], i, e, g)
  }

  ghost predicate AllBefore(groups: Groups, picks: seq<int>, e: int, g: int)
    requires Selection(groups, picks)
  {
    forall i :: 0 <= i < |groups| ==> UpTo(groups[i][picks[i]], i, e, g - 1)
  }

  /** v is a lower bound of the selection. */
  ghost predicate Above(groups: Groups, picks: seq<int>, v: int)
    requires Selection(groups, picks)
  {
    forall i :: 0 <= i < |groups| ==> v <= groups[i][picks[i]]
  }

  /**
   The search stopped at the event (e, g) with left end v: no fitting selection ends earlier in the merged
   stream, and v is the largest left end of those that end there.
   */
  ghost predicate Tightest(groups: Groups, span: int, e: int, g: int, v: int) {
    && 0 <= g < |groups|
    && (forall picks :: Fits(groups, span, picks) ==> !AllBefore(groups, picks, e, g))
    && (exists picks :: Fits(groups, span, picks) && AllUpTo(groups, picks, e, g) && Above(groups, picks, v) && groups[g][picks[g]] == e)
    && (forall picks :: Fits(groups, span, picks) && AllUpTo(groups, picks, e, g) ==> !Above(groups, picks, v + 1))
  }

  // ----- the search

  ghost predicate Positions(groups: Groups, pos: seq<int>) {
    |pos| == |groups| && forall i :: 0 <= i < |groups| ==> 0 <= pos[i] <= |groups[i]|
  }

  /** Everything consumed comes no later in the merged stream than anything left. */
  ghost predicate Merged(groups: Groups, pos: seq<int>)
    requires Positions(groups, pos)
  {
    forall i, a, j, b :: 0 <= i < |groups| && 0 <= a < pos[i] && 0 <= j < |groups| && pos[j] <= b < |groups[j]| ==>
      UpTo(groups[i][a], i, groups[j][b], j)
  }

  /** No selection fits within what has been consumed. */
  ghost predicate NothingYet(groups: Groups, span: int, pos: seq<int>)
    requires Positions(groups, pos)
  {
    forall picks :: Fits(groups, span, picks) ==> exists i :: 0 <= i < |groups| && pos[i] <= picks[i]
  }

  /** heapq.merge: the group whose head comes next, or None when every stream is exhausted. */
  method NextGroup(groups: Groups, pos: seq<int>) returns (r: Option<int>)
    requires Positions(groups, pos)
    ensures r.None? ==> forall i :: 0 <= i < |groups| ==> pos[i] == |groups[i]|
    ensures r.Some? ==> 0 <= r.value < |groups| && pos[r.value] < |groups[r.value]|
    ensures r.Some? ==> forall j :: 0 <= j < |groups| && pos[j] < |groups[j]| ==>
                          UpTo(groups[r.value][pos[r.value]], r.value, groups[j][pos[j]], j)
  {
    r := None;
    for i := 0 to |groups|
      invariant r.None? ==> forall j :: 0 <= j < i ==> pos[j] == |groups[j]|
      invariant r.Some? ==> 0 <= r.value < i && pos[r.value] < |groups[r.value]|
      invariant r.Some? ==> forall j :: 0 <= j < i && pos[j] < |groups[j]| ==>
                              UpTo(groups[r.value][pos[r.value]], r.value, groups[j][pos[j]], j)
    {
      if pos[i] < |groups[i]| && (r.None? || groups[i][pos[i]] < groups[r.value][pos[r.value]]) {
        r := Some(i);
      }
    }
  }

  /** What last_seen holds once pos events of each stream have been consumed. */
  ghost predicate Remembers(groups: Groups, pos: seq<int>, lastSeen: seq<Option<int>>)
    requires Positions(groups, pos)
  {
    && |lastSeen| == |groups|
    && forall i :: 0 <= i < |groups| ==> lastSeen[i] == if pos[i] == 0 then None else Some(groups[i][pos[i] - 1])
  }

  /** lo and hi are the least and greatest remembered offsets, and every group has one. */
  ghost predicate IsExtent(lastSeen: seq<Option<int>>, lo: int, hi: int) {
    && (forall i :: 0 <= i < |lastSeen| ==> lastSeen[i].Some? && lo <= lastSeen[i].value <= hi)
    && (exists i :: 0 <= i < |lastSeen| && lastSeen[i] == Some(lo))
    && (exists i :: 0 <= i < |lastSeen| && lastSeen[i] == Some(hi))
  }

  /** min(concrete) and max(concrete), or None while some group has not been seen. */
  method Extent(lastSeen: seq<Option<int>>) returns (r: Option<(int, int)>)
    requires |lastSeen| > 0
    ensures r.None? <==> None in lastSeen
    ensures r.Some? ==> IsExtent(lastSeen, r.value.0, r.value.1)
  {
    if lastSeen[0].None? { return None; }
    var lo, hi := lastSeen[0].value, lastSeen[0].value;
    for i := 1 to |lastSeen|
      invariant IsExtent(lastSeen[..i], lo, hi)
    {
      if lastSeen[i].None? { return None; }
      assert lastSeen[..i + 1] == lastSeen[..i] + [lastSeen[i]];
      ghost var a :| 0 <= a < i && lastSeen[..i][a] == Some(lo);
      ghost var b :| 0 <= b < i && lastSeen[..i][b] == Some(hi);
      assert lastSeen[..i + 1][a] == Some(lo) && lastSeen[..i + 1][b] == Some(hi) && lastSeen[..i + 1][i] == lastSeen[i];
      if lastSeen[i].value < lo { lo := lastSeen[i].value; }
      if hi < lastSeen[i].value { hi := lastSeen[i].value; }
    }
    assert lastSeen[..|lastSeen|] == lastSeen;
    return Some((lo, hi));
  }

  /**
   Sound, complete and tightest.  The ghost results name the event at which the search stopped.
   */
  method ClusterSignals(groups: Groups, maxSpan: int) returns (r: Option<int>, ghost e: int, ghost g: int)
    requires Sorted(groups)
    ensures r.None? <==> groups == [] || forall picks :: !Fits(groups, maxSpan, picks)
    ensures r.Some? ==> Tightest(groups, maxSpan, e, g, r.value)
  {
    hide Merged, NothingYet, Tightest, IsExtent, Sorted, Fits, Remaining;
    e, g := 0, 0;
    if groups == [] { return None, e, g; }
    var lastSeen := seq(|groups|, _ => None);
    var pos := seq(|groups|, _ => 0);
    SearchBegins(groups, maxSpan, pos);
    while true
      invariant Positions(groups, pos) && Remembers(groups, pos, lastSeen)
      invariant Merged(groups, pos) && NothingYet(groups, maxSpan, pos)
      decreases Remaining(groups, pos)
    {
      var next := NextGroup(groups, pos);
      if next.None? {
        SearchEnds(groups, maxSpan, pos);
        return None, e, g;
      }
      var group := next.value;
      var offset := groups[group][pos[group]];
      ghost var before := pos;
      lastSeen := lastSeen[group := Some(offset)];
      pos := pos[group := pos[group] + 1];
      RemainingDrops(groups, before, group);
      MergedStep(groups, before, group);
      var extent := Extent(lastSeen);
      StepOutcome(groups, maxSpan, before, group, lastSeen, extent);
      if extent.Some? && extent.value.1 - extent.value.0 <= maxSpan {
        return Some(extent.value.0), offset, group;
      }
    }
  }

  lemma SearchBegins(groups: Groups, span: int, pos: seq<int>)
    requires groups != [] && Positions(groups, pos) && forall i :: 0 <= i < |groups| ==> pos[i] == 0
    ensures Merged(groups, pos) && NothingYet(groups, span, pos)
  {
    forall picks | Fits(groups, span, picks) ensures exists i :: 0 <= i < |groups| && pos[i] <= picks[i] { assert pos[0] <= picks[0]; }
  }

  lemma SearchEnds(groups: Groups, span: int, pos: seq<int>)
    requires Positions(groups, pos) && NothingYet(groups, span, pos) && forall i :: 0 <= i < |groups| ==> pos[i] == |groups[i]|
    ensures forall picks :: !Fits(groups, span, picks)
  {
  }

  ghost function Remaining(groups: Groups, pos: seq<int>): nat
    requires Positions(groups, pos)
  {
    if groups == [] then 0
    else |groups[0]| - pos[0] + Remaining(groups[1..], pos[1..])
  }

  lemma RemainingDrops(groups: Groups, pos: seq<int>, g: int)
    requires Positions(groups, pos) && 0 <= g < |groups| && pos[g] < |groups[g]|
    ensures Remaining(groups, pos[g := pos[g] + 1]) == Remaining(groups, pos) - 1
  {
    var pos' := pos[g := pos[g] + 1];
    if g == 0 {
      assert pos'[1..] == pos[1..];
    } else {
      assert pos'[1..] == pos[1..][g - 1 := pos[1..][g - 1] + 1];
      RemainingDrops(groups[1..], pos[1..], g - 1);
    }
  }

  /** g is the next group of the merge. */
  ghost predicate IsNext(groups: Groups, pos: seq<int>, g: int)
    requires Positions(groups, pos)
  {
    && 0 <= g < |groups| && pos[g] < |groups[g]|
    && forall j :: 0 <= j < |groups| && pos[j] < |groups[j]| ==> UpTo(groups[g][pos[g]], g, groups[j][pos[j]], j)
  }

  lemma MergedStep(groups: Groups, pos: seq<int>, g: int)
    requires Sorted(groups) && Positions(groups, pos) && IsNext(groups, pos, g) && Merged(groups, pos)
    ensures Merged(groups, pos[g := pos[g] + 1])
  {
    var pos' := pos[g := pos[g] + 1];
    forall i, a, j, b | 0 <= i < |groups| && 0 <= a < pos'[i] && 0 <= j < |groups| && pos'[j] <= b < |groups[j]|
      ensures UpTo(groups[i][a], i, groups[j][b], j)
    {
      if i == g && a == pos[g] {
        assert groups[j][pos[j]] <= groups[j][b];
      } else {
        assert pos[j] <= b;
      }
    }
  }

  /** The extent of what is remembered after consuming the next event of group g was too wide. */
  ghost predicate TooWide(groups: Groups, span: int, pos: seq<int>, g: int)
    requires Positions(groups, pos) && IsNext(groups, pos, g)
  {
    var pos' := pos[g := pos[g] + 1];
    exists i :: 0 <= i < |groups| && (pos'[i] == 0 || groups[g][pos[g]] - groups[i][pos'[i] - 1] > span)
  }

  lemma NothingStep(groups: Groups, span: int, pos: seq<int>, g: int)
    requires Sorted(groups) && Positions(groups, pos) && IsNext(groups, pos, g) && NothingYet(groups, span, pos)
    requires TooWide(groups, span, pos, g)
    ensures NothingYet(groups, span, pos[g := pos[g] + 1])
  {
    var pos' := pos[g := pos[g] + 1];
    var w :| 0 <= w < |groups| && (pos'[w] == 0 || groups[g][pos[g]] - groups[w][pos'[w] - 1] > span);
    forall picks | Fits(groups, span, picks) ensures exists i :: 0 <= i < |groups| && pos'[i] <= picks[i] {
      if forall i :: 0 <= i < |groups| ==> picks[i] < pos'[i] {
        assert false;
      }
    }
  }

  /** The event of group g just consumed brings every remembered offset within the span. */
  ghost predicate Closes(groups: Groups, span: int, pos: seq<int>, g: int, v: int)
    requires Positions(groups, pos) && IsNext(groups, pos, g)
  {
    var pos' := pos[g := pos[g] + 1];
    && (forall i :: 0 <= i < |groups| ==> pos'[i] > 0 && v <= groups[i][pos'[i] - 1])
    && (exists i :: 0 <= i < |groups| && pos'[i] > 0 && groups[i][pos'[i] - 1] == v)
    && groups[g][pos[g]] - v <= span
  }

  lemma NoneEndsEarlier(groups: Groups, span: int, pos: seq<int>, g: int, picks: seq<int>)
    requires Sorted(groups) && Positions(groups, pos) && IsNext(groups, pos, g) && NothingYet(groups, span, pos)
    requires Fits(groups, span, picks)
    ensures !AllBefore(groups, picks, groups[g][pos[g]], g)
  {
    var i :| 0 <= i < |groups| && pos[i] <= picks[i];
    assert groups[i][pos[i]] <= groups[i][picks[i]];
  }

  lemma LatestFits(groups: Groups, span: int, pos: seq<int>, g: int, v: int) returns (best: seq<int>)
    requires Sorted(groups) && Positions(groups, pos) && IsNext(groups, pos, g) && Merged(groups, pos)
    requires Closes(groups, span, pos, g, v)
    ensures Fits(groups, span, best) && AllUpTo(groups, best, groups[g][pos[g]], g) && Above(groups, best, v)
    ensures groups[g][best[g]] == groups[g][pos[g]]
  {
    var pos' := pos[g := pos[g] + 1];
    best := seq(|groups|, i requires 0 <= i < |groups| => pos'[i] - 1);
    forall i | 0 <= i < |groups| ensures UpTo(groups[i][best[i]], i, groups[g][pos[g]], g) {}
  }

  lemma NoneStartsLater(groups: Groups, span: int, pos: seq<int>, g: int, v: int, picks: seq<int>)
    requires Sorted(groups) && Positions(groups, pos) && IsNext(groups, pos, g) && Merged(groups, pos)
    requires Closes(groups, span, pos, g, v)
    requires Fits(groups, span, picks) && AllUpTo(groups, picks, groups[g][pos[g]], g)
    ensures !Above(groups, picks, v + 1)
  {
    var pos' := pos[g := pos[g] + 1];
    var m :| 0 <= m < |groups| && pos'[m] > 0 && groups[m][pos'[m] - 1] == v;
    if picks[m] < pos'[m] {
      assert groups[m][picks[m]] <= groups[m][pos'[m] - 1];
    } else {
      assert groups[m][pos[m]] <= groups[m][picks[m]];
    }
  }

  lemma StopIsTightest(groups: Groups, span: int, pos: seq<int>, g: int, v: int)
    requires Sorted(groups) && Positions(groups, pos) && IsNext(groups, pos, g)
    requires Merged(groups, pos) && NothingYet(groups, span, pos) && Closes(groups, span, pos, g, v)
    ensures Tightest(groups, span, groups[g][pos[g]], g, v)
  {
    forall picks | Fits(groups, span, picks) ensures !AllBefore(groups, picks, groups[g][pos[g]], g) {
      NoneEndsEarlier(groups, span, pos, g, picks);
    }
    var best := LatestFits(groups, span, pos, g, v);
    forall picks | Fits(groups, span, picks) && AllUpTo(groups, picks, groups[g][pos[g]], g)
      ensures !Above(groups, picks, v + 1)
    {
      NoneStartsLater(groups, span, pos, g, v, picks);
    }
  }

  lemma StepOutcome(groups: Groups, span: int, pos: seq<int>, g: int, lastSeen: seq<Option<int>>, extent: Option<(int, int)>)
    requires Sorted(groups) && Positions(groups, pos) && IsNext(groups, pos, g)
    requires Merged(groups, pos) && NothingYet(groups, span, pos)
    requires Remembers(groups, pos[g := pos[g] + 1], lastSeen)
    requires extent.None? ==> None in lastSeen
    requires extent.Some? ==> IsExtent(lastSeen, extent.value.0, extent.value.1)
    ensures if extent.Some? && extent.value.1 - extent.value.0 <= span
            then Tightest(groups, span, groups[g][pos[g]], g, extent.value.0)
            else NothingYet(groups, span, pos[g := pos[g] + 1])
  {
    var pos' := pos[g := pos[g] + 1];
    MergedStep(groups, pos, g);
    if extent.None? {
      var i :| 0 <= i < |lastSeen| && lastSeen[i] == None;
      assert TooWide(groups, span, pos, g);
      NothingStep(groups, span, pos, g);
    } else {
      var (lo, hi) := extent.value;
      var l :| 0 <= l < |lastSeen| && lastSeen[l] == Some(lo);
      var h :| 0 <= h < |lastSeen| && lastSeen[h] == Some(hi);
      assert lastSeen[g] == Some(groups[g][pos[g]]);
      assert groups[h][pos'[h] - 1] <= groups[g][pos[g]];
      if hi - lo <= span {
        StopIsTightest(groups, span, pos, g, lo);
      } else {
        assert groups[g][pos[g]] - groups[l][pos'[l] - 1] > span;
        NothingStep(groups, span, pos, g);
      }
    }
  }

  // ----- what the stopping event says about plain offsets

  ghost predicate EndsBy(groups: Groups, picks: seq<int>, e: int)
    requires Selection(groups, picks)
  {
    forall i :: 0 <= i < |groups| ==> groups[i][picks[i]] <= e
  }

  /** The stopping offset is the smallest right end of any fitting selection. */
  lemma RightEndIsSmallest(groups: Groups, span: int, e: int, g: int, v: int, picks: seq<int>)
    requires Tightest(groups, span, e, g, v) && Fits(groups, span, picks)
    ensures !EndsBy(groups, picks, e - 1)
  {
    assert !AllBefore(groups, picks, e, g);
  }

  lemma NotEarlier(groups: Groups, span: int, e: int, g: int, v: int, e': int, g': int, v': int)
    requires Tightest(groups, span, e, g, v) && Tightest(groups, span, e', g', v')
    ensures e > e' || (e == e' && g >= g')
  {
    var a :| Fits(groups, span, a) && AllUpTo(groups, a, e, g) && Above(groups, a, v) && groups[g][a[g]] == e;
    assert !AllBefore(groups, a, e', g');
    var i :| 0 <= i < |groups| && !UpTo(groups[i][a[i]], i, e', g' - 1);
    assert UpTo(groups[i][a[i]], i, e, g);
  }

  lemma NotLower(groups: Groups, span: int, e: int, g: int, v: int, v': int)
    requires Tightest(groups, span, e, g, v) && Tightest(groups, span, e, g, v')
    ensures v <= v'
  {
    var a :| Fits(groups, span, a) && AllUpTo(groups, a, e, g) && Above(groups, a, v) && groups[g][a[g]] == e;
    assert !Above(groups, a, v' + 1);
    var i :| 0 <= i < |groups| && groups[i][a[i]] < v' + 1;
  }

  /** The stopping event and the returned offset are determined by the streams alone. */
  lemma TightestIsUnique(groups: Groups, span: int, e: int, g: int, v: int, e': int, g': int, v': int)
    requires Tightest(groups, span, e, g, v) && Tightest(groups, span, e', g', v')
    ensures e == e' && g == g' && v == v'
  {
    NotEarlier(groups, span, e, g, v, e', g', v');
    NotEarlier(groups, span, e', g', v', e, g, v);
    NotLower(groups, span, e, g, v, v');
    NotLower(groups, span, e, g, v', v);
  }

  /** The first event of the merged stream at which a fitting selection is complete. */
  ghost predicate StopsAt(groups: Groups, span: int, e: int, g: int) {
    && 0 <= g < |groups|
    && (forall picks :: Fits(groups, span, picks) ==> !AllBefore(groups, picks, e, g))
    && (exists picks :: Fits(groups, span, picks) && AllUpTo(groups, picks, e, g))
  }

  /** Group i occurs at the stopping offset too, but after the stopping event. */
  predicate Unread(groups: Groups, e: int, g: int, i: int)
    requires 0 <= i < |groups|
  {
    g < i && e in groups[i]
  }

  /** Before the end, group j occurs no earlier than group i last does. */
  ghost predicate Reaches(groups: Groups, e: int, g: int, j: int, i: int)
    requires 0 <= i < |groups| && 0 <= j < |groups|
  {
    exists k :: 0 <= k < |groups[j]| && UpTo(groups[j][k], j, e, g) && OccursLast(groups, e, g, i, groups[j][k])
  }

  ghost predicate OccursLast(groups: Groups, e: int, g: int, i: int, bound: int)
    requires 0 <= i < |groups|
  {
    forall k :: 0 <= k < |groups[i]| && UpTo(groups[i][k], i, e, g) ==> groups[i][k] <= bound
  }

  /**
   A condition on the streams: some group with nothing unread at the stopping offset is last seen there no later
   than any group that does have an unread occurrence at it.
   */
  ghost predicate TiesAreHarmless(groups: Groups, span: int) {
    forall e, g :: StopsAt(groups, span, e, g) ==>
      exists i :: 0 <= i < |groups| && !Unread(groups, e, g, i) && HoldsEndDown(groups, e, g, i)
  }

  ghost predicate HoldsEndDown(groups: Groups, e: int, g: int, i: int)
    requires 0 <= i < |groups|
  {
    forall j :: 0 <= j < |groups| && Unread(groups, e, g, j) ==> Reaches(groups, e, g, j, i)
  }

  ghost predicate LargestFor(groups: Groups, span: int, e: int, v: int) {
    forall picks :: Fits(groups, span, picks) && EndsBy(groups, picks, e) ==> !Above(groups, picks, v + 1)
  }

  lemma TightestStops(groups: Groups, span: int, e: int, g: int, v: int, e': int, g': int)
    requires Tightest(groups, span, e, g, v)
    ensures StopsAt(groups, span, e', g') <==> e == e' && g == g'
  {
    if StopsAt(groups, span, e', g') {
      var a :| Fits(groups, span, a) && AllUpTo(groups, a, e, g);
      var b :| Fits(groups, span, b) && AllUpTo(groups, b, e', g');
      StopsNotEarlier(groups, a, e, g, e', g');
      StopsNotEarlier(groups, b, e', g', e, g);
    }
  }

  lemma StopsNotEarlier(groups: Groups, picks: seq<int>, e: int, g: int, e': int, g': int)
    requires Selection(groups, picks) && AllUpTo(groups, picks, e, g) && !AllBefore(groups, picks, e', g')
    ensures e > e' || (e == e' && g >= g')
  {
    var i :| 0 <= i < |groups| && !UpTo(groups[i][picks[i]], i, e', g' - 1);
    assert UpTo(groups[i][picks[i]], i, e, g);
  }

  /** Group i is last seen at v when the search stops, and no later event at the same offset e could replace it. */
  ghost predicate Pinned(groups: Groups, e: int, g: int, v: int, i: int)
    requires 0 <= i < |groups|
  {
    OccursLast(groups, e, g, i, v) && !Unread(groups, e, g, i)
  }

  /**
   "The largest left end for that right end" does not follow: when several groups occur at offset e, the
   search stops at the first of them and has not yet consumed the others.  Exactly when such ties are harmless,
   which the streams alone decide, it does hold.
   */
  lemma LargestLeftEndIff(groups: Groups, span: int, e: int, g: int, v: int)
    requires Sorted(groups) && Tightest(groups, span, e, g, v)
    ensures LargestFor(groups, span, e, v) <==> TiesAreHarmless(groups, span)
  {
    hide StopsAt, Tightest, LargestFor, HoldsEndDown, Pinned, Unread;
    LargestIffPinned(groups, span, e, g, v);
    SomeGroupIsLow(groups, span, e, g, v);
    forall e', g' ensures StopsAt(groups, span, e', g') <==> e == e' && g == g' {
      TightestStops(groups, span, e, g, v, e', g');
    }
    assert StopsAt(groups, span, e, g);
    forall i | 0 <= i < |groups| && Pinned(groups, e, g, v, i) ensures !Unread(groups, e, g, i) && HoldsEndDown(groups, e, g, i) {
      PinnedHolds(groups, span, e, g, v, i);
    }
    if i :| 0 <= i < |groups| && !Unread(groups, e, g, i) && HoldsEndDown(groups, e, g, i) {
      HoldsPinned(groups, span, e, g, v, i);
    }
  }

  /** No unread occurrence can matter unless two groups share an offset. */
  lemma DistinctOffsetsAreHarmless(groups: Groups, span: int, e: int, g: int, v: int)
    requires Sorted(groups) && Tightest(groups, span, e, g, v)
    requires forall i, j :: 0 <= i < |groups| && 0 <= j < |groups| && i != j ==> forall o :: o in groups[i] ==> o !in groups[j]
    ensures LargestFor(groups, span, e, v)
  {
    var a :| Fits(groups, span, a) && AllUpTo(groups, a, e, g) && Above(groups, a, v) && groups[g][a[g]] == e;
    assert e in groups[g];
    forall j | 0 <= j < |groups| ensures !Unread(groups, e, g, j) {}
    TightestStops(groups, span, e, g, v, e, g);
    forall e', g' | StopsAt(groups, span, e', g') ensures e' == e && g' == g { TightestStops(groups, span, e, g, v, e', g'); }
    assert HoldsEndDown(groups, e, g, g);
    LargestLeftEndIff(groups, span, e, g, v);
  }

  /** The left end is the last occurrence of some group. */
  lemma SomeGroupIsLow(groups: Groups, span: int, e: int, g: int, v: int)
    requires Sorted(groups) && Tightest(groups, span, e, g, v)
    ensures exists i :: 0 <= i < |groups| && OccursLast(groups, e, g, i, v)
  {
    if forall i :: 0 <= i < |groups| ==> !OccursLast(groups, e, g, i, v) {
      var picks := HigherPicks(groups, e, g, v);
      var a :| Fits(groups, span, a) && AllUpTo(groups, a, e, g) && Above(groups, a, v) && groups[g][a[g]] == e;
      assert e - v <= span by { assert !Above(groups, a, v + 1); }
      assert Fits(groups, span, picks) && AllUpTo(groups, picks, e, g) && Above(groups, picks, v + 1);
    }
  }

  lemma HigherPicks(groups: Groups, e: int, g: int, v: int) returns (picks: seq<int>)
    requires forall i :: 0 <= i < |groups| ==> !OccursLast(groups, e, g, i, v)
    ensures Selection(groups, picks)
    ensures forall i :: 0 <= i < |groups| ==> UpTo(groups[i][picks[i]], i, e, g) && v < groups[i][picks[i]]
  {
    picks := [];
    while |picks| < |groups|
      invariant |picks| <= |groups|
      invariant forall i :: 0 <= i < |picks| ==> 0 <= picks[i] < |groups[i]| && UpTo(groups[i][picks[i]], i, e, g) && v < groups[i][picks[i]]
    {
      var i := |picks|;
      assert !OccursLast(groups, e, g, i, v);
      var k :| 0 <= k < |groups[i]| && UpTo(groups[i][k], i, e, g) && groups[i][k] > v;
      picks := picks + [k];
    }
  }

  lemma PinnedHolds(groups: Groups, span: int, e: int, g: int, v: int, i: int)
    requires Tightest(groups, span, e, g, v) && 0 <= i < |groups| && Pinned(groups, e, g, v, i)
    ensures !Unread(groups, e, g, i) && HoldsEndDown(groups, e, g, i)
  {
    var a :| Fits(groups, span, a) && AllUpTo(groups, a, e, g) && Above(groups, a, v) && groups[g][a[g]] == e;
    forall j | 0 <= j < |groups| ensures Reaches(groups, e, g, j, i) {
      assert v <= groups[j][a[j]] && UpTo(groups[j][a[j]], j, e, g);
    }
  }

  lemma HoldsPinned(groups: Groups, span: int, e: int, g: int, v: int, i: int)
    requires Sorted(groups) && Tightest(groups, span, e, g, v) && 0 <= i < |groups|
    requires !Unread(groups, e, g, i) && HoldsEndDown(groups, e, g, i)
    ensures exists i' :: 0 <= i' < |groups| && Pinned(groups, e, g, v, i')
  {
    SomeGroupIsLow(groups, span, e, g, v);
    var low :| 0 <= low < |groups| && OccursLast(groups, e, g, low, v);
    if Unread(groups, e, g, low) {
      var k :| 0 <= k < |groups[low]| && UpTo(groups[low][k], low, e, g) && OccursLast(groups, e, g, i, groups[low][k]);
      assert OccursLast(groups, e, g, i, v);
      assert Pinned(groups, e, g, v, i);
    } else {
      assert Pinned(groups, e, g, v, low);
    }
  }

  lemma LargestIffPinned(groups: Groups, span: int, e: int, g: int, v: int)
    requires Sorted(groups) && Tightest(groups, span, e, g, v)
    ensures LargestFor(groups, span, e, v) <==> exists i :: 0 <= i < |groups| && Pinned(groups, e, g, v, i)
  {
    if i :| 0 <= i < |groups| && Pinned(groups, e, g, v, i) {
      forall picks | Fits(groups, span, picks) && EndsBy(groups, picks, e) ensures !Above(groups, picks, v + 1) {
        var o := groups[i][picks[i]];
        assert o in groups[i];
      }
    } else {
      var better := LaterSelection(groups, span, e, g, v);
    }
  }

  lemma LaterSelection(groups: Groups, span: int, e: int, g: int, v: int) returns (picks: seq<int>)
    requires Sorted(groups) && Tightest(groups, span, e, g, v)
    requires forall i :: 0 <= i < |groups| ==> !Pinned(groups, e, g, v, i)
    ensures Fits(groups, span, picks) && EndsBy(groups, picks, e) && Above(groups, picks, v + 1)
  {
    var a :| Fits(groups, span, a) && AllUpTo(groups, a, e, g) && Above(groups, a, v) && groups[g][a[g]] == e;
    assert e - v <= span by {
      assert !Above(groups, a, v + 1);
    }
    picks := [];
    while |picks| < |groups|
      invariant |picks| <= |groups|
      invariant forall i :: 0 <= i < |picks| ==> 0 <= picks[i] < |groups[i]| && v < groups[i][picks[i]] <= e
    {
      var k := LaterPick(groups, e, g, v, a, |picks|);
      picks := picks + [k];
    }
  }

  lemma LaterPick(groups: Groups, e: int, g: int, v: int, a: seq<int>, i: int) returns (k: int)
    requires Selection(groups, a) && AllUpTo(groups, a, e, g) && Above(groups, a, v) && 0 <= g < |groups| && groups[g][a[g]] == e
    requires 0 <= i < |groups| && !Pinned(groups, e, g, v, i) && !Pinned(groups, e, g, v, g)
    ensures 0 <= k < |groups[i]| && v < groups[i][k] <= e
  {
    if i > g && e in groups[i] && (forall k :: 0 <= k < |groups[i]| && UpTo(groups[i][k], i, e, g) ==> groups[i][k] <= v) {
      k :| 0 <= k < |groups[i]| && groups[i][k] == e;
    } else {
      k :| 0 <= k < |groups[i]| && UpTo(groups[i][k], i, e, g) && groups[i][k] > v;
    }
  }

  /** Two groups meeting at offset 10: the search can only answer 5, though both occur at 10 itself. */
  lemma TiedGroups(tied: Groups)
    requires tied == [[10], [5, 10]]
    ensures Sorted(tied) && Tightest(tied, 10, 10, 0, 5)
    ensures Fits(tied, 10, [0, 1]) && EndsBy(tied, [0, 1], 10) && Above(tied, [0, 1], 10)
  {
    TiedStop(tied);
    var both := [0, 1];
    assert Selection(tied, both);
  }

  lemma TiedGroupsHarm(tied: Groups)
    requires tied == [[10], [5, 10]]
    ensures !TiesAreHarmless(tied, 10)
  {
    hide TiesAreHarmless, Tightest;
    TiedGroups(tied);
    LargestLeftEndIff(tied, 10, 10, 0, 5);
    assert !LargestFor(tied, 10, 10, 5) by { HigherIsEnough(tied, [0, 1]); }
  }

  lemma HigherIsEnough(tied: Groups, picks: seq<int>)
    requires Fits(tied, 10, picks) && EndsBy(tied, picks, 10) && Above(tied, picks, 10)
    ensures !LargestFor(tied, 10, 10, 5)
  {
    assert Above(tied, picks, 6);
  }

  lemma TiedStop(tied: Groups)
    requires tied == [[10], [5, 10]]
    ensures Tightest(tied, 10, 10, 0, 5)
  {
    var first := [0, 0];
    assert Selection(tied, first);
    assert Fits(tied, 10, first) && AllUpTo(tied, first, 10, 0) && Above(tied, first, 5) && tied[0][first[0]] == 10;
    forall picks | Fits(tied, 10, picks) ensures !AllBefore(tied, picks, 10, 0) {
      assert tied[0][picks[0]] == 10 && !UpTo(tied[0][picks[0]], 0, 10, -1);
    }
    forall picks | Fits(tied, 10, picks) && AllUpTo(tied, picks, 10, 0) ensures !Above(tied, picks, 6) {
      assert UpTo(tied[1][picks[1]], 1, 10, 0);
      assert tied[1][picks[1]] == 5;
    }
  }
}
