/**
 The cluster search over bytes, for groups of plain byte signals: every signal's occurrences are merged into its
 group's stream, and the streams are searched.
 */
module SignalClusters {

  import opened ClusterSearch
  import opened Occurrences
  import opened Options

  /** All that was taken from the streams so far. */
  ghost function Taken(streams: Groups, pos: seq<int>): multiset<int>
    requires Positions(streams, pos)
  {
    if streams == [] then multiset{} else multiset(streams[0][..pos[0]]) + Taken(streams[1..], pos[1..])
  }

  ghost function AllOf(streams: Groups): multiset<int> {
    if streams == [] then multiset{} else multiset(streams[0]) + AllOf(streams[1..])
  }

  lemma {:induction false} TakenNext(streams: Groups, pos: seq<int>, g: int)
    requires Positions(streams, pos) && 0 <= g < |streams| && pos[g] < |streams[g]|
    ensures Taken(streams, pos[g := pos[g] + 1]) == Taken(streams, pos) + multiset{streams[g][pos[g]]}
    decreases |streams|
  {
    var pos' := pos[g := pos[g] + 1];
    if g == 0 {
      assert streams[0][..pos[0] + 1] == streams[0][..pos[0]] + [streams[0][pos[0]]];
      assert pos'[1..] == pos[1..];
    } else {
      assert pos'[1..] == pos[1..][g - 1 := pos[1..][g - 1] + 1];
      TakenNext(streams[1..], pos[1..], g - 1);
    }
  }

  lemma {:induction false} TakenAll(streams: Groups, pos: seq<int>)
    requires Positions(streams, pos) && forall i :: 0 <= i < |streams| ==> pos[i] == |streams[i]|
    ensures Taken(streams, pos) == AllOf(streams)
    decreases |streams|
  {
    if streams != [] {
      assert streams[0][..pos[0]] == streams[0];
      TakenAll(streams[1..], pos[1..]);
    }
  }

  lemma {:induction false} TakenNone(streams: Groups, pos: seq<int>)
    requires |pos| == |streams| && forall i :: 0 <= i < |pos| ==> pos[i] == 0
    ensures Positions(streams, pos) && Taken(streams, pos) == multiset{}
    decreases |streams|
  {
    if streams != [] { TakenNone(streams[1..], pos[1..]); }
  }

  lemma {:induction false} AllOfHas(streams: Groups, o: int)
    ensures o in AllOf(streams) <==> exists i :: 0 <= i < |streams| && o in streams[i]
    decreases |streams|
  {
    if streams != [] {
      AllOfHas(streams[1..], o);
      if i :| 0 <= i < |streams| && o in streams[i] {
        if i > 0 { assert o in streams[1..][i - 1]; }
      }
    }
  }

  ghost predicate Ascending(os: seq<int>) {
    forall a, b :: 0 <= a <= b < |os| ==> os[a] <= os[b]
  }

  /** Nothing left in a stream is smaller than anything merged. */
  ghost predicate Ahead(streams: Groups, pos: seq<int>, merged: seq<int>)
    requires Positions(streams, pos)
  {
    forall a, i, b :: 0 <= a < |merged| && 0 <= i < |streams| && pos[i] <= b < |streams[i]| ==> merged[a] <= streams[i][b]
  }

  lemma AheadNext(streams: Groups, pos: seq<int>, merged: seq<int>, g: int)
    requires Sorted(streams) && Positions(streams, pos) && IsNext(streams, pos, g)
    requires Ascending(merged) && Ahead(streams, pos, merged)
    ensures
      var more := merged + [streams[g][pos[g]]];
      Ascending(more) && Ahead(streams, pos[g := pos[g] + 1], more)
  {
    var o, pos' := streams[g][pos[g]], pos[g := pos[g] + 1];
    forall i, b | 0 <= i < |streams| && pos'[i] <= b < |streams[i]| ensures o <= streams[i][b] {
      assert streams[i][pos[i]] <= streams[i][b];
    }
  }

  /** heapq.merge: all of the streams, in ascending order. */
  method MergeStreams(streams: Groups) returns (merged: seq<int>)
    requires Sorted(streams)
    ensures Ascending(merged) && multiset(merged) == AllOf(streams)
  {
    hide Taken, AllOf, Sorted, Ascending, Ahead;
    merged := [];
    var pos := seq(|streams|, _ => 0);
    TakenNone(streams, pos);
    NothingMerged(streams, pos);
    while true
      invariant Positions(streams, pos) && multiset(merged) == Taken(streams, pos)
      invariant Ascending(merged) && Ahead(streams, pos, merged)
      decreases Remaining(streams, pos)
    {
      var next := NextGroup(streams, pos);
      if next.None? {
        TakenAll(streams, pos);
        return;
      }
      var g := next.value;
      TakenNext(streams, pos, g);
      RemainingDrops(streams, pos, g);
      AheadNext(streams, pos, merged, g);
      merged := merged + [streams[g][pos[g]]];
      pos := pos[g := pos[g] + 1];
    }
  }

  lemma NothingMerged(streams: Groups, pos: seq<int>)
    requires Positions(streams, pos)
    ensures Ascending([]) && Ahead(streams, pos, [])
  {
  }

  // ----- groups of signals

  /** p is reported for some signal of the group. */
  ghost predicate Reported(data: Bytes, signals: seq<Bytes>, p: int) {
    exists k, offsets :: 0 <= k < |signals| && Greedy(data, signals[k], offsets) && p in offsets
  }

  ghost predicate Streamed(data: Bytes, signals: seq<Bytes>, streams: Groups) {
    |streams| == |signals| && forall k :: 0 <= k < |signals| ==> Greedy(data, signals[k], streams[k])
  }

  lemma StreamsHave(data: Bytes, signals: seq<Bytes>, streams: Groups, p: int)
    requires Streamed(data, signals, streams)
    ensures Reported(data, signals, p) <==> exists k :: 0 <= k < |streams| && p in streams[k]
  {
    hide Greedy;
    if Reported(data, signals, p) {
      var k, offsets :| 0 <= k < |signals| && Greedy(data, signals[k], offsets) && p in offsets;
      GreedyIsUnique(data, signals[k], offsets, streams[k]);
    }
  }

  lemma StreamsSorted(data: Bytes, signals: seq<Bytes>, streams: Groups)
    requires Streamed(data, signals, streams)
    ensures Sorted(streams)
  {
    hide Greedy;
    forall k | 0 <= k < |streams| ensures Ascending(streams[k]) { OccurrencesIncrease(data, signals[k], streams[k]); }
    forall k, a, b | 0 <= k < |streams| && 0 <= a <= b < |streams[k]| ensures streams[k][a] <= streams[k][b] {
      assert Ascending(streams[k]);
    }
  }

  method GroupOffsets(data: Bytes, signals: seq<Bytes>) returns (offsets: seq<int>)
    ensures Ascending(offsets) && forall p :: p in offsets <==> Reported(data, signals, p)
  {
    hide Greedy, Reported, AllOf, Ascending, Sorted;
    var streams: Groups := [];
    while |streams| < |signals|
      invariant |streams| <= |signals|
      invariant forall k :: 0 <= k < |streams| ==> Greedy(data, signals[k], streams[k])
    {
      var hits := AllOccurrences(data, signals[|streams|]);
      streams := streams + [hits];
    }
    StreamsSorted(data, signals, streams);
    offsets := MergeStreams(streams);
    forall p ensures p in offsets <==> Reported(data, signals, p) {
      assert p in offsets <==> p in multiset(offsets);
      AllOfHas(streams, p);
      StreamsHave(data, signals, streams, p);
    }
  }

  /** One reported occurrence per group, all within the span. */
  ghost predicate Cluster(data: Bytes, groups: seq<seq<Bytes>>, span: int, choice: seq<int>) {
    && |choice| == |groups|
    && (forall i :: 0 <= i < |groups| ==> Reported(data, groups[i], choice[i]))
    && forall i, j :: 0 <= i < |groups| && 0 <= j < |groups| ==> choice[i] - choice[j] <= span
  }

  /** Its occurrences lie between these two, both of which occur in it. */
  ghost predicate Spans(choice: seq<int>, lo: int, hi: int) {
    lo in choice && hi in choice && forall i :: 0 <= i < |choice| ==> lo <= choice[i] <= hi
  }

  ghost predicate Fed(data: Bytes, groups: seq<seq<Bytes>>, streams: Groups) {
    && |streams| == |groups|
    && (forall i :: 0 <= i < |groups| ==> Ascending(streams[i]))
    && forall i, p :: 0 <= i < |groups| ==> (p in streams[i] <==> Reported(data, groups[i], p))
  }

  ghost function Chosen(streams: Groups, picks: seq<int>): seq<int>
    requires Selection(streams, picks)
  {
    seq(|streams|, i requires 0 <= i < |streams| => streams[i][picks[i]])
  }

  lemma FitsIsCluster(data: Bytes, groups: seq<seq<Bytes>>, streams: Groups, span: int, picks: seq<int>)
    requires Fed(data, groups, streams) && Fits(streams, span, picks)
    ensures Cluster(data, groups, span, Chosen(streams, picks))
  {
    hide Reported;
    var choice := Chosen(streams, picks);
    forall i | 0 <= i < |groups| ensures Reported(data, groups[i], choice[i]) { assert choice[i] in streams[i]; }
  }

  lemma ClusterFits(data: Bytes, groups: seq<seq<Bytes>>, streams: Groups, span: int, choice: seq<int>) returns (picks: seq<int>)
    requires Fed(data, groups, streams) && Cluster(data, groups, span, choice)
    ensures Fits(streams, span, picks) && Chosen(streams, picks) == choice
  {
    hide Reported;
    picks := [];
    while |picks| < |groups|
      invariant |picks| <= |groups| && forall i :: 0 <= i < |picks| ==> 0 <= picks[i] < |streams[i]| && streams[i][picks[i]] == choice[i]
    {
      var i := |picks|;
      assert Reported(data, groups[i], choice[i]);
      assert choice[i] in streams[i];
      var k :| 0 <= k < |streams[i]| && streams[i][k] == choice[i];
      picks := picks + [k];
    }
  }

  lemma TightestSpans(streams: Groups, span: int, e: int, g: int, v: int) returns (picks: seq<int>)
    requires Tightest(streams, span, e, g, v)
    ensures Fits(streams, span, picks) && Spans(Chosen(streams, picks), v, e)
  {
    picks :| Fits(streams, span, picks) && AllUpTo(streams, picks, e, g) && Above(streams, picks, v) && streams[g][picks[g]] == e;
    var choice := Chosen(streams, picks);
    assert choice[g] == e;
    assert !Above(streams, picks, v + 1);
    var i :| 0 <= i < |streams| && streams[i][picks[i]] < v + 1;
    assert choice[i] == v;
  }

  /** Some cluster begins at v, and no cluster ends before its end. */
  ghost predicate First(data: Bytes, groups: seq<seq<Bytes>>, span: int, v: int) {
    exists choice, e ::
      && Cluster(data, groups, span, choice) && Spans(choice, v, e)
      && forall other :: Cluster(data, groups, span, other) ==> exists i :: 0 <= i < |other| && other[i] >= e
  }

  lemma EndsNoEarlier(data: Bytes, groups: seq<seq<Bytes>>, streams: Groups, span: int, e: int, g: int, v: int, other: seq<int>)
    requires Fed(data, groups, streams) && Tightest(streams, span, e, g, v) && Cluster(data, groups, span, other)
    ensures exists i :: 0 <= i < |other| && other[i] >= e
  {
    hide Fed, Cluster, Fits, Tightest;
    var ps := ClusterFits(data, groups, streams, span, other);
    FitsSelects(streams, span, ps);
    RightEndIsSmallest(streams, span, e, g, v, ps);
    var i :| 0 <= i < |streams| && streams[i][ps[i]] > e - 1;
    assert other[i] >= e;
  }

  lemma TightestIsFirst(data: Bytes, groups: seq<seq<Bytes>>, streams: Groups, span: int, e: int, g: int, v: int)
    requires Fed(data, groups, streams) && Tightest(streams, span, e, g, v)
    ensures First(data, groups, span, v)
  {
    hide Fed, Cluster, Fits, Tightest, Spans;
    var picks := TightestSpans(streams, span, e, g, v);
    assert Selection(streams, picks) by { FitsSelects(streams, span, picks); }
    FitsIsCluster(data, groups, streams, span, picks);
    forall other | Cluster(data, groups, span, other) ensures exists i :: 0 <= i < |other| && other[i] >= e {
      EndsNoEarlier(data, groups, streams, span, e, g, v, other);
    }
    assert Cluster(data, groups, span, Chosen(streams, picks)) && Spans(Chosen(streams, picks), v, e);
  }

  lemma FitsSelects(streams: Groups, span: int, picks: seq<int>)
    requires Fits(streams, span, picks)
    ensures Selection(streams, picks)
  {
  }

  lemma FedSorted(data: Bytes, groups: seq<seq<Bytes>>, streams: Groups)
    requires Fed(data, groups, streams)
    ensures Sorted(streams)
  {
    forall k, a, b | 0 <= k < |streams| && 0 <= a <= b < |streams[k]| ensures streams[k][a] <= streams[k][b] {
      assert Ascending(streams[k]);
    }
  }

  /** No offset is reported in two groups. */
  ghost predicate NoneShared(data: Bytes, groups: seq<seq<Bytes>>) {
    forall i, j, p :: 0 <= i < |groups| && 0 <= j < |groups| && Reported(data, groups[i], p) && Reported(data, groups[j], p) ==> i == j
  }

  /** Some cluster begins at v, no cluster ends before its end, and of those that end with it none begins later. */
  ghost predicate FirstAndTightest(data: Bytes, groups: seq<seq<Bytes>>, span: int, v: int) {
    exists choice, e :: Cluster(data, groups, span, choice) && Spans(choice, v, e) && NoneBetter(data, groups, span, v, e)
  }

  ghost predicate NoneBetter(data: Bytes, groups: seq<seq<Bytes>>, span: int, v: int, e: int) {
    && (forall other :: Cluster(data, groups, span, other) ==> exists i :: 0 <= i < |other| && other[i] >= e)
    && forall other, lo :: Cluster(data, groups, span, other) && Spans(other, lo, e) ==> lo <= v
  }

  lemma DistinctIsTightest(data: Bytes, groups: seq<seq<Bytes>>, streams: Groups, span: int, e: int, g: int, v: int)
    requires Fed(data, groups, streams) && Tightest(streams, span, e, g, v) && NoneShared(data, groups)
    ensures FirstAndTightest(data, groups, span, v)
  {
    hide Cluster, Fits, Tightest, Spans, Reported, LargestFor;
    var picks := TightestSpans(streams, span, e, g, v);
    FitsSelects(streams, span, picks);
    FitsIsCluster(data, groups, streams, span, picks);
    FedSorted(data, groups, streams);
    StreamsShareNothing(data, groups, streams);
    DistinctOffsetsAreHarmless(streams, span, e, g, v);
    forall other | Cluster(data, groups, span, other) ensures exists i :: 0 <= i < |other| && other[i] >= e {
      EndsNoEarlier(data, groups, streams, span, e, g, v, other);
    }
    forall other, lo | Cluster(data, groups, span, other) && Spans(other, lo, e) ensures lo <= v {
      var ps := ClusterFits(data, groups, streams, span, other);
      FitsSelects(streams, span, ps);
      NotLargerThan(streams, span, e, v, ps, lo);
    }
    assert Cluster(data, groups, span, Chosen(streams, picks)) && Spans(Chosen(streams, picks), v, e);
  }

  lemma StreamsShareNothing(data: Bytes, groups: seq<seq<Bytes>>, streams: Groups)
    requires Fed(data, groups, streams) && NoneShared(data, groups)
    ensures forall i, j :: 0 <= i < |streams| && 0 <= j < |streams| && i != j ==> forall o :: o in streams[i] ==> o !in streams[j]
  {
    hide Reported, Ascending;
    forall i, j, o | 0 <= i < |streams| && 0 <= j < |streams| && i != j && o in streams[i] ensures o !in streams[j] {
      assert Reported(data, groups[i], o);
    }
  }

  lemma NotLargerThan(streams: Groups, span: int, e: int, v: int, picks: seq<int>, lo: int)
    requires LargestFor(streams, span, e, v) && Selection(streams, picks) && Fits(streams, span, picks) && Spans(Chosen(streams, picks), lo, e)
    ensures lo <= v
  {
    hide Fits;
    var choice := Chosen(streams, picks);
    forall i | 0 <= i < |streams| ensures lo <= streams[i][picks[i]] <= e { assert choice[i] == streams[i][picks[i]]; }
    assert EndsBy(streams, picks, e);
  }

  /** v is the answer the streams of these groups determine. */
  ghost predicate Answers(data: Bytes, groups: seq<seq<Bytes>>, span: int, v: int) {
    exists streams, e, g :: Fed(data, groups, streams) && Tightest(streams, span, e, g, v)
  }

  /**
   From bytes to answer: a value iff a cluster of reported occurrences exists, and then where one of the first begins;
   the tightest of these if no offset is reported in two groups.
   */
  method ClusterPlainSignals(data: Bytes, groups: seq<seq<Bytes>>, maxSpan: int) returns (r: Option<int>)
    ensures r.None? <==> groups == [] || forall choice :: !Cluster(data, groups, maxSpan, choice)
    ensures r.Some? ==> First(data, groups, maxSpan, r.value) && Answers(data, groups, maxSpan, r.value)
    ensures r.Some? && NoneShared(data, groups) ==> FirstAndTightest(data, groups, maxSpan, r.value)
  {
    hide Reported, Ascending, Sorted, Tightest, Cluster, First, Fits, FirstAndTightest, NoneShared;
    var streams: Groups := [];
    while |streams| < |groups|
      invariant |streams| <= |groups|
      invariant forall i :: 0 <= i < |streams| ==> Ascending(streams[i])
      invariant forall i, p :: 0 <= i < |streams| ==> (p in streams[i] <==> Reported(data, groups[i], p))
    {
      var offsets := GroupOffsets(data, groups[|streams|]);
      streams := streams + [offsets];
    }
    FedSorted(data, groups, streams);
    ghost var e, g;
    r, e, g := ClusterSignals(streams, maxSpan);
    if r.Some? {
      TightestIsFirst(data, groups, streams, maxSpan, e, g, r.value);
      if NoneShared(data, groups) { DistinctIsTightest(data, groups, streams, maxSpan, e, g, r.value); }
    }
    ClustersAreFits(data, groups, streams, maxSpan);
  }

  lemma ClustersAreFits(data: Bytes, groups: seq<seq<Bytes>>, streams: Groups, span: int)
    requires Fed(data, groups, streams)
    ensures (exists picks :: Fits(streams, span, picks)) <==> exists choice :: Cluster(data, groups, span, choice)
  {
    hide Fed, Fits, Cluster;
    forall choice | Cluster(data, groups, span, choice) ensures exists picks :: Fits(streams, span, picks) {
      var picks := ClusterFits(data, groups, streams, span, choice);
    }
    forall picks | Fits(streams, span, picks) ensures exists choice :: Cluster(data, groups, span, choice) {
      FitsSelects(streams, span, picks);
      FitsIsCluster(data, groups, streams, span, picks);
    }
  }

  /**
   Two groups of one signal each on four bytes: "ab" and "a" both occur at 2, yet the only answer is 0, where "a" occurs
   first.
   */
  lemma TiedSignals(data: Bytes, groups: seq<seq<Bytes>>, v: int)
    requires data == [1, 0, 1, 2] && groups == [[[1, 2]], [[1]]] && Answers(data, groups, 10, v)
    ensures v == 0 && Cluster(data, groups, 10, [2, 2]) && !FirstAndTightest(data, groups, 10, v)
  {
    hide Reported, Tightest, Fits, Cluster;
    TiedOffsets(data);
    var streams, e, g :| Fed(data, groups, streams) && Tightest(streams, 10, e, g, v);
    TiedStreams(streams, 10);
    TightestIsUnique(streams, 10, e, g, v, 2, 0, 0);
    TiedCluster(data, groups);
    if FirstAndTightest(data, groups, 10, v) { TiedIsNotTightest(data, groups); }
  }

  lemma TiedOffsets(data: Bytes)
    requires data == [1, 0, 1, 2]
    ensures forall p :: Reported(data, [[1, 2]], p) <==> p == 2
    ensures forall p :: Reported(data, [[1]], p) <==> p == 0 || p == 2
  {
    hide Reported;
    var ab, a := [2], [0, 2];
    assert data[2..4] == [1, 2] && data[0..1] == [1] && data[2..3] == [1];
    assert data[0] == 1 && data[1] == 0 && data[2] == 1 && data[3] == 2;
    forall p | OccursAt(data, [1, 2], p) ensures p == 2 { assert data[p..p + 2][0] == data[p] && data[p..p + 2][1] == data[p + 1]; }
    forall p | OccursAt(data, [1], p) ensures p == 0 || p == 2 { assert data[p..p + 1][0] == data[p]; }
    assert Within([1, 2], ab, 2) by { assert ab[0] == 2; }
    assert Within([1], a, 0) && Within([1], a, 2) by { assert a[0] == 0 && a[1] == 2; }
    assert Greedy(data, [1, 2], ab) && Greedy(data, [1], a);
    forall p ensures Reported(data, [[1, 2]], p) <==> p in ab { OneSignal(data, [1, 2], ab, p); }
    forall p ensures Reported(data, [[1]], p) <==> p in a { OneSignal(data, [1], a, p); }
  }

  lemma OneSignal(data: Bytes, signal: Bytes, offsets: seq<int>, p: int)
    requires Greedy(data, signal, offsets)
    ensures Reported(data, [signal], p) <==> p in offsets
  {
    hide Reported, Greedy;
    var streams := [offsets];
    StreamsHave(data, [signal], streams, p);
    assert streams[0] == offsets;
  }

  /** Streams that hold 2, and 0 and 2, in whatever number. */
  lemma TiedStreams(streams: Groups, span: int)
    requires |streams| == 2 && span == 10 && (forall p :: p in streams[0] <==> p == 2) && forall p :: p in streams[1] <==> p == 0 || p == 2
    ensures Tightest(streams, span, 2, 0, 0)
  {
    assert 2 in streams[0] && 0 in streams[1];
    var a :| 0 <= a < |streams[0]| && streams[0][a] == 2;
    var b :| 0 <= b < |streams[1]| && streams[1][b] == 0;
    var picks := [a, b];
    assert Fits(streams, span, picks) && AllUpTo(streams, picks, 2, 0) && Above(streams, picks, 0) && streams[0][picks[0]] == 2;
    forall ps | Fits(streams, span, ps) ensures !AllBefore(streams, ps, 2, 0) {
      assert streams[0][ps[0]] in streams[0];
    }
    forall ps | Fits(streams, span, ps) && AllUpTo(streams, ps, 2, 0) ensures !Above(streams, ps, 1) {
      assert streams[1][ps[1]] in streams[1] && UpTo(streams[1][ps[1]], 1, 2, 0);
    }
  }

  lemma TiedCluster(data: Bytes, groups: seq<seq<Bytes>>)
    requires groups == [[[1, 2]], [[1]]] && Reported(data, [[1, 2]], 2) && Reported(data, [[1]], 2)
    ensures Cluster(data, groups, 10, [2, 2])
  {
  }

  lemma TiedIsNotTightest(data: Bytes, groups: seq<seq<Bytes>>)
    requires |groups| == 2 && Cluster(data, groups, 10, [2, 2]) && (forall p :: Reported(data, groups[0], p) <==> p == 2)
    ensures !FirstAndTightest(data, groups, 10, 0)
  {
    hide Reported;
    forall choice, e | Cluster(data, groups, 10, choice) && Spans(choice, 0, e) ensures !NoneBetter(data, groups, 10, 0, e) {
      assert Reported(data, groups[0], choice[0]);
      NotBetter(data, groups, e);
    }
  }

  lemma NotBetter(data: Bytes, groups: seq<seq<Bytes>>, e: int)
    requires Cluster(data, groups, 10, [2, 2]) && e >= 2
    ensures !NoneBetter(data, groups, 10, 0, e)
  {
    hide Cluster;
    var both := [2, 2];
    assert both[0] == 2 && both[1] == 2;
    assert Spans(both, 2, 2);
    assert e > 2 ==> forall i :: 0 <= i < |both| ==> both[i] < e;
  }

  /** When no two occurrences of any signal overlap, what is reported is what occurs. */
  lemma ReportedIsWhatOccurs(data: Bytes, signals: seq<Bytes>, streams: Groups, p: int)
    requires Streamed(data, signals, streams) && forall k :: 0 <= k < |signals| ==> NoOverlap(data, signals[k])
    ensures Reported(data, signals, p) <==> exists k :: 0 <= k < |signals| && OccursAt(data, signals[k], p)
  {
    hide Reported;
    StreamsHave(data, signals, streams, p);
    forall k | 0 <= k < |signals| ensures p in streams[k] <==> OccursAt(data, signals[k], p) {
      assert NoOverlap(data, signals[k]);
      EveryOccurrenceIff(data, signals[k], streams[k]);
    }
  }
}
