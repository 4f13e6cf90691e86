/**
 `_all_occurrences`: the offsets at which a byte signal is found, each search starting after the end of the last
 match.
 */
module Occurrences {

  type Bytes = seq<int>

  predicate OccursAt(data: Bytes, needle: Bytes, p: int) {
    0 <= p && p + |needle| <= |data| && data[p..p + |needle|] == needle
  }

  /** max(1, len(needle)) */
  function Stride(needle: Bytes): (n: nat)
    ensures n > 0
  {
    if needle == [] then 1 else |needle|
  }

  /** data.find(needle, start), or |data| + 1 */
  method Find(data: Bytes, needle: Bytes, start: nat) returns (p: nat)
    ensures p <= |data| ==> start <= p && OccursAt(data, needle, p)
    ensures forall q :: start <= q < p ==> !OccursAt(data, needle, q)
    ensures p > |data| ==> forall q :: start <= q ==> !OccursAt(data, needle, q)
  {
    p := start;
    while p + |needle| <= |data|
      invariant start <= p && forall q :: start <= q < p ==> !OccursAt(data, needle, q)
    {
      if data[p..p + |needle|] == needle { return; }
      p := p + 1;
    }
    p := if p <= |data| then |data| + 1 else p;
  }

  ghost predicate Hits(data: Bytes, needle: Bytes, offsets: seq<int>) {
    forall i :: 0 <= i < |offsets| ==> OccursAt(data, needle, offsets[i])
  }

  ghost predicate Apart(needle: Bytes, offsets: seq<int>) {
    forall i, j :: 0 <= i < j < |offsets| ==> offsets[i] + Stride(needle) <= offsets[j]
  }

  ghost predicate Within(needle: Bytes, offsets: seq<int>, p: int) {
    exists i :: 0 <= i < |offsets| && offsets[i] <= p < offsets[i] + Stride(needle)
  }

  ghost predicate CoversTo(data: Bytes, needle: Bytes, offsets: seq<int>, end: int) {
    forall p :: OccursAt(data, needle, p) && p < end ==> Within(needle, offsets, p)
  }

  /** The matches do not overlap, and every occurrence starts inside one of them. */
  ghost predicate Greedy(data: Bytes, needle: Bytes, offsets: seq<int>) {
    Hits(data, needle, offsets) && Apart(needle, offsets) && CoversTo(data, needle, offsets, |data| + 1)
  }

  lemma HitsMore(data: Bytes, needle: Bytes, offsets: seq<int>, p: int)
    requires Hits(data, needle, offsets) && OccursAt(data, needle, p)
    ensures Hits(data, needle, offsets + [p])
  {
    hide OccursAt;
    forall i | 0 <= i < |offsets + [p]| ensures OccursAt(data, needle, (offsets + [p])[i]) {
      if i < |offsets| { assert (offsets + [p])[i] == offsets[i]; }
    }
  }

  lemma ApartMore(needle: Bytes, offsets: seq<int>, p: int)
    requires Apart(needle, offsets) && forall i :: 0 <= i < |offsets| ==> offsets[i] + Stride(needle) <= p
    ensures Apart(needle, offsets + [p])
  {
    hide Stride;
  }

  lemma WithinMore(needle: Bytes, offsets: seq<int>, p: int, q: int)
    requires Within(needle, offsets, q) || p <= q < p + Stride(needle)
    ensures Within(needle, offsets + [p], q)
  {
    hide Stride;
    var more := offsets + [p];
    if Within(needle, offsets, q) {
      var i :| 0 <= i < |offsets| && offsets[i] <= q < offsets[i] + Stride(needle);
      assert more[i] == offsets[i];
    } else {
      assert more[|offsets|] == p;
    }
  }

  /** One more match found from where the last one ended. */
  lemma OneMore(data: Bytes, needle: Bytes, offsets: seq<int>, start: nat, p: nat)
    requires CoversTo(data, needle, offsets, start)
    requires start <= p && forall q :: start <= q < p ==> !OccursAt(data, needle, q)
    ensures CoversTo(data, needle, offsets + [p], p + Stride(needle))
  {
    hide OccursAt, Stride, Within;
    forall q | OccursAt(data, needle, q) && q < p + Stride(needle) ensures Within(needle, offsets + [p], q) {
      WithinMore(needle, offsets, p, q);
    }
  }

  method AllOccurrences(data: Bytes, needle: Bytes) returns (offsets: seq<int>)
    ensures Greedy(data, needle, offsets)
  {
    hide OccursAt, Stride, Hits, Apart, Within;
    NothingYet(data, needle);
    offsets := [];
    var start: nat := 0;
    while start <= |data|
      invariant Hits(data, needle, offsets) && Apart(needle, offsets) && CoversTo(data, needle, offsets, start)
      invariant forall i :: 0 <= i < |offsets| ==> offsets[i] + Stride(needle) <= start
      decreases |data| + 1 - start
    {
      var p := Find(data, needle, start);
      if p > |data| { return; }
      HitsMore(data, needle, offsets, p);
      ApartMore(needle, offsets, p);
      OneMore(data, needle, offsets, start, p);
      offsets := offsets + [p];
      start := p + Stride(needle);
    }
  }

  lemma NothingYet(data: Bytes, needle: Bytes)
    ensures Hits(data, needle, []) && Apart(needle, []) && CoversTo(data, needle, [], 0)
  {
  }

  ghost predicate AllReported(data: Bytes, needle: Bytes, offsets: seq<int>) {
    forall p :: OccursAt(data, needle, p) ==> p in offsets
  }

  ghost predicate NoOverlap(data: Bytes, needle: Bytes) {
    forall p, q :: OccursAt(data, needle, p) && OccursAt(data, needle, q) && p < q ==> p + Stride(needle) <= q
  }

  lemma SameStart(data: Bytes, needle: Bytes, offsets: seq<int>, p: int)
    requires Hits(data, needle, offsets) && NoOverlap(data, needle) && OccursAt(data, needle, p) && Within(needle, offsets, p)
    ensures p in offsets
  {
    hide OccursAt, Stride;
    var i :| 0 <= i < |offsets| && offsets[i] <= p < offsets[i] + Stride(needle);
    assert OccursAt(data, needle, offsets[i]);
  }

  lemma Spaced(needle: Bytes, offsets: seq<int>, p: int, q: int)
    requires Apart(needle, offsets) && p in offsets && q in offsets && p < q
    ensures p + Stride(needle) <= q
  {
    hide Stride;
    var i :| 0 <= i < |offsets| && offsets[i] == p;
    var j :| 0 <= j < |offsets| && offsets[j] == q;
    assert i < j ==> offsets[i] + Stride(needle) <= offsets[j];
    assert j < i ==> offsets[j] + Stride(needle) <= offsets[i];
  }

  /** All occurrences are reported exactly when no two of them overlap. */
  lemma EveryOccurrenceIff(data: Bytes, needle: Bytes, offsets: seq<int>)
    requires Greedy(data, needle, offsets)
    ensures AllReported(data, needle, offsets) <==> NoOverlap(data, needle)
  {
    OccurrencesInside(data, needle);
    hide OccursAt, Stride, Hits, Apart, Within;
    if AllReported(data, needle, offsets) {
      forall p, q | OccursAt(data, needle, p) && OccursAt(data, needle, q) && p < q ensures p + Stride(needle) <= q {
        Spaced(needle, offsets, p, q);
      }
    }
    if NoOverlap(data, needle) {
      forall p | OccursAt(data, needle, p) ensures p in offsets { SameStart(data, needle, offsets, p); }
    }
  }

  lemma OccurrencesInside(data: Bytes, needle: Bytes)
    ensures forall p :: OccursAt(data, needle, p) ==> 0 <= p <= |data|
  {
  }

  /** Three equal bytes hold a signal of two of them twice, and the second time is not reported. */
  lemma OverlapIsMissed(data: Bytes, needle: Bytes, offsets: seq<int>)
    requires data == [7, 7, 7] && needle == [7, 7] && Greedy(data, needle, offsets)
    ensures OccursAt(data, needle, 0) && OccursAt(data, needle, 1) && offsets == [0]
  {
    assert data[0..2] == needle && data[1..3] == needle;
    var one := [0];
    forall p | OccursAt(data, needle, p) && p < |data| + 1 ensures Within(needle, one, p) {
      assert one[0] <= p < one[0] + Stride(needle);
    }
    GreedyIsUnique(data, needle, offsets, one);
  }

  /** The reported offsets are determined by the bytes: the leftmost occurrence, the next one after its end, and so on. */
  lemma {:induction false} GreedyAgree(data: Bytes, needle: Bytes, a: seq<int>, b: seq<int>, k: nat)
    requires Greedy(data, needle, a) && Greedy(data, needle, b) && k <= |a| && k <= |b|
    ensures a[..k] == b[..k] && (|a| == k ==> |b| == k)
    decreases k
  {
    hide OccursAt, Greedy, CoversTo;
    if k > 0 {
      GreedyAgree(data, needle, a, b, k - 1);
      NextAgrees(data, needle, a, b, k - 1);
      NextAgrees(data, needle, b, a, k - 1);
    }
    if |a| == k < |b| { NextAgrees(data, needle, b, a, k); }
  }

  /** Where one list goes on, so does the other, and no later. */
  lemma NextAgrees(data: Bytes, needle: Bytes, a: seq<int>, b: seq<int>, k: nat)
    requires Greedy(data, needle, a) && Greedy(data, needle, b) && k < |a| && k <= |b| && a[..k] == b[..k]
    ensures k < |b| && b[k] <= a[k]
  {
    assert OccursAt(data, needle, a[k]) && a[k] < |data| + 1;
    forall j | 0 <= j < k ensures b[j] + Stride(needle) <= a[k] {
      assert a[j] == a[..k][j] && b[j] == b[..k][j];
    }
    var i :| 0 <= i < |b| && b[i] <= a[k] < b[i] + Stride(needle);
    if i > k { assert b[k] + Stride(needle) <= b[i]; }
  }

  lemma GreedyIsUnique(data: Bytes, needle: Bytes, a: seq<int>, b: seq<int>)
    requires Greedy(data, needle, a) && Greedy(data, needle, b)
    ensures a == b
  {
    hide Greedy;
    if |a| <= |b| { GreedyAgree(data, needle, a, b, |a|); } else { GreedyAgree(data, needle, b, a, |b|); }
  }

  /** An empty signal is reported at every offset, the end of the file included. */
  lemma EmptySignalIsEverywhere(data: Bytes, offsets: seq<int>)
    requires Greedy(data, [], offsets)
    ensures |offsets| == |data| + 1 && forall i :: 0 <= i < |offsets| ==> offsets[i] == i
  {
    var all := seq(|data| + 1, i => i);
    forall p | OccursAt(data, [], p) ensures Within([], all, p) { assert all[p] == p; }
    GreedyIsUnique(data, [], offsets, all);
  }

  /** What a plain signal contributes to a group is a strictly increasing stream. */
  lemma OccurrencesIncrease(data: Bytes, needle: Bytes, offsets: seq<int>)
    requires Greedy(data, needle, offsets)
    ensures forall i, j :: 0 <= i < j < |offsets| ==> offsets[i] < offsets[j]
  {
  }
}
