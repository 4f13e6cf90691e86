/**
 Attaching line and column to findings.  `_attach_locations` sweeps the distinct offsets once in increasing
 order; `_location` counts from the start of the file every time.  The sweep must agree with the count.
 */
module Locations {

  type Bytes = seq<int>

  const NEWLINE: int := 10

  datatype Finding = Finding(rule: string, offset: int, line: int, column: int)

  // ----- the naive definition

  /** data.count(b"\n", lo, hi) */
  function CountNewlines(data: Bytes, lo: nat, hi: nat): nat
    requires lo <= hi <= |data|
    decreases hi - lo
  {
    if lo == hi then 0 else CountNewlines(data, lo, hi - 1) + if data[hi - 1] == NEWLINE then 1 else 0
  }

  /** data.rfind(b"\n", lo, hi), -1 when there is none */
  function LastNewline(data: Bytes, lo: nat, hi: nat): (r: int)
    requires lo <= hi <= |data|
    ensures -1 <= r < hi
    ensures r >= 0 ==> lo <= r && data[r] == NEWLINE
    ensures forall k :: lo <= k < hi && r < k ==> data[k] != NEWLINE
    decreases hi - lo
  {
    if lo == hi then -1 else if data[hi - 1] == NEWLINE then hi - 1 else LastNewline(data, lo, hi - 1)
  }

  function Location(data: Bytes, offset: nat): (int, int)
    requires offset <= |data|
  {
    (CountNewlines(data, 0, offset) + 1, offset - LastNewline(data, 0, offset))
  }

  ghost function Newlines(data: Bytes, lo: nat, hi: nat): set<nat>
    requires lo <= hi <= |data|
  {
    set k: nat | lo <= k < hi && data[k] == NEWLINE
  }

  lemma {:induction false} CountIs(data: Bytes, lo: nat, hi: nat)
    requires lo <= hi <= |data|
    ensures CountNewlines(data, lo, hi) == |Newlines(data, lo, hi)|
    decreases hi
  {
    if lo < hi {
      var k: nat := hi - 1;
      CountIs(data, lo, k);
      assert Newlines(data, lo, hi) == Newlines(data, lo, k) + if data[k] == NEWLINE then {k} else {};
    }
  }

  /** The line is one more than the newlines before the offset; the column counts from the last of them, or the start. */
  lemma LocationIs(data: Bytes, offset: nat)
    requires offset <= |data|
    ensures
      var (line, column) := Location(data, offset);
      && line == 1 + |Newlines(data, 0, offset)| && 1 <= column <= offset + 1
      && (column <= offset ==> data[offset - column] == NEWLINE)
      && forall k :: offset - column < k < offset ==> data[k] != NEWLINE
  {
    CountIs(data, 0, offset);
  }

  function Clamp(offset: int, length: nat): (r: nat)
    ensures r <= length && (0 <= offset <= length ==> r == offset)
  {
    if offset < 0 then 0 else if offset > length then length else offset
  }

  // ----- the incremental sweep

  ghost predicate Increasing(xs: seq<int>) {
    forall i, j :: 0 <= i < j < |xs| ==> xs[i] < xs[j]
  }

  /** sorted({finding.offset for finding in findings}) */
  method SortedOffsets(findings: seq<Finding>) returns (xs: seq<int>)
    ensures Increasing(xs)
    ensures forall x :: x in xs <==> exists f :: f in findings && f.offset == x
  {
    xs := [];
    for i := 0 to |findings|
      invariant Increasing(xs)
      invariant forall x :: x in xs <==> exists f :: f in findings[..i] && f.offset == x
    {
      assert findings[..i + 1] == findings[..i] + [findings[i]];
      xs := Insert(xs, findings[i].offset);
    }
    assert findings[..|findings|] == findings;
  }

  method Insert(xs: seq<int>, x: int) returns (ys: seq<int>)
    requires Increasing(xs)
    ensures Increasing(ys) && forall y :: y in ys <==> y in xs || y == x
  {
    var i := 0;
    while i < |xs| && xs[i] < x
      invariant 0 <= i <= |xs| && forall j :: 0 <= j < i ==> xs[j] < x
    {
      i := i + 1;
    }
    if i < |xs| && xs[i] == x { return xs; }
    ys := xs[..i] + [x] + xs[i..];
    assert xs == xs[..i] + xs[i..];
  }

  lemma {:induction false} CountSplits(data: Bytes, lo: nat, mid: nat, hi: nat)
    requires lo <= mid <= hi <= |data|
    ensures CountNewlines(data, lo, hi) == CountNewlines(data, lo, mid) + CountNewlines(data, mid, hi)
    decreases hi
  {
    if mid < hi { CountSplits(data, lo, mid, hi - 1); }
  }

  lemma {:induction false} LastSplits(data: Bytes, mid: nat, hi: nat)
    requires mid <= hi <= |data|
    ensures LastNewline(data, 0, hi) ==
            if LastNewline(data, mid, hi) >= 0 then LastNewline(data, mid, hi) else LastNewline(data, 0, mid)
    decreases hi
  {
    if mid < hi && data[hi - 1] != NEWLINE { LastSplits(data, mid, hi - 1); }
  }

  /**
   Whatever the order, duplicates or range of the offsets, every finding gets the naive location of its
   clamped offset, and nothing else about it changes.
   */
  method AttachLocations(data: Bytes, findings: seq<Finding>) returns (located: seq<Finding>)
    ensures |located| == |findings|
    ensures forall k :: 0 <= k < |findings| ==>
              var (line, column) := Location(data, Clamp(findings[k].offset, |data|));
              located[k] == findings[k].(line := line, column := column)
  {
    var locations: map<int, (int, int)> := map[];
    var cursor, line, lineStart := 0, 1, 0;
    var offsets := SortedOffsets(findings);
    for i := 0 to |offsets|
      invariant 0 <= cursor <= |data|
      invariant forall j :: i <= j < |offsets| ==> cursor <= Clamp(offsets[j], |data|)
      invariant line == CountNewlines(data, 0, cursor) + 1
      invariant lineStart == LastNewline(data, 0, cursor) + 1
      invariant forall j :: 0 <= j < i ==>
                  offsets[j] in locations && locations[offsets[j]] == Location(data, Clamp(offsets[j], |data|))
    {
      var offset := Clamp(offsets[i], |data|);
      CountSplits(data, 0, cursor, offset);
      LastSplits(data, cursor, offset);
      line := line + CountNewlines(data, cursor, offset);
      var lastNewline := LastNewline(data, cursor, offset);
      if lastNewline >= 0 { lineStart := lastNewline + 1; }
      locations := locations[offsets[i] := (line, offset - lineStart + 1)];
      cursor := offset;
    }
    located := [];
    for k := 0 to |findings|
      invariant |located| == k
      invariant forall j :: 0 <= j < k ==>
                  var (l, c) := Location(data, Clamp(findings[j].offset, |data|));
                  located[j] == findings[j].(line := l, column := c)
    {
      assert findings[k] in findings;
      assert findings[k].offset in offsets;
      var (l, c) := locations[findings[k].offset];
      located := located + [findings[k].(line := l, column := c)];
    }
  }

  /** A location names one position: no two positions of a file share line and column. */
  lemma LocationsAreDistinct(data: Bytes, a: nat, b: nat)
    requires a < b <= |data|
    ensures Location(data, a) != Location(data, b)
    ensures Location(data, a).0 < Location(data, b).0 || (Location(data, a).0 == Location(data, b).0 && Location(data, a).1 < Location(data, b).1)
  {
    CountSplits(data, 0, a, b);
    LastSplits(data, a, b);
    if LastNewline(data, a, b) >= 0 {
      var n := LastNewline(data, a, b);
      CountSplits(data, a, n + 1, b);
    }
  }
}
