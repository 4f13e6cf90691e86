/**
 The conventions span map, what a fire is billed for it, and what is shipped to it.

 `parseConventions` scans headings outside code fences and gives every numbered one a span.
 `conventionsLoad` bills the union of the cited spans; `conventionsUnionText`, written separately, ships it.
 */
module Conventions {

  import opened Options
  import opened Texts

  // ----- one line

  /** `.` in the patterns stops at these. */
  predicate HasBreak(s: string) {
    exists i :: 0 <= i < |s| && (s[i] == '\r' || s[i] as int == 0x2028 || s[i] as int == 0x2029)
  }

  predicate IsDigit(c: char) { '0' <= c <= '9' }
  predicate IsLower(c: char) { 'a' <= c <= 'z' }
  predicate IsWord(c: char) { IsDigit(c) || IsLower(c) || 'A' <= c <= 'Z' || c == '_' }

  function RunLength(s: string, c: char): nat {
    if s != "" && s[0] == c then 1 + RunLength(s[1..], c) else 0
  }

  datatype Fence = Fence(ch: char, len: nat)

  /** The fence a line opens or closes, and whether nothing but space follows it. */
  function FenceLine(line: string): Option<(Fence, bool)> {
    var s := TrimStart(line);
    if s == "" || (s[0] != '`' && s[0] != '~') then None
    else
      var n := RunLength(s, s[0]);
      RunLengthBound(s, s[0]);
      if n < 3 || HasBreak(s[n..]) then None else Some((Fence(s[0], n), Blank(s[n..])))
  }

  lemma RunLengthBound(s: string, c: char)
    ensures RunLength(s, c) <= |s|
  {
  }

  /** Only a bare fence of the same character, at least as long, closes an open one. */
  function FenceStep(fence: Option<Fence>, line: string): Option<Fence> {
    match FenceLine(line)
    case None => fence
    case Some((f, bare)) =>
      if fence.None? then Some(f)
      else if f.ch == fence.value.ch && f.len >= fence.value.len && bare then None
      else fence
  }

  function DigitRun(s: string): (n: nat)
    ensures n <= |s|
  {
    if s != "" && IsDigit(s[0]) then 1 + DigitRun(s[1..]) else 0
  }

  /** /^(\d+[a-z]?)\. / */
  function AnchorOf(title: string): Option<string> {
    var d := DigitRun(title);
    var n := if d < |title| && IsLower(title[d]) then d + 1 else d;
    if d > 0 && ". " <= title[n..] then Some(title[..n]) else None
  }

  /** /^Topology at a glance\b/ */
  predicate IsTopology(title: string) {
    var t := "Topology at a glance";
    t <= title && (|title| == |t| || !IsWord(title[|t|]))
  }

  /** 2 or 3 for a line that starts like a second or third level heading, else 0 */
  function HeadingLevel(line: string): (n: nat)
    ensures n == 0 || ((n == 2 || n == 3) && n < |line|)
  {
    if "## " <= line then 2 else if "### " <= line then 3 else 0
  }

  // ----- headings

  datatype Head = Head(idx: nat, level: nat, anchor: Option<string>, topology: bool)

  /** The heading on a line outside fences: /^(#{2,3}) (.+)$/ */
  function HeadOf(line: string, idx: nat): Option<Head> {
    var n := HeadingLevel(line);
    if n == 0 || |line| == n + 1 || HasBreak(line[n + 1..]) then None
    else Some(Head(idx, n, AnchorOf(line[n + 1..]), IsTopology(line[n + 1..])))
  }

  /** The fence that is open before line n. */
  function FenceAt(lines: seq<string>, n: nat): Option<Fence>
    requires n <= |lines|
  {
    if n == 0 then None else FenceStep(FenceAt(lines, n - 1), lines[n - 1])
  }

  predicate OutsideFence(lines: seq<string>, n: nat)
    requires n < |lines|
  {
    FenceAt(lines, n).None? && FenceLine(lines[n]).None?
  }

  /** The headings among the first n lines. */
  function Heads(lines: seq<string>, n: nat): seq<Head>
    requires n <= |lines|
  {
    if n == 0 then []
    else
      var h := HeadOf(lines[n - 1], n - 1);
      Heads(lines, n - 1) + if OutsideFence(lines, n - 1) && h.Some? then [h.value] else []
  }

  ghost predicate InOrder(heads: seq<Head>, n: nat) {
    && (forall k :: 0 <= k < |heads| ==> heads[k].idx < n && (heads[k].level == 2 || heads[k].level == 3))
    && (forall k :: 0 <= k < |heads| ==> !(heads[k].topology && heads[k].anchor.Some?))
    && (forall j, k :: 0 <= j < k < |heads| ==> heads[j].idx < heads[k].idx)
  }

  lemma TopologyIsUnnumbered(title: string)
    requires IsTopology(title)
    ensures AnchorOf(title).None?
  {
    assert title[0] == 'T';
  }

  lemma HeadShape(line: string, idx: nat)
    requires HeadOf(line, idx).Some?
    ensures
      var h := HeadOf(line, idx).value;
      h.idx == idx && (h.level == 2 || h.level == 3) && !(h.topology && h.anchor.Some?)
  {
    var title := line[HeadingLevel(line) + 1..];
    if IsTopology(title) { TopologyIsUnnumbered(title); }
  }

  lemma InOrderAppend(heads: seq<Head>, h: Head)
    requires InOrder(heads, h.idx) && (h.level == 2 || h.level == 3) && !(h.topology && h.anchor.Some?)
    ensures InOrder(heads + [h], h.idx + 1)
  {
  }

  lemma {:induction false} HeadsInOrder(lines: seq<string>, n: nat)
    requires n <= |lines|
    ensures InOrder(Heads(lines, n), n)
  {
    if n > 0 {
      HeadsInOrder(lines, n - 1);
      var before := Heads(lines, n - 1);
      var h := HeadOf(lines[n - 1], n - 1);
      if OutsideFence(lines, n - 1) && h.Some? {
        HeadShape(lines[n - 1], n - 1);
        InOrderAppend(before, h.value);
      } else {
        assert before + [] == before;
      }
    }
  }

  // ----- spans

  /** Inclusive line indices; end is start - 1 for an empty span. */
  datatype Span = Span(start: int, end: int)

  predicate In(i: int, s: Span) { s.start <= i <= s.end }

  /** A heading t after h ends h's span: the Topology block, or a numbered heading no deeper than h. */
  predicate Ends(h: Head, t: Head) {
    t.idx > h.idx && (t.topology || (t.anchor.Some? && t.level <= h.level))
  }

  function SpanEnd(heads: seq<Head>, h: Head, n: nat, j: nat): int
    requires j <= |heads|
    decreases |heads| - j
  {
    if j == |heads| then n - 1 else if Ends(h, heads[j]) then heads[j].idx - 1 else SpanEnd(heads, h, n, j + 1)
  }

  function SpanOf(heads: seq<Head>, h: Head, n: nat): Span {
    Span(h.idx, SpanEnd(heads, h, n, 0))
  }

  datatype Section = Section(level: nat, span: Span)
  datatype Spans = Spans(anchors: map<string, Section>, preamble: Span, topology: Span)

  /** Later headings replace earlier ones with the same anchor. */
  function Anchors(heads: seq<Head>, n: nat, k: nat): map<string, Section>
    requires k <= |heads|
  {
    if k == 0 then map[]
    else
      var h := heads[k - 1];
      var rest := Anchors(heads, n, k - 1);
      if h.anchor.Some? then rest[h.anchor.value := Section(h.level, SpanOf(heads, h, n))] else rest
  }

  function FirstNumbered(heads: seq<Head>, k: nat): Option<Head>
    requires k <= |heads|
    decreases |heads| - k
  {
    if k == |heads| then None else if heads[k].anchor.Some? then Some(heads[k]) else FirstNumbered(heads, k + 1)
  }

  function FirstTopology(heads: seq<Head>, k: nat): Option<Head>
    requires k <= |heads|
    decreases |heads| - k
  {
    if k == |heads| then None else if heads[k].topology then Some(heads[k]) else FirstTopology(heads, k + 1)
  }

  /** None is the error "numbered anchors or the Topology block not found". */
  function Parse(lines: seq<string>): Option<Spans> {
    var heads := Heads(lines, |lines|);
    var first := FirstNumbered(heads, 0);
    var topo := FirstTopology(heads, 0);
    if first.None? || topo.None? then None
    else Some(Spans(Anchors(heads, |lines|, |heads|), Span(0, first.value.idx - 1), SpanOf(heads, topo.value, |lines|)))
  }

  method ParseConventions(lines: seq<string>) returns (r: Option<Spans>)
    ensures r == Parse(lines)
  {
    var heads: seq<Head> := [];
    var fence: Option<Fence> := None;
    for i := 0 to |lines|
      invariant heads == Heads(lines, i) && fence == FenceAt(lines, i)
    {
      var f := FenceLine(lines[i]);
      if f.Some? {
        var (marker, bare) := f.value;
        if fence.None? {
          fence := Some(marker);
        } else if marker.ch == fence.value.ch && marker.len >= fence.value.len && bare {
          fence := None;
        }
        continue;
      }
      if fence.Some? { continue; }
      var h := HeadOf(lines[i], i);
      if h.None? { continue; }
      heads := heads + [h.value];
    }
    var first := FirstNumbered(heads, 0);
    var topo := FirstTopology(heads, 0);
    if first.None? || topo.None? { return None; }
    var anchors: map<string, Section> := map[];
    for k := 0 to |heads|
      invariant anchors == Anchors(heads, |lines|, k)
    {
      var h := heads[k];
      if h.anchor.Some? {
        var end := FindSpanEnd(heads, h, |lines|);
        anchors := anchors[h.anchor.value := Section(h.level, Span(h.idx, end))];
      }
    }
    var end := FindSpanEnd(heads, topo.value, |lines|);
    return Some(Spans(anchors, Span(0, first.value.idx - 1), Span(topo.value.idx, end)));
  }

  method FindSpanEnd(heads: seq<Head>, h: Head, n: nat) returns (end: int)
    ensures end == SpanEnd(heads, h, n, 0)
  {
    for j := 0 to |heads|
      invariant SpanEnd(heads, h, n, 0) == SpanEnd(heads, h, n, j)
    {
      if heads[j].idx <= h.idx { continue; }
      if heads[j].topology || (heads[j].anchor.Some? && heads[j].level <= h.level) { return heads[j].idx - 1; }
    }
    return n - 1;
  }

  // ----- spans nest or are disjoint

  lemma {:induction false} SpanEndIsFirst(heads: seq<Head>, h: Head, n: nat, j: nat)
    requires InOrder(heads, n) && j <= |heads| && h.idx < n
    requires forall k :: 0 <= k < j ==> !Ends(h, heads[k])
    ensures forall k :: 0 <= k < |heads| && Ends(h, heads[k]) ==> SpanEnd(heads, h, n, j) < heads[k].idx
    ensures SpanEnd(heads, h, n, j) == n - 1 || exists k :: 0 <= k < |heads| && Ends(h, heads[k]) && SpanEnd(heads, h, n, j) == heads[k].idx - 1
    ensures h.idx <= SpanEnd(heads, h, n, j) < n
    decreases |heads| - j
  {
    if j < |heads| && !Ends(h, heads[j]) { SpanEndIsFirst(heads, h, n, j + 1); }
  }

  /** a before b in the file: b starts after a's span, or b's span lies inside it. */
  lemma NestOrDisjoint(heads: seq<Head>, n: nat, a: nat, b: nat)
    requires InOrder(heads, n) && a < b < |heads| && (heads[b].anchor.Some? || heads[b].topology)
    ensures SpanOf(heads, heads[a], n).end < heads[b].idx || SpanOf(heads, heads[b], n).end <= SpanOf(heads, heads[a], n).end
  {
    SpanEndIsFirst(heads, heads[a], n, 0);
    SpanEndIsFirst(heads, heads[b], n, 0);
    if heads[b].idx <= SpanOf(heads, heads[a], n).end {
      assert !Ends(heads[a], heads[b]);
      if k :| 0 <= k < |heads| && Ends(heads[a], heads[k]) && SpanOf(heads, heads[a], n).end == heads[k].idx - 1 {
        assert Ends(heads[b], heads[k]);
      }
    }
  }

  ghost predicate Laminar(s: Span, t: Span) {
    s.end < t.start || t.end < s.start || (s.start <= t.start && t.end <= s.end) || (t.start <= s.start && s.end <= t.end)
  }

  ghost predicate IsSectionSpan(c: Spans, s: Span) {
    s == c.topology || exists a :: a in c.anchors && s == c.anchors[a].span
  }

  lemma {:induction false} AnchorsAreHeads(heads: seq<Head>, n: nat, k: nat, a: string)
    requires k <= |heads| && a in Anchors(heads, n, k)
    ensures exists j :: 0 <= j < k && heads[j].anchor == Some(a) && Anchors(heads, n, k)[a].span == SpanOf(heads, heads[j], n)
  {
    if heads[k - 1].anchor != Some(a) { AnchorsAreHeads(heads, n, k - 1, a); }
  }

  lemma {:induction false} FirstTopologyIsHead(heads: seq<Head>, k: nat)
    requires k <= |heads| && FirstTopology(heads, k).Some?
    ensures exists j :: k <= j < |heads| && heads[j].topology && FirstTopology(heads, k) == Some(heads[j])
    decreases |heads| - k
  {
    if !heads[k].topology { FirstTopologyIsHead(heads, k + 1); }
  }

  lemma SectionSpanIsHead(lines: seq<string>, c: Spans, s: Span) returns (j: nat)
    requires Parse(lines) == Some(c) && IsSectionSpan(c, s)
    ensures
      var heads := Heads(lines, |lines|);
      j < |heads| && (heads[j].anchor.Some? || heads[j].topology) && s == SpanOf(heads, heads[j], |lines|)
  {
    var heads := Heads(lines, |lines|);
    if s == c.topology {
      FirstTopologyIsHead(heads, 0);
      j :| 0 <= j < |heads| && heads[j].topology && FirstTopology(heads, 0) == Some(heads[j]);
    } else {
      var a :| a in c.anchors && s == c.anchors[a].span;
      AnchorsAreHeads(heads, |lines|, |heads|, a);
      j :| 0 <= j < |heads| && heads[j].anchor == Some(a) && s == SpanOf(heads, heads[j], |lines|);
    }
  }

  /** Any two section spans of a file nest or are disjoint. */
  lemma SectionSpansAreLaminar(lines: seq<string>, c: Spans, s: Span, t: Span)
    requires Parse(lines) == Some(c) && IsSectionSpan(c, s) && IsSectionSpan(c, t)
    ensures Laminar(s, t)
  {
    var heads := Heads(lines, |lines|);
    HeadsInOrder(lines, |lines|);
    var a := SectionSpanIsHead(lines, c, s);
    var b := SectionSpanIsHead(lines, c, t);
    if a < b { NestOrDisjoint(heads, |lines|, a, b); }
    if b < a { NestOrDisjoint(heads, |lines|, b, a); }
  }

  // ----- the spans cover the file

  ghost predicate DistinctAnchors(heads: seq<Head>) {
    forall j, k :: 0 <= j < k < |heads| && heads[j].anchor.Some? ==> heads[j].anchor != heads[k].anchor
  }

  ghost predicate OneTopology(heads: seq<Head>) {
    forall j, k :: 0 <= j < k < |heads| ==> !(heads[j].topology && heads[k].topology)
  }

  lemma {:induction false} DistinctAnchorsAreKept(heads: seq<Head>, n: nat, k: nat, j: nat)
    requires j < k <= |heads| && DistinctAnchors(heads) && heads[j].anchor.Some?
    ensures heads[j].anchor.value in Anchors(heads, n, k)
    ensures Anchors(heads, n, k)[heads[j].anchor.value].span == SpanOf(heads, heads[j], n)
  {
    if j < k - 1 { DistinctAnchorsAreKept(heads, n, k - 1, j); }
  }

  lemma {:induction false} FirstNumberedIsFirst(heads: seq<Head>, k: nat)
    requires k <= |heads| && FirstNumbered(heads, k).Some?
    ensures exists j :: k <= j < |heads| && FirstNumbered(heads, k) == Some(heads[j]) && heads[j].anchor.Some?
              && forall i :: k <= i < j ==> heads[i].anchor.None?
    decreases |heads| - k
  {
    if heads[k].anchor.None? { FirstNumberedIsFirst(heads, k + 1); }
  }

  /** The last numbered or Topology heading at or above line i. */
  lemma {:induction false} LastAtOrAbove(heads: seq<Head>, n: nat, i: nat, k: nat) returns (j: nat)
    requires InOrder(heads, n) && k < |heads| && heads[k].idx <= i && (heads[k].anchor.Some? || heads[k].topology)
    ensures j < |heads| && heads[j].idx <= i && (heads[j].anchor.Some? || heads[j].topology)
    ensures forall m :: j < m < |heads| && heads[m].idx <= i ==> heads[m].anchor.None? && !heads[m].topology
    decreases |heads| - k
  {
    if m :| k < m < |heads| && heads[m].idx <= i && (heads[m].anchor.Some? || heads[m].topology) {
      j := LastAtOrAbove(heads, n, i, m);
    } else {
      j := k;
    }
  }

  /** A numbered or Topology heading with no other such heading between it and line i has i in its span. */
  lemma LastSpanHolds(heads: seq<Head>, n: nat, i: nat, j: nat)
    requires InOrder(heads, n) && i < n && j < |heads| && heads[j].idx <= i
    requires forall m :: j < m < |heads| && heads[m].idx <= i ==> heads[m].anchor.None? && !heads[m].topology
    ensures In(i, SpanOf(heads, heads[j], n))
  {
    SpanEndIsFirst(heads, heads[j], n, 0);
    if k :| 0 <= k < |heads| && Ends(heads[j], heads[k]) && SpanEnd(heads, heads[j], n, 0) == heads[k].idx - 1 {
      assert j < k;
    }
  }

  lemma HeadSpanIsKept(lines: seq<string>, c: Spans, j: nat)
    requires Parse(lines) == Some(c) && j < |Heads(lines, |lines|)|
    requires DistinctAnchors(Heads(lines, |lines|)) && OneTopology(Heads(lines, |lines|))
    requires Heads(lines, |lines|)[j].anchor.Some? || Heads(lines, |lines|)[j].topology
    ensures IsSectionSpan(c, SpanOf(Heads(lines, |lines|), Heads(lines, |lines|)[j], |lines|))
  {
    var heads := Heads(lines, |lines|);
    if heads[j].anchor.Some? {
      DistinctAnchorsAreKept(heads, |lines|, |heads|, j);
    } else {
      FirstTopologyIsHead(heads, 0);
      var t :| 0 <= t < |heads| && heads[t].topology && FirstTopology(heads, 0) == Some(heads[t]);
      assert t == j;
    }
  }

  /** With distinct anchors and one Topology block every line is in the preamble or in a section span. */
  lemma SectionSpansCover(lines: seq<string>, c: Spans, i: nat)
    requires Parse(lines) == Some(c) && i < |lines|
    requires DistinctAnchors(Heads(lines, |lines|)) && OneTopology(Heads(lines, |lines|))
    ensures In(i, c.preamble) || exists s :: IsSectionSpan(c, s) && In(i, s)
  {
    var heads := Heads(lines, |lines|);
    HeadsInOrder(lines, |lines|);
    FirstNumberedIsFirst(heads, 0);
    var k :| 0 <= k < |heads| && FirstNumbered(heads, 0) == Some(heads[k]) && heads[k].anchor.Some?;
    if heads[k].idx <= i {
      var j := LastAtOrAbove(heads, |lines|, i, k);
      LastSpanHolds(heads, |lines|, i, j);
      HeadSpanIsKept(lines, c, j);
    }
  }
}
