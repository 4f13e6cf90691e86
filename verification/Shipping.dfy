/**
 The bill and the shipment.  `conventionsLoad` and `conventionsUnionText` each mark a covered array and walk
 the lines with a loop of their own; the bytes billed must be the bytes shipped.
 */
module Shipping {

  import opened Options
  import opened Sequences
  import opened Texts
  import opened Conventions

  datatype Measure = Measure(lines: nat, bytes: nat)

  // ----- line accounting

  /** Every physical line costs its bytes and one for its newline. */
  function LineBytes(lines: seq<string>): nat {
    if lines == [] then 0 else Utf8Bytes(lines[0]) + 1 + LineBytes(lines[1..])
  }

  function SplitLines(text: string): seq<string> {
    var ls := Split(text, '\n');
    if ls[|ls| - 1] == "" then ls[..|ls| - 1] else ls
  }

  lemma {:induction false} LineBytesAppend(a: seq<string>, b: seq<string>)
    ensures LineBytes(a + b) == LineBytes(a) + LineBytes(b)
    decreases |a|
  {
    if a == [] {
      assert a + b == b;
    } else {
      assert (a + b)[1..] == a[1..] + b;
      LineBytesAppend(a[1..], b);
    }
  }

  lemma {:induction false} LineBytesLast(ls: seq<string>)
    requires ls != []
    ensures LineBytes(ls) == LineBytes(ls[..|ls| - 1]) + Utf8Bytes(ls[|ls| - 1]) + 1
    decreases |ls|
  {
    if |ls| > 1 {
      LineBytesLast(ls[1..]);
      assert ls[1..][..|ls| - 2] == ls[..|ls| - 1][1..];
    }
  }

  lemma {:induction false} SplitBytes(text: string)
    ensures LineBytes(Split(text, '\n')) == Utf8Bytes(text) + 1
    decreases |text|
  {
    if text != "" {
      SplitBytes(text[1..]);
      var parts, rest := Split(text, '\n'), Split(text[1..], '\n');
      assert parts == if text[0] == '\n' then [""] + rest else [[text[0]] + rest[0]] + rest[1..];
      assert parts[1..] == if text[0] == '\n' then rest else rest[1..];
      hide Split;
    }
  }

  lemma {:induction false} SplitEnds(text: string)
    ensures
      var parts := Split(text, '\n');
      (parts[|parts| - 1] == "" <==> text == "" || text[|text| - 1] == '\n') && (|parts| == 1 ==> parts[0] == text)
    decreases |text|
  {
    if text != "" {
      SplitEnds(text[1..]);
      var parts, rest := Split(text, '\n'), Split(text[1..], '\n');
      assert parts == if text[0] == '\n' then [""] + rest else [[text[0]] + rest[0]] + rest[1..];
      assert |rest| == 1 && text[0] != '\n' ==> parts[0] == [text[0]] + text[1..] == text;
      assert parts[|parts| - 1] == if |parts| == |rest| == 1 then parts[0] else rest[|rest| - 1];
      assert |text| > 1 ==> text[1..][|text| - 2] == text[|text| - 1];
      hide Split;
    }
  }

  /** The measure of a file is its size exactly when it is empty or ends with a newline, one more otherwise. */
  lemma MeasureIsFileSize(text: string)
    ensures LineBytes(SplitLines(text)) == Utf8Bytes(text) + if text == "" || text[|text| - 1] == '\n' then 0 else 1
  {
    SplitBytes(text);
    SplitEnds(text);
    LineBytesLast(Split(text, '\n'));
  }

  // ----- the generator-owned block of a skill file

  predicate IsHandle(s: string) {
    s != "" && IsLower(s[0]) && forall i :: 1 <= i < |s| ==> IsLower(s[i]) || s[i] == '-'
  }

  /** The whole line is the marker gen-cheatsheets emits, naming one agent. */
  predicate IsMarker(line: string, kind: string) {
    var head := "<!-- cli-cheatsheet:" + kind + " agent=";
    && |head| + 4 <= |line| && head <= line && line[|line| - 4..] == " -->"
    && IsHandle(line[|head|..|line| - 4])
  }

  /** The indices among the first n lines that carry the marker. */
  function MarkersAt(lines: seq<string>, kind: string, n: nat): (r: seq<nat>)
    requires n <= |lines|
    ensures forall k :: 0 <= k < |r| ==> r[k] < n && IsMarker(lines[r[k]], kind)
    ensures forall i :: 0 <= i < n && IsMarker(lines[i], kind) ==> i in r
  {
    if n == 0 then [] else MarkersAt(lines, kind, n - 1) + if IsMarker(lines[n - 1], kind) then [n - 1] else []
  }

  datatype SkillParts = Duplicate | Unbalanced | Parts(prose: seq<string>, cheat: seq<string>)

  function CutBlock(lines: seq<string>, begins: seq<nat>, ends: seq<nat>): SkillParts
    requires forall k :: 0 <= k < |begins| ==> begins[k] < |lines|
    requires forall k :: 0 <= k < |ends| ==> ends[k] < |lines|
  {
    if |begins| > 1 || |ends| > 1 then Duplicate
    else if |begins| != |ends| || (|begins| == 1 && ends[0] < begins[0]) then Unbalanced
    else if begins == [] then Parts(lines, [])
    else Parts(lines[..begins[0]] + lines[ends[0] + 1..], lines[begins[0]..ends[0] + 1])
  }

  function SplitSkill(lines: seq<string>): SkillParts {
    CutBlock(lines, MarkersAt(lines, "begin", |lines|), MarkersAt(lines, "end", |lines|))
  }

  lemma CutBytes(lines: seq<string>, prose: seq<string>, x: seq<string>, y: seq<string>, z: seq<string>)
    requires lines == x + (y + z) && prose == x + z
    ensures LineBytes(prose) + LineBytes(y) == LineBytes(lines)
  {
    LineBytesAppend(x, y + z);
    LineBytesAppend(y, z);
    LineBytesAppend(x, z);
  }

  lemma CutBlockParts(lines: seq<string>, begins: seq<nat>, ends: seq<nat>)
    returns (x: seq<string>, y: seq<string>, z: seq<string>)
    requires forall k :: 0 <= k < |begins| ==> begins[k] < |lines|
    requires forall k :: 0 <= k < |ends| ==> ends[k] < |lines|
    requires CutBlock(lines, begins, ends).Parts?
    ensures lines == x + (y + z) && CutBlock(lines, begins, ends) == Parts(x + z, y)
  {
    if begins == [] {
      x, y, z := lines, [], [];
    } else {
      x, y, z := lines[..begins[0]], lines[begins[0]..ends[0] + 1], lines[ends[0] + 1..];
    }
  }

  /** A split file is measured whole: no byte of it is billed twice or not at all. */
  lemma SplitSkillConserves(lines: seq<string>)
    requires SplitSkill(lines).Parts?
    ensures LineBytes(SplitSkill(lines).prose) + LineBytes(SplitSkill(lines).cheat) == LineBytes(lines)
  {
    var x, y, z := CutBlockParts(lines, MarkersAt(lines, "begin", |lines|), MarkersAt(lines, "end", |lines|));
    CutBytes(lines, SplitSkill(lines).prose, x, y, z);
  }

  lemma CutBlockKeeps(lines: seq<string>, begins: seq<nat>, ends: seq<nat>, k: nat) returns (i: nat)
    requires forall k :: 0 <= k < |begins| ==> begins[k] < |lines|
    requires forall k :: 0 <= k < |ends| ==> ends[k] < |lines|
    requires CutBlock(lines, begins, ends).Parts? && k < |CutBlock(lines, begins, ends).prose|
    ensures i < |lines| && CutBlock(lines, begins, ends).prose[k] == lines[i] && i !in begins && i !in ends
  {
    i := if begins == [] || k < begins[0] then k else k - begins[0] + ends[0] + 1;
  }

  /** No marker line is left in the prose. */
  lemma ProseHasNoMarkers(lines: seq<string>, k: nat)
    requires SplitSkill(lines).Parts? && k < |SplitSkill(lines).prose|
    ensures !IsMarker(SplitSkill(lines).prose[k], "begin") && !IsMarker(SplitSkill(lines).prose[k], "end")
  {
    var i := CutBlockKeeps(lines, MarkersAt(lines, "begin", |lines|), MarkersAt(lines, "end", |lines|), k);
  }

  // ----- coverage

  ghost predicate Known(c: Spans, anchors: seq<string>) {
    forall k :: 0 <= k < |anchors| ==> anchors[k] in c.anchors
  }

  ghost predicate Covered(c: Spans, anchors: seq<string>, i: int) {
    || In(i, c.preamble) || In(i, c.topology)
    || exists k :: 0 <= k < |anchors| && anchors[k] in c.anchors && In(i, c.anchors[anchors[k]].span)
  }

  /** The covered array: which of the n lines are covered. */
  ghost function CoverageOf(c: Spans, anchors: seq<string>, n: nat): (cov: seq<bool>)
    ensures |cov| == n && forall i :: 0 <= i < n ==> cov[i] == Covered(c, anchors, i)
  {
    seq(n, i => Covered(c, anchors, i))
  }

  /** The covered line numbers from i on, in file order. */
  function Kept(cov: seq<bool>, i: nat): (r: seq<nat>)
    requires i <= |cov|
    ensures forall k :: 0 <= k < |r| ==> i <= r[k] < |cov|
    decreases |cov| - i
  {
    if i == |cov| then [] else (if cov[i] then [i] else []) + Kept(cov, i + 1)
  }

  function BytesAt(lines: seq<string>, picks: seq<nat>): nat
    requires forall k :: 0 <= k < |picks| ==> picks[k] < |lines|
  {
    if picks == [] then 0 else Utf8Bytes(lines[picks[0]]) + 1 + BytesAt(lines, picks[1..])
  }

  /** Kept is exactly the covered lines, once each and increasing. */
  lemma {:induction false} KeptIsCovered(cov: seq<bool>, i: nat)
    requires i <= |cov|
    ensures forall k :: 0 <= k < |Kept(cov, i)| ==> cov[Kept(cov, i)[k]]
    ensures forall j, k :: 0 <= j < k < |Kept(cov, i)| ==> Kept(cov, i)[j] < Kept(cov, i)[k]
    ensures forall m :: i <= m < |cov| && cov[m] ==> m in Kept(cov, i)
    decreases |cov| - i
  {
    if i < |cov| { KeptIsCovered(cov, i + 1); }
  }

  method Mark(covered: array<bool>, s: Span)
    requires 0 <= s.start && s.end < covered.Length
    modifies covered
    ensures forall i :: 0 <= i < covered.Length ==> covered[i] == (old(covered[i]) || In(i, s))
  {
    var i := s.start;
    while i <= s.end
      invariant s.start <= i && (i <= s.end + 1 || i == s.start)
      invariant forall j :: 0 <= j < covered.Length ==> covered[j] == (old(covered[j]) || (In(j, s) && j < i))
    {
      covered[i] := true;
      i := i + 1;
    }
  }

  lemma {:induction false} AnchorSpansInside(heads: seq<Head>, n: nat, k: nat, a: string)
    requires InOrder(heads, n) && k <= |heads| && a in Anchors(heads, n, k)
    ensures 0 <= Anchors(heads, n, k)[a].span.start && Anchors(heads, n, k)[a].span.end < n
  {
    AnchorsAreHeads(heads, n, k, a);
    var j :| 0 <= j < k && heads[j].anchor == Some(a) && Anchors(heads, n, k)[a].span == SpanOf(heads, heads[j], n);
    SpanEndIsFirst(heads, heads[j], n, 0);
  }

  lemma SpansInside(lines: seq<string>, c: Spans)
    requires Parse(lines) == Some(c)
    ensures 0 <= c.preamble.start && c.preamble.end < |lines|
    ensures 0 <= c.topology.start && c.topology.end < |lines|
    ensures forall a :: a in c.anchors ==> 0 <= c.anchors[a].span.start && c.anchors[a].span.end < |lines|
  {
    var heads := Heads(lines, |lines|);
    HeadsInOrder(lines, |lines|);
    FirstNumberedIsFirst(heads, 0);
    FirstTopologyIsHead(heads, 0);
    var t :| 0 <= t < |heads| && heads[t].topology && FirstTopology(heads, 0) == Some(heads[t]);
    SpanEndIsFirst(heads, heads[t], |lines|, 0);
    forall a | a in c.anchors ensures 0 <= c.anchors[a].span.start && c.anchors[a].span.end < |lines| {
      AnchorSpansInside(heads, |lines|, |heads|, a);
    }
  }

  /** The covered array both walks start from, or None at the first unknown anchor. */
  method Coverage(lines: seq<string>, c: Spans, anchors: seq<string>) returns (r: Option<array<bool>>)
    requires Parse(lines) == Some(c)
    ensures r.Some? <==> Known(c, anchors)
    ensures r.Some? ==> fresh(r.value) && r.value[..] == CoverageOf(c, anchors, |lines|)
  {
    SpansInside(lines, c);
    var covered := new bool[|lines|](_ => false);
    Mark(covered, c.preamble);
    Mark(covered, c.topology);
    for k := 0 to |anchors|
      invariant Known(c, anchors[..k])
      invariant forall i :: 0 <= i < |lines| ==> covered[i] == Covered(c, anchors[..k], i)
    {
      if anchors[k] !in c.anchors { return None; }
      Mark(covered, c.anchors[anchors[k]].span);
      assert anchors[..k + 1][k] == anchors[k];
      assert forall j :: 0 <= j < k ==> anchors[..k + 1][j] == anchors[..k][j];
      forall i | 0 <= i < |lines| ensures covered[i] == Covered(c, anchors[..k + 1], i) {
        CoveredByOneMore(c, anchors, k, i);
      }
    }
    assert anchors[..|anchors|] == anchors;
    return Some(covered);
  }

  lemma CoveredByOneMore(c: Spans, anchors: seq<string>, k: nat, i: int)
    requires k < |anchors| && anchors[k] in c.anchors
    ensures Covered(c, anchors[..k + 1], i) <==> Covered(c, anchors[..k], i) || In(i, c.anchors[anchors[k]].span)
  {
    assert anchors[..k + 1][k] == anchors[k];
    assert forall j :: 0 <= j < k ==> anchors[..k + 1][j] == anchors[..k][j];
  }

  // ----- the bill

  method ConventionsLoad(lines: seq<string>, c: Spans, anchors: seq<string>) returns (r: Option<Measure>)
    requires Parse(lines) == Some(c)
    ensures r.Some? <==> Known(c, anchors)
    ensures r.Some? ==>
      var kept := Kept(CoverageOf(c, anchors, |lines|), 0);
      r.value == Measure(|kept|, BytesAt(lines, kept))
  {
    var covered := Coverage(lines, c, anchors);
    if covered.None? { return None; }
    var m := SumCovered(lines, covered.value);
    return Some(m);
  }

  method SumCovered(lines: seq<string>, covered: array<bool>) returns (m: Measure)
    requires covered.Length == |lines|
    ensures m == Measure(|Kept(covered[..], 0)|, BytesAt(lines, Kept(covered[..], 0)))
  {
    var count, bytes := 0, 0;
    for i := 0 to |lines|
      invariant |Kept(covered[..], 0)| == count + |Kept(covered[..], i)|
      invariant BytesAt(lines, Kept(covered[..], 0)) == bytes + BytesAt(lines, Kept(covered[..], i))
    {
      KeptStep(lines, covered[..], i);
      if covered[i] {
        count := count + 1;
        bytes := bytes + Utf8Bytes(lines[i]) + 1;
      }
    }
    return Measure(count, bytes);
  }

  lemma KeptStep(lines: seq<string>, cov: seq<bool>, i: nat)
    requires i < |cov| == |lines|
    ensures !cov[i] ==> Kept(cov, i) == Kept(cov, i + 1)
    ensures cov[i] ==> |Kept(cov, i)| == 1 + |Kept(cov, i + 1)|
    ensures cov[i] ==> BytesAt(lines, Kept(cov, i)) == Utf8Bytes(lines[i]) + 1 + BytesAt(lines, Kept(cov, i + 1))
  {
    if cov[i] { assert Kept(cov, i)[1..] == Kept(cov, i + 1); }
  }

  // ----- the shipment

  datatype Piece = Keep(i: nat) | Gap(start: nat, end: nat)

  /** The first covered line at or after i, or the end. */
  function GapEnd(cov: seq<bool>, i: nat): (j: nat)
    requires i <= |cov|
    ensures i <= j <= |cov| && (j < |cov| ==> cov[j])
    ensures forall m :: i <= m < j ==> !cov[m]
    decreases |cov| - i
  {
    if i == |cov| || cov[i] then i else GapEnd(cov, i + 1)
  }

  /** The lines from i on, each covered line kept and each maximal run of others collapsed to one gap. */
  function Pieces(cov: seq<bool>, i: nat): (r: seq<Piece>)
    requires i <= |cov|
    ensures forall k :: 0 <= k < |r| ==> if r[k].Keep? then r[k].i < |cov| else r[k].start <= r[k].end <= |cov|
    decreases |cov| - i
  {
    if i == |cov| then []
    else if cov[i] then [Keep(i)] + Pieces(cov, i + 1)
    else [Gap(i, GapEnd(cov, i))] + Pieces(cov, GapEnd(cov, i))
  }

  function KeptOf(pieces: seq<Piece>): seq<nat> {
    if pieces == [] then [] else (if pieces[0].Keep? then [pieces[0].i] else []) + KeptOf(pieces[1..])
  }

  lemma {:induction false} KeptFrom(cov: seq<bool>, i: nat, j: nat)
    requires i <= j <= |cov| && forall m :: i <= m < j ==> !cov[m]
    ensures Kept(cov, i) == Kept(cov, j)
    decreases j - i
  {
    if i < j { KeptFrom(cov, i + 1, j); }
  }

  /** What is shipped is what is kept: every covered line once, in file order. */
  lemma {:induction false} PiecesKeepCovered(cov: seq<bool>, i: nat)
    requires i <= |cov|
    ensures KeptOf(Pieces(cov, i)) == Kept(cov, i)
    decreases |cov| - i
  {
    if i < |cov| {
      var j := if cov[i] then i + 1 else GapEnd(cov, i);
      PiecesKeepCovered(cov, j);
      assert Pieces(cov, i)[1..] == Pieces(cov, j);
      if !cov[i] { KeptFrom(cov, i, j); }
    }
  }

  predicate StartsAt(p: Piece, i: nat) { if p.Keep? then p.i == i else p.start == i && p.end > i }
  function EndOf(p: Piece): nat { if p.Keep? then p.i + 1 else p.end }

  /** The pieces tile the file, and no two gaps touch. */
  lemma {:induction false} PiecesTile(cov: seq<bool>, i: nat)
    requires i <= |cov|
    ensures
      var ps := Pieces(cov, i);
      && (ps == [] <==> i == |cov|)
      && (ps != [] ==> StartsAt(ps[0], i) && EndOf(ps[|ps| - 1]) == |cov|)
      && (forall k :: 0 <= k < |ps| - 1 ==> StartsAt(ps[k + 1], EndOf(ps[k])))
      && (forall k :: 0 <= k < |ps| - 1 ==> ps[k].Keep? || ps[k + 1].Keep?)
    decreases |cov| - i
  {
    if i < |cov| { PiecesTile(cov, if cov[i] then i + 1 else GapEnd(cov, i)); }
  }

  // ----- how the pieces are written out

  /** /^#{2,3} (\d+[a-z]?)\. / on a collapsed line */
  function GapAnchor(line: string): Option<string> {
    var n := HeadingLevel(line);
    if n == 0 then None else AnchorOf(line[n + 1..])
  }

  /** The section anchors named on lines [i..j), only the config-pruned ones or only the others. */
  function GapAnchors(lines: seq<string>, pruned: set<string>, i: nat, j: nat, off: bool): seq<string>
    requires i <= j <= |lines|
    decreases j - i
  {
    if i == j then []
    else
      var a := GapAnchor(lines[j - 1]);
      GapAnchors(lines, pruned, i, j - 1, off) + if a.Some? && (a.value in pruned) == off then [a.value] else []
  }

  /** One shipped line; a marker carries the sections it names, its wording is not modelled. */
  datatype Shipped = Text(line: string) | Blank | Marker(uncited: seq<string>, configOff: seq<string>)

  function Render(lines: seq<string>, pruned: set<string>, p: Piece): seq<Shipped>
    requires if p.Keep? then p.i < |lines| else p.start <= p.end <= |lines|
  {
    match p
    case Keep(i) => [Text(lines[i])]
    case Gap(i, j) => [Blank, Marker(GapAnchors(lines, pruned, i, j, false), GapAnchors(lines, pruned, i, j, true)), Blank]
  }

  function RenderAll(lines: seq<string>, pruned: set<string>, pieces: seq<Piece>): seq<Shipped>
    requires forall k :: 0 <= k < |pieces| ==>
               if pieces[k].Keep? then pieces[k].i < |lines| else pieces[k].start <= pieces[k].end <= |lines|
  {
    if pieces == [] then [] else Render(lines, pruned, pieces[0]) + RenderAll(lines, pruned, pieces[1..])
  }

  /** out and bytes are what has been shipped once the walk stands at line i. */
  ghost predicate Progress(lines: seq<string>, cov: seq<bool>, pruned: set<string>, i: nat, out: seq<Shipped>, bytes: nat)
    requires |cov| == |lines|
  {
    && i <= |lines|
    && RenderAll(lines, pruned, Pieces(cov, 0)) == out + RenderAll(lines, pruned, Pieces(cov, i))
    && BytesAt(lines, Kept(cov, 0)) == bytes + BytesAt(lines, Kept(cov, i))
  }

  lemma RenderStep(lines: seq<string>, cov: seq<bool>, pruned: set<string>, i: nat)
    requires i < |cov| == |lines|
    ensures
      var p := PieceAt(cov, i);
      RenderAll(lines, pruned, Pieces(cov, i)) == Render(lines, pruned, p) + RenderAll(lines, pruned, Pieces(cov, EndOf(p)))
  {
    var p := PieceAt(cov, i);
    assert Pieces(cov, i) == [p] + Pieces(cov, EndOf(p));
    assert Pieces(cov, i)[1..] == Pieces(cov, EndOf(p));
  }

  lemma ProgressStep(lines: seq<string>, cov: seq<bool>, pruned: set<string>, i: nat, out: seq<Shipped>, bytes: nat)
    requires i < |cov| == |lines| && Progress(lines, cov, pruned, i, out, bytes)
    ensures
      var p := PieceAt(cov, i);
      Progress(lines, cov, pruned, EndOf(p), out + Render(lines, pruned, p), bytes + if cov[i] then Utf8Bytes(lines[i]) + 1 else 0)
  {
    var p := PieceAt(cov, i);
    RenderStep(lines, cov, pruned, i);
    Reassociate(out, Render(lines, pruned, p), RenderAll(lines, pruned, Pieces(cov, EndOf(p))));
    KeptStep(lines, cov, i);
    if !cov[i] { KeptFrom(cov, i, EndOf(p)); }
  }

  /** The inner walk over one run of uncovered lines. */
  method CollapseGap(lines: seq<string>, covered: array<bool>, pruned: set<string>, start: nat)
    returns (i: nat, uncited: seq<string>, configOff: seq<string>)
    requires covered.Length == |lines| && start < |lines| && !covered[start]
    ensures i == GapEnd(covered[..], start)
    ensures uncited == GapAnchors(lines, pruned, start, i, false)
    ensures configOff == GapAnchors(lines, pruned, start, i, true)
  {
    i, uncited, configOff := start, [], [];
    while i < |lines| && !covered[i]
      invariant start <= i <= |lines|
      invariant GapEnd(covered[..], start) == GapEnd(covered[..], i)
      invariant uncited == GapAnchors(lines, pruned, start, i, false)
      invariant configOff == GapAnchors(lines, pruned, start, i, true)
    {
      var m := GapAnchor(lines[i]);
      if m.Some? {
        if m.value in pruned { configOff := configOff + [m.value]; } else { uncited := uncited + [m.value]; }
      }
      i := i + 1;
    }
  }

  function PieceAt(cov: seq<bool>, i: nat): Piece
    requires i < |cov|
  {
    if cov[i] then Keep(i) else Gap(i, GapEnd(cov, i))
  }

  /** One turn of the outer walk. */
  method ShipPiece(lines: seq<string>, pruned: set<string>, covered: array<bool>, i: nat)
    returns (next: nat, shipped: seq<Shipped>, bytes: nat)
    requires covered.Length == |lines| && i < |lines|
    ensures next == EndOf(PieceAt(covered[..], i)) && shipped == Render(lines, pruned, PieceAt(covered[..], i))
    ensures bytes == if covered[i] then Utf8Bytes(lines[i]) + 1 else 0
  {
    if covered[i] { return i + 1, [Text(lines[i])], Utf8Bytes(lines[i]) + 1; }
    var end, uncited, configOff := CollapseGap(lines, covered, pruned, i);
    return end, [Blank, Marker(uncited, configOff), Blank], 0;
  }

  /** The outer walk. */
  method ShipLines(lines: seq<string>, pruned: set<string>, covered: array<bool>) returns (out: seq<Shipped>, contentBytes: nat)
    requires covered.Length == |lines|
    ensures out == RenderAll(lines, pruned, Pieces(covered[..], 0))
    ensures contentBytes == BytesAt(lines, Kept(covered[..], 0))
  {
    out, contentBytes := [], 0;
    var i := 0;
    while i < |lines|
      invariant Progress(lines, covered[..], pruned, i, out, contentBytes)
    {
      ProgressStep(lines, covered[..], pruned, i, out, contentBytes);
      var next, shipped, bytes := ShipPiece(lines, pruned, covered, i);
      i, out, contentBytes := next, out + shipped, contentBytes + bytes;
    }
  }

  function Unpruned(anchors: seq<string>, pruned: set<string>): seq<string> {
    if anchors == [] then []
    else (if anchors[0] in pruned then [] else [anchors[0]]) + Unpruned(anchors[1..], pruned)
  }

  datatype Union = Union(out: seq<Shipped>, contentBytes: nat)

  /**
   Ships the pieces of the loaded sections.  contentBytes is what ConventionsLoad bills for the same
   sections, whatever is cited and whatever is pruned.
   */
  method ConventionsUnionText(lines: seq<string>, anchors: seq<string>, pruned: set<string>) returns (r: Option<Union>)
    ensures r.Some? <==> Parse(lines).Some? && Known(Parse(lines).value, Unpruned(anchors, pruned))
    ensures r.Some? ==>
      var cov := CoverageOf(Parse(lines).value, Unpruned(anchors, pruned), |lines|);
      r.value == Union(RenderAll(lines, pruned, Pieces(cov, 0)), BytesAt(lines, Kept(cov, 0)))
  {
    var conv := ParseConventions(lines);
    if conv.None? { return None; }
    var loaded := Unpruned(anchors, pruned);
    var covered := Coverage(lines, conv.value, loaded);
    if covered.None? { return None; }
    var out, contentBytes := ShipLines(lines, pruned, covered.value);
    return Some(Union(out, contentBytes));
  }

  /** Citing a section whose span lies inside another cited one changes nothing that is shipped or billed. */
  lemma NestedCitationIsFree(c: Spans, anchors: seq<string>, a: string, b: string, n: nat)
    requires a in c.anchors && b in c.anchors && b in anchors
    requires c.anchors[b].span.start <= c.anchors[a].span.start && c.anchors[a].span.end <= c.anchors[b].span.end
    ensures CoverageOf(c, anchors + [a], n) == CoverageOf(c, anchors, n)
  {
    var k :| 0 <= k < |anchors| && anchors[k] == b;
    forall i | 0 <= i < n ensures Covered(c, anchors + [a], i) == Covered(c, anchors, i) {
      assert (anchors + [a])[..|anchors|] == anchors && (anchors + [a])[..|anchors| + 1] == anchors + [a];
      CoveredByOneMore(c, anchors + [a], |anchors|, i);
    }
  }

  /** A heading outside the shipped sections is named by the marker of the gap it fell in. */
  lemma {:induction false} GapNamesHeading(lines: seq<string>, pruned: set<string>, i: nat, j: nat, m: nat, a: string)
    requires i <= m < j <= |lines| && GapAnchor(lines[m]) == Some(a)
    ensures a in GapAnchors(lines, pruned, i, j, a in pruned)
    decreases j
  {
    if m < j - 1 { GapNamesHeading(lines, pruned, i, j - 1, m, a); }
  }
}
