/** What is cut from a skill file, billed and shipped, read off the lines themselves. */
module ShippedText {

  import opened Options
  import opened Conventions
  import ConventionSections
  import opened Shipping

  // ----- the generator-owned block

  /** One small letter, then small letters and hyphens. */
  predicate IsAgentName(name: string) {
    name != "" && name[0] in "abcdefghijklmnopqrstuvwxyz" && forall i :: 0 <= i < |name| ==> name[i] in "abcdefghijklmnopqrstuvwxyz-"
  }

  lemma HandleIff(s: string)
    ensures IsHandle(s) <==> IsAgentName(s)
  {
    forall i | 0 <= i < |s| ensures IsLower(s[i]) <==> s[i] in "abcdefghijklmnopqrstuvwxyz" { ConventionSections.CharactersAre(s[i], ""); }
    forall i | 0 <= i < |s| ensures s[i] in "abcdefghijklmnopqrstuvwxyz-" <==> s[i] in "abcdefghijklmnopqrstuvwxyz" || s[i] == '-' {
      HyphenToo(s[i]);
    }
  }

  lemma HyphenToo(c: char)
    ensures c in "abcdefghijklmnopqrstuvwxyz-" <==> c in "abcdefghijklmnopqrstuvwxyz" || c == '-'
  {
    assert "abcdefghijklmnopqrstuvwxyz-" == "abcdefghijklmnopqrstuvwxyz" + "-";
  }

  /** A marker is this whole line, for one agent. */
  lemma MarkerIff(line: string, kind: string)
    ensures IsMarker(line, kind) <==> exists name :: IsAgentName(name) && line == "<!-- cli-cheatsheet:" + kind + " agent=" + name + " -->"
  {
    hide IsHandle, IsAgentName;
    var head, tail := "<!-- cli-cheatsheet:" + kind + " agent=", " -->";
    if IsMarker(line, kind) {
      var name := line[|head|..|line| - 4];
      HandleIff(name);
      assert line == head + name + tail;
    }
    if name :| IsAgentName(name) && line == head + name + tail {
      HandleIff(name);
      assert line[..|head|] == head && line[|head|..|line| - 4] == name && line[|line| - 4..] == tail;
    }
  }

  ghost predicate MarkedAt(lines: seq<string>, kind: string, i: nat) { i < |lines| && IsMarker(lines[i], kind) }

  ghost predicate Marks(lines: seq<string>, kind: string) { exists i: nat :: MarkedAt(lines, kind, i) }

  ghost predicate MarksTwice(lines: seq<string>, kind: string) {
    exists i: nat, j: nat :: i < j && MarkedAt(lines, kind, i) && MarkedAt(lines, kind, j)
  }

  ghost predicate Encloses(lines: seq<string>, b: nat, e: nat) {
    b <= e && MarkedAt(lines, "begin", b) && MarkedAt(lines, "end", e)
  }

  lemma {:induction false} MarkersAre(lines: seq<string>, kind: string, n: nat)
    requires n <= |lines|
    ensures
      var r := MarkersAt(lines, kind, n);
      && (forall i: nat :: i in r <==> i < n && MarkedAt(lines, kind, i))
      && forall j, k :: 0 <= j < k < |r| ==> r[j] < r[k]
  {
    if n > 0 { MarkersAre(lines, kind, n - 1); }
  }

  lemma MarkersTell(lines: seq<string>, kind: string)
    ensures
      var r := MarkersAt(lines, kind, |lines|);
      && (r == [] <==> !Marks(lines, kind)) && (|r| > 1 <==> MarksTwice(lines, kind))
      && (|r| == 1 ==> forall i: nat :: MarkedAt(lines, kind, i) <==> i == r[0])
  {
    var r := MarkersAt(lines, kind, |lines|);
    MarkersAre(lines, kind, |lines|);
    hide IsMarker;
    if r != [] { assert r[0] in r && MarkedAt(lines, kind, r[0]); }
    if |r| > 1 { assert r[1] in r && MarkedAt(lines, kind, r[1]); }
    if i: nat, j: nat :| i < j && MarkedAt(lines, kind, i) && MarkedAt(lines, kind, j) { assert i in r && j in r; }
  }

  /**
   A file is refused for a marker that comes twice, and for one that comes alone or in the wrong order.  Otherwise the
   block from the begin line to the end line is cut out, both included; without markers there is no block.
   */
  lemma SplitSkillIs(lines: seq<string>)
    ensures
      var r := SplitSkill(lines);
      && (r.Duplicate? <==> MarksTwice(lines, "begin") || MarksTwice(lines, "end"))
      && (r.Parts? <==> !r.Duplicate? && ((!Marks(lines, "begin") && !Marks(lines, "end")) || exists b: nat, e: nat :: Encloses(lines, b, e)))
      && (r.Parts? && !Marks(lines, "begin") ==> r == Parts(lines, []))
      && (r.Parts? ==> forall b: nat, e: nat :: Encloses(lines, b, e) ==> r == Parts(lines[..b] + lines[e + 1..], lines[b..e + 1]))
  {
    MarkersTell(lines, "begin");
    MarkersTell(lines, "end");
    hide MarkersAt, IsMarker, MarksTwice;
    var begins, ends := MarkersAt(lines, "begin", |lines|), MarkersAt(lines, "end", |lines|);
    if |begins| == 1 && |ends| == 1 && begins[0] <= ends[0] { assert Encloses(lines, begins[0], ends[0]); }
  }

  // ----- the bill

  function LinesAt(lines: seq<string>, picks: seq<nat>): (r: seq<string>)
    requires forall k :: 0 <= k < |picks| ==> picks[k] < |lines|
    ensures |r| == |picks| && forall k :: 0 <= k < |picks| ==> r[k] == lines[picks[k]]
  {
    seq(|picks|, k requires 0 <= k < |picks| => lines[picks[k]])
  }

  /** What is billed for some lines is what a file of these lines measures. */
  lemma {:induction false} ContentIsMeasured(lines: seq<string>, picks: seq<nat>)
    requires forall k :: 0 <= k < |picks| ==> picks[k] < |lines|
    ensures BytesAt(lines, picks) == LineBytes(LinesAt(lines, picks))
    decreases |picks|
  {
    if picks != [] {
      ContentIsMeasured(lines, picks[1..]);
      assert LinesAt(lines, picks)[1..] == LinesAt(lines, picks[1..]);
    }
  }

  // ----- the gaps

  /** A heading line outside the shipped sections names the section it numbers. */
  lemma GapAnchorIff(line: string, a: string)
    ensures GapAnchor(line) == Some(a) <==> ConventionSections.IsAnchor(a) && ("## " + a + ". " <= line || "### " + a + ". " <= line)
  {
    hide AnchorOf, ConventionSections.IsAnchor;
    assert "## " + a + ". " == "## " + (a + ". ") && "### " + a + ". " == "### " + (a + ". ");
    ConventionSections.PrefixSplits("## ", a + ". ", line);
    ConventionSections.PrefixSplits("### ", a + ". ", line);
    var n := HeadingLevel(line);
    assert ("## " <= line ==> line[2] == ' ') && ("### " <= line ==> line[2] == '#');
    if n > 0 { ConventionSections.AnchorIff(line[n + 1..], a); }
  }

  ghost predicate NamedIn(lines: seq<string>, i: nat, j: nat, a: string) {
    exists m: nat :: i <= m < j <= |lines| && GapAnchor(lines[m]) == Some(a)
  }

  lemma {:induction false} GapAnchorsAre(lines: seq<string>, pruned: set<string>, i: nat, j: nat, off: bool, a: string)
    requires i <= j <= |lines|
    ensures a in GapAnchors(lines, pruned, i, j, off) <==> NamedIn(lines, i, j, a) && (a in pruned) == off
    decreases j
  {
    hide GapAnchor, NamedIn;
    NamedInNext(lines, i, j, a);
    if i < j { GapAnchorsAre(lines, pruned, i, j - 1, off, a); }
  }

  lemma NamedInNext(lines: seq<string>, i: nat, j: nat, a: string)
    requires i <= j <= |lines|
    ensures NamedIn(lines, i, j, a) <==> i < j && (NamedIn(lines, i, j - 1, a) || GapAnchor(lines[j - 1]) == Some(a))
  {
    hide GapAnchor;
    if m: nat :| i <= m < j && GapAnchor(lines[m]) == Some(a) { assert m < j - 1 ==> NamedIn(lines, i, j - 1, a); }
  }

  // ----- the shipment

  function TextsOf(out: seq<Shipped>): seq<string> {
    if out == [] then [] else (if out[0].Text? then [out[0].line] else []) + TextsOf(out[1..])
  }

  function MarkersOf(out: seq<Shipped>): seq<Shipped> {
    if out == [] then [] else (if out[0].Marker? then [out[0]] else []) + MarkersOf(out[1..])
  }

  function GapsOf(pieces: seq<Piece>): seq<Piece> {
    if pieces == [] then [] else (if pieces[0].Gap? then [pieces[0]] else []) + GapsOf(pieces[1..])
  }

  ghost predicate Fits(lines: seq<string>, pieces: seq<Piece>) {
    forall k :: 0 <= k < |pieces| ==> if pieces[k].Keep? then pieces[k].i < |lines| else pieces[k].start <= pieces[k].end <= |lines|
  }

  /** The marker names the sections of the gap's headings: what the configuration turned off apart from the rest. */
  ghost predicate Names(lines: seq<string>, pruned: set<string>, gap: Piece, marker: Shipped) {
    gap.Gap? && marker.Marker?
    && forall a ::
         && (a in marker.uncited <==> NamedIn(lines, gap.start, gap.end, a) && a !in pruned)
         && (a in marker.configOff <==> NamedIn(lines, gap.start, gap.end, a) && a in pruned)
  }

  /** Blank lines set every marker off. */
  ghost predicate SetOff(out: seq<Shipped>) {
    forall k :: 0 <= k < |out| && out[k].Marker? ==> 0 < k < |out| - 1 && out[k - 1].Blank? && out[k + 1].Blank?
  }

  lemma {:induction false} PartsConcat(a: seq<Shipped>, b: seq<Shipped>)
    ensures TextsOf(a + b) == TextsOf(a) + TextsOf(b) && MarkersOf(a + b) == MarkersOf(a) + MarkersOf(b)
    decreases |a|
  {
    if a == [] {
      assert a + b == b;
    } else {
      var ab := a + b;
      assert ab[0] == a[0] && ab[1..] == a[1..] + b;
      PartsConcat(a[1..], b);
      TextsNext(ab);
      TextsNext(a);
      hide TextsOf, MarkersOf;
    }
  }

  lemma TextsNext(out: seq<Shipped>)
    requires out != []
    ensures TextsOf(out) == (if out[0].Text? then [out[0].line] else []) + TextsOf(out[1..])
    ensures MarkersOf(out) == (if out[0].Marker? then [out[0]] else []) + MarkersOf(out[1..])
  {
  }

  lemma RenderedPiece(lines: seq<string>, pruned: set<string>, p: Piece)
    requires if p.Keep? then p.i < |lines| else p.start <= p.end <= |lines|
    ensures
      var out := Render(lines, pruned, p);
      && TextsOf(out) == (if p.Keep? then [lines[p.i]] else [])
      && (p.Keep? ==> MarkersOf(out) == [] && |out| == 1)
      && (p.Gap? ==> |MarkersOf(out)| == 1 && Names(lines, pruned, p, MarkersOf(out)[0]) && |out| == 3)
      && SetOff(out)
  {
    var out := Render(lines, pruned, p);
    if p.Gap? {
      assert out[1..] == [out[1], Blank] && out[1..][1..] == [Blank] && [Blank][1..] == [];
      assert TextsOf([Blank]) == [] && TextsOf(out[1..]) == [] && MarkersOf([Blank]) == [] && MarkersOf(out[1..]) == [out[1]];
      forall a ensures
        && (a in out[1].uncited <==> NamedIn(lines, p.start, p.end, a) && a !in pruned)
        && (a in out[1].configOff <==> NamedIn(lines, p.start, p.end, a) && a in pruned)
      {
        GapAnchorsAre(lines, pruned, p.start, p.end, false, a);
        GapAnchorsAre(lines, pruned, p.start, p.end, true, a);
      }
    } else {
      assert out[1..] == [];
    }
  }

  lemma SetOffConcat(a: seq<Shipped>, b: seq<Shipped>)
    requires SetOff(a) && SetOff(b)
    ensures SetOff(a + b)
  {
    var ab := a + b;
    forall k | 0 <= k < |ab| && ab[k].Marker? ensures 0 < k < |ab| - 1 && ab[k - 1].Blank? && ab[k + 1].Blank? {
      if k < |a| {
        assert a[k].Marker? && ab[k - 1] == a[k - 1] && ab[k + 1] == a[k + 1];
      } else {
        var m := k - |a|;
        assert b[m].Marker? && ab[k - 1] == b[m - 1] && ab[k + 1] == b[m + 1];
      }
    }
  }

  ghost predicate IsShipped(lines: seq<string>, pruned: set<string>, out: seq<Shipped>, kept: seq<nat>, gaps: seq<Piece>) {
    && (forall k :: 0 <= k < |kept| ==> kept[k] < |lines|) && TextsOf(out) == LinesAt(lines, kept)
    && |MarkersOf(out)| == |gaps| && (forall k :: 0 <= k < |gaps| ==> Names(lines, pruned, gaps[k], MarkersOf(out)[k]))
    && SetOff(out) && |out| == |kept| + 3 * |gaps|
  }

  lemma ShippedConcat(lines: seq<string>, pruned: set<string>, out: seq<Shipped>, kept: seq<nat>, gaps: seq<Piece>,
                      more: seq<Shipped>, kept': seq<nat>, gaps': seq<Piece>)
    requires IsShipped(lines, pruned, out, kept, gaps) && IsShipped(lines, pruned, more, kept', gaps')
    ensures IsShipped(lines, pruned, out + more, kept + kept', gaps + gaps')
  {
    hide Names, SetOff, TextsOf, MarkersOf;
    PartsConcat(out, more);
    SetOffConcat(out, more);
  }

  lemma PieceIsShipped(lines: seq<string>, pruned: set<string>, p: Piece)
    requires if p.Keep? then p.i < |lines| else p.start <= p.end <= |lines|
    ensures IsShipped(lines, pruned, Render(lines, pruned, p), if p.Keep? then [p.i] else [], if p.Gap? then [p] else [])
  {
    hide Names, SetOff, TextsOf, MarkersOf, Render;
    RenderedPiece(lines, pruned, p);
  }

  /**
   The text shipped is the kept lines and nothing else.  Each gap leaves one marker, set off by blank lines, that names
   exactly the sections whose headings it dropped.
   */
  lemma {:induction false} ShippedAre(lines: seq<string>, pruned: set<string>, pieces: seq<Piece>)
    requires Fits(lines, pieces)
    ensures IsShipped(lines, pruned, RenderAll(lines, pruned, pieces), KeptOf(pieces), GapsOf(pieces))
    decreases |pieces|
  {
    hide IsShipped, Render;
    if pieces == [] {
      NothingShipped(lines, pruned);
    } else {
      var p, rest := pieces[0], pieces[1..];
      PieceIsShipped(lines, pruned, p);
      ShippedAre(lines, pruned, rest);
      ShippedConcat(lines, pruned, Render(lines, pruned, p), if p.Keep? then [p.i] else [], if p.Gap? then [p] else [],
                    RenderAll(lines, pruned, rest), KeptOf(rest), GapsOf(rest));
    }
  }

  lemma NothingShipped(lines: seq<string>, pruned: set<string>)
    ensures IsShipped(lines, pruned, [], [], [])
  {
  }

  /** The sections loaded are the cited ones that the configuration did not turn off. */
  lemma {:induction false} UnprunedAre(anchors: seq<string>, pruned: set<string>, a: string)
    ensures a in Unpruned(anchors, pruned) <==> a in anchors && a !in pruned
    decreases |anchors|
  {
    if anchors != [] {
      UnprunedAre(anchors[1..], pruned, a);
      assert anchors == [anchors[0]] + anchors[1..];
    }
  }
}
