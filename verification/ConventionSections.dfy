/** What the section map says about the text: which lines are headings, what each section holds, and where it stops. */
module ConventionSections {

  import opened Conventions
  import opened Options
  import opened Texts

  // ----- characters

  /** Digits, small letters and what may go on a word, listed; a line break ends `.`. */
  lemma CharactersAre(c: char, s: string)
    ensures IsDigit(c) <==> c in "0123456789"
    ensures IsLower(c) <==> c in "abcdefghijklmnopqrstuvwxyz"
    ensures IsWord(c) <==> c in "0123456789" || c in "abcdefghijklmnopqrstuvwxyz" || c in "ABCDEFGHIJKLMNOPQRSTUVWXYZ" || c == '_'
    ensures HasBreak(s) <==> '\r' in s || '\U{2028}' in s || '\U{2029}' in s
  {
    OneOf(c, "0123456789", '0');
    OneOf(c, "abcdefghijklmnopqrstuvwxyz", 'a');
    OneOf(c, "ABCDEFGHIJKLMNOPQRSTUVWXYZ", 'A');
    forall i | 0 <= i < |s| ensures s[i] as int == 0x2028 ==> s[i] == '\U{2028}' ensures s[i] as int == 0x2029 ==> s[i] == '\U{2029}' {}
  }

  /** A run of consecutive characters. */
  lemma OneOf(c: char, run: string, first: char)
    requires |run| < 100 && first as int < 1000
    requires forall i :: 0 <= i < |run| ==> run[i] == (first as int + i) as char
    ensures c in run <==> first as int <= c as int < first as int + |run|
  {
    if first as int <= c as int < first as int + |run| {
      assert run[c as int - first as int] == c;
    }
  }

  // ----- headings

  /** A heading is a line of two or three hash signs, a space and a title without line breaks. */
  lemma HeadOfIff(line: string, idx: nat, h: Head)
    ensures
      HeadOf(line, idx) == Some(h) <==>
      exists title :: title != "" && !HasBreak(title) && (if h.level == 3 then line == "### " + title else h.level == 2 && line == "## " + title)
                      && h.idx == idx && h.anchor == AnchorOf(title) && h.topology == IsTopology(title)
  {
    var n := HeadingLevel(line);
    if n > 0 {
      assert line == line[..n + 1] + line[n + 1..];
      assert line[..n + 1] == if n == 2 then "## " else "### ";
    }
    if title :| title != "" && !HasBreak(title) && (if h.level == 3 then line == "### " + title else h.level == 2 && line == "## " + title)
                && h.idx == idx && h.anchor == AnchorOf(title) && h.topology == IsTopology(title) {
      assert line[h.level + 1..] == title;
      if h.level == 3 { assert line[2] == '#'; }
    }
  }

  /** The headings of a file are the heading lines outside fences, in order. */
  lemma {:induction false} HeadsAre(lines: seq<string>, n: nat, h: Head)
    requires n <= |lines|
    ensures h in Heads(lines, n) <==> h.idx < n && FenceAt(lines, h.idx).None? && FenceLine(lines[h.idx]).None? && HeadOf(lines[h.idx], h.idx) == Some(h)
  {
    hide HeadOf, FenceLine;
    if n > 0 {
      HeadsAre(lines, n - 1, h);
      HeadKnowsItsLine(lines[n - 1], n - 1);
    }
  }

  lemma HeadKnowsItsLine(line: string, idx: nat)
    ensures HeadOf(line, idx).Some? ==> HeadOf(line, idx).value.idx == idx
  {
  }

  predicate AllDigits(s: string) { s != "" && forall i :: 0 <= i < |s| ==> IsDigit(s[i]) }

  /** A number, perhaps with one small letter. */
  predicate IsAnchor(a: string) {
    AllDigits(a) || (|a| > 1 && AllDigits(a[..|a| - 1]) && IsLower(a[|a| - 1]))
  }

  lemma {:induction false} DigitRunIs(s: string, n: nat)
    requires n <= |s| && forall i :: 0 <= i < n ==> IsDigit(s[i])
    requires n < |s| ==> !IsDigit(s[n])
    ensures DigitRun(s) == n
    decreases |s|
  {
    if n > 0 {
      assert forall i :: 0 <= i < n - 1 ==> s[1..][i] == s[i + 1];
      DigitRunIs(s[1..], n - 1);
    }
  }

  lemma {:induction false} DigitRunStops(s: string)
    ensures DigitRun(s) <= |s| && (forall i :: 0 <= i < DigitRun(s) ==> IsDigit(s[i])) && (DigitRun(s) < |s| ==> !IsDigit(s[DigitRun(s)]))
    decreases |s|
  {
    if s != "" && IsDigit(s[0]) {
      DigitRunStops(s[1..]);
      assert forall i :: 0 < i < |s| ==> s[i] == s[1..][i - 1];
    }
  }

  lemma AnchorIsRead(title: string, a: string, n: nat)
    requires a + ". " <= title && n <= |a| <= n + 1 && AllDigits(a[..n]) && (|a| == n + 1 ==> IsLower(a[n]))
    ensures AnchorOf(title) == Some(a)
  {
    var rest := title[|a|..];
    assert title == a + rest && ". " <= rest by { PrefixSplits(a, ". ", title); }
    forall i | 0 <= i < n ensures IsDigit(title[i]) { assert title[i] == a[..n][i]; }
    assert title[n] == if |a| == n then '.' else a[n];
    DigitRunIs(title, n);
    assert title[..|a|] == a;
  }

  lemma PrefixSplits(a: string, b: string, s: string)
    ensures a + b <= s <==> a <= s && b <= s[|a|..]
  {
    if a <= s && b <= s[|a|..] { assert s == a + s[|a|..] && s[|a|..] == b + s[|a|..][|b|..]; }
    if a + b <= s { assert s[..|a|] == (a + b)[..|a|] == a && s[|a|..][..|b|] == (a + b)[|a|..] == b; }
  }

  lemma AnchorIsThere(title: string, a: string)
    requires AnchorOf(title) == Some(a)
    ensures IsAnchor(a) && a + ". " <= title
  {
    var d := DigitRun(title);
    DigitRunStops(title);
    assert a == title[..|a|] && ". " <= title[|a|..];
    PrefixSplits(a, ". ", title);
    forall i | 0 <= i < d ensures a[i] == title[i] {}
    if |a| == d { assert AllDigits(a); } else { assert AllDigits(a[..|a| - 1]); }
  }

  /** A title is numbered exactly if it begins with an anchor, a full stop and a space. */
  lemma AnchorIff(title: string, a: string)
    ensures AnchorOf(title) == Some(a) <==> IsAnchor(a) && a + ". " <= title
  {
    hide AnchorOf;
    if AnchorOf(title) == Some(a) { AnchorIsThere(title, a); }
    if IsAnchor(a) && a + ". " <= title {
      assert a[..|a|] == a;
      AnchorIsRead(title, a, if AllDigits(a) then |a| else |a| - 1);
    }
  }

  /** The Topology heading begins with these words, and then no word goes on. */
  lemma TopologyIff(title: string)
    ensures
      IsTopology(title) <==>
      title == "Topology at a glance" || exists c, rest :: title == "Topology at a glance" + [c] + rest && !IsDigit(c) && !IsLower(c) && !('A' <= c <= 'Z') && c != '_'
  {
    var t := "Topology at a glance";
    if IsTopology(title) && title != t {
      assert title == t + [title[|t|]] + title[|t| + 1..];
    }
    if c, rest :| title == t + [c] + rest && !IsDigit(c) && !IsLower(c) && !('A' <= c <= 'Z') && c != '_' {
      assert title[|t|] == c;
    }
  }

  // ----- fences

  predicate Repeats(s: string, c: char) { forall i :: 0 <= i < |s| ==> s[i] == c }

  lemma {:induction false} RunLengthIs(s: string, c: char)
    ensures RunLength(s, c) <= |s| && Repeats(s[..RunLength(s, c)], c) && (RunLength(s, c) < |s| ==> s[RunLength(s, c)] != c)
    decreases |s|
  {
    if s != "" && s[0] == c {
      RunLengthIs(s[1..], c);
      var n := RunLength(s[1..], c);
      assert s[..n + 1] == [c] + s[1..][..n];
    }
  }

  /** A fence is a line that, after blanks, begins with three or more of ` or of ~; bare: nothing but blanks follow. */
  lemma FenceIff(line: string, f: Fence, bare: bool)
    ensures
      FenceLine(line) == Some((f, bare)) <==>
      && (f.ch == '`' || f.ch == '~') && f.len >= 3
      && exists marks, rest :: |marks| == f.len && Repeats(marks, f.ch) && TrimStart(line) == marks + rest && (rest == "" || rest[0] != f.ch)
                               && !HasBreak(rest) && (bare <==> Blank(rest))
  {
    var s := TrimStart(line);
    if s != "" {
      RunLengthIs(s, s[0]);
      var n := RunLength(s, s[0]);
      assert s == s[..n] + s[n..];
    }
    if exists marks, rest :: |marks| == f.len && Repeats(marks, f.ch) && s == marks + rest && (rest == "" || rest[0] != f.ch) && f.len >= 3 {
      var marks, rest :| |marks| == f.len && Repeats(marks, f.ch) && s == marks + rest && (rest == "" || rest[0] != f.ch) && f.len >= 3;
      assert s[0] == marks[0] == f.ch;
      SameRun(f.ch, marks, rest);
      assert s[f.len..] == rest;
    }
  }

  lemma {:induction false} SameRun(c: char, marks: string, rest: string)
    requires Repeats(marks, c) && (rest == "" || rest[0] != c)
    ensures RunLength(marks + rest, c) == |marks|
    decreases |marks|
  {
    if marks == "" {
      assert marks + rest == rest;
    } else {
      assert (marks + rest)[1..] == marks[1..] + rest;
      SameRun(c, marks[1..], rest);
    }
  }

  /** A bare fence of the same character, at least as long, closes an open one. */
  predicate Closes(f: Fence, line: string) {
    var l := FenceLine(line);
    l.Some? && l.value.1 && l.value.0.ch == f.ch && l.value.0.len >= f.len
  }

  predicate OpenedAt(lines: seq<string>, o: nat, n: nat, f: Fence)
    requires n <= |lines|
  {
    && o < n && FenceAt(lines, o).None? && FenceLine(lines[o]).Some? && FenceLine(lines[o]).value.0 == f
    && forall m :: o < m < n ==> !Closes(f, lines[m])
  }

  /** Before line n a fence is open exactly if some line outside fences opened it and none since has closed it. */
  lemma {:induction false} FenceAtIff(lines: seq<string>, n: nat, f: Fence)
    requires n <= |lines|
    ensures FenceAt(lines, n) == Some(f) <==> exists o: nat :: OpenedAt(lines, o, n, f)
  {
    hide FenceLine;
    if n > 0 {
      FenceAtIff(lines, n - 1, f);
      var line := lines[n - 1];
      if FenceAt(lines, n) == Some(f) {
        if FenceAt(lines, n - 1) == Some(f) {
          var o: nat :| OpenedAt(lines, o, n - 1, f);
          assert OpenedAt(lines, o, n, f);
        } else {
          assert OpenedAt(lines, n - 1, n, f);
        }
      }
      if o: nat :| OpenedAt(lines, o, n, f) {
        if o < n - 1 {
          assert OpenedAt(lines, o, n - 1, f);
          assert !Closes(f, lines[n - 1]);
        }
      }
    }
  }

  // ----- sections

  ghost predicate NoneWithin(heads: seq<Head>, first: int, last: int, level: nat) {
    forall k :: 0 <= k < |heads| && first < heads[k].idx <= last ==> !(heads[k].topology || (heads[k].anchor.Some? && heads[k].level <= level))
  }

  ghost predicate OneAt(heads: seq<Head>, line: int, level: nat) {
    exists k :: 0 <= k < |heads| && heads[k].idx == line && (heads[k].topology || (heads[k].anchor.Some? && heads[k].level <= level))
  }

  /** From its heading to the line before the next that ends it, or to the end of the file. */
  ghost predicate IsSectionOf(heads: seq<Head>, h: Head, n: nat, s: Span) {
    && s.start == h.idx && h.idx <= s.end < n && NoneWithin(heads, h.idx, s.end, h.level)
    && (s.end + 1 < n ==> OneAt(heads, s.end + 1, h.level))
  }

  lemma SpanIsSection(heads: seq<Head>, h: Head, n: nat)
    requires InOrder(heads, n) && h.idx < n
    ensures IsSectionOf(heads, h, n, SpanOf(heads, h, n))
  {
    SpanEndIsFirst(heads, h, n, 0);
    var end := SpanOf(heads, h, n).end;
    if end + 1 < n {
      var k :| 0 <= k < |heads| && Ends(h, heads[k]) && end == heads[k].idx - 1;
      assert heads[k].idx == end + 1;
    }
    forall k | 0 <= k < |heads| && h.idx < heads[k].idx && (heads[k].topology || (heads[k].anchor.Some? && heads[k].level <= h.level))
      ensures end < heads[k].idx
    {
      assert Ends(h, heads[k]);
    }
  }

  /** The last of the first k headings with this anchor. */
  ghost predicate LastUpTo(heads: seq<Head>, k: nat, a: string, j: nat) {
    j < k <= |heads| && heads[j].anchor == Some(a) && forall i :: j < i < k ==> heads[i].anchor != Some(a)
  }

  ghost predicate LastNumbered(heads: seq<Head>, a: string, j: nat) { LastUpTo(heads, |heads|, a, j) }

  ghost predicate AnchorFrom(heads: seq<Head>, n: nat, k: nat, a: string, j: nat) {
    LastUpTo(heads, k, a, j) && a in Anchors(heads, n, k) && Anchors(heads, n, k)[a] == Section(heads[j].level, SpanOf(heads, heads[j], n))
  }

  lemma {:induction false} AnchorsAre(heads: seq<Head>, n: nat, k: nat, a: string)
    requires k <= |heads|
    ensures if exists j :: 0 <= j < k && heads[j].anchor == Some(a) then exists j: nat :: AnchorFrom(heads, n, k, a, j) else a !in Anchors(heads, n, k)
    decreases k
  {
    hide SpanOf;
    if k > 0 {
      var m: nat := k - 1;
      AnchorsAre(heads, n, m, a);
      if heads[m].anchor == Some(a) {
        assert AnchorFrom(heads, n, k, a, m);
      } else {
        AnchorStays(heads, n, k, a);
        if j: nat :| AnchorFrom(heads, n, m, a, j) { assert AnchorFrom(heads, n, k, a, j); }
      }
    }
  }

  lemma AnchorStays(heads: seq<Head>, n: nat, k: nat, a: string)
    requires 0 < k <= |heads| && heads[k - 1].anchor != Some(a)
    ensures a in Anchors(heads, n, k) <==> a in Anchors(heads, n, k - 1)
    ensures a in Anchors(heads, n, k) ==> Anchors(heads, n, k)[a] == Anchors(heads, n, k - 1)[a]
  {
  }

  /**
   The map has a section for each anchor: that of the last heading with it, which holds no numbered heading of its
   level or above and no Topology heading but its own, and stops only before such a heading or at the end.
   */
  lemma SectionsAre(lines: seq<string>, c: Spans, a: string)
    requires Parse(lines) == Some(c)
    ensures
      var heads := Heads(lines, |lines|);
      && (a in c.anchors <==> exists j: nat :: LastNumbered(heads, a, j))
      && (a in c.anchors ==>
            exists j: nat :: LastNumbered(heads, a, j) && c.anchors[a].level == heads[j].level && IsSectionOf(heads, heads[j], |lines|, c.anchors[a].span))
  {
    hide IsSectionOf, SpanEnd, Parse, Anchors, Heads;
    var heads := Heads(lines, |lines|);
    HeadsInOrder(lines, |lines|);
    ParsedAnchors(lines, c);
    AnchorsAre(heads, |lines|, |heads|, a);
    if j: nat :| LastNumbered(heads, a, j) { assert heads[j].anchor == Some(a); }
    if a in c.anchors {
      var j: nat :| AnchorFrom(heads, |lines|, |heads|, a, j);
      assert LastNumbered(heads, a, j);
      SpanIsSection(heads, heads[j], |lines|);
    }
  }

  lemma ParsedAnchors(lines: seq<string>, c: Spans)
    requires Parse(lines) == Some(c)
    ensures c.anchors == Anchors(Heads(lines, |lines|), |lines|, |Heads(lines, |lines|)|)
  {
  }

  /** Two sections of the same level have no line in common. */
  lemma EqualLevelsAreDisjoint(lines: seq<string>, c: Spans, a: string, b: string)
    requires Parse(lines) == Some(c) && a in c.anchors && b in c.anchors && a != b && c.anchors[a].level == c.anchors[b].level
    ensures c.anchors[a].span.end < c.anchors[b].span.start || c.anchors[b].span.end < c.anchors[a].span.start
  {
    var heads := Heads(lines, |lines|);
    SectionsAre(lines, c, a);
    SectionsAre(lines, c, b);
    HeadsInOrder(lines, |lines|);
    var i: nat :| LastNumbered(heads, a, i) && c.anchors[a].level == heads[i].level && IsSectionOf(heads, heads[i], |lines|, c.anchors[a].span);
    var j: nat :| LastNumbered(heads, b, j) && c.anchors[b].level == heads[j].level && IsSectionOf(heads, heads[j], |lines|, c.anchors[b].span);
    assert i < j ==> heads[i].idx < heads[j].idx;
    assert j < i ==> heads[j].idx < heads[i].idx;
  }

  lemma {:induction false} FirstTopologyIs(heads: seq<Head>, k: nat)
    requires k <= |heads|
    ensures
      match FirstTopology(heads, k)
      case None => forall i :: k <= i < |heads| ==> !heads[i].topology
      case Some(h) => exists j :: k <= j < |heads| && heads[j] == h && h.topology && forall i :: k <= i < j ==> !heads[i].topology
    decreases |heads| - k
  {
    if k < |heads| && !heads[k].topology { FirstTopologyIs(heads, k + 1); }
  }

  lemma {:induction false} FirstNumberedIs(heads: seq<Head>, k: nat)
    requires k <= |heads|
    ensures
      match FirstNumbered(heads, k)
      case None => forall i :: k <= i < |heads| ==> heads[i].anchor.None?
      case Some(h) => exists j :: k <= j < |heads| && heads[j] == h && h.anchor.Some? && forall i :: k <= i < j ==> heads[i].anchor.None?
    decreases |heads| - k
  {
    if k < |heads| && heads[k].anchor.None? { FirstNumberedIs(heads, k + 1); }
  }

  ghost predicate FirstNumberedAt(heads: seq<Head>, j: nat) {
    j < |heads| && heads[j].anchor.Some? && forall i :: 0 <= i < j ==> heads[i].anchor.None?
  }

  ghost predicate FirstTopologyAt(heads: seq<Head>, j: nat) {
    j < |heads| && heads[j].topology && forall i :: 0 <= i < j ==> !heads[i].topology
  }

  /**
   A file has a map exactly if it has a numbered and a Topology heading.  Its preamble is what comes before the first
   numbered heading; its Topology block begins at the first such heading and ends as a section does.
   */
  lemma PreambleAndTopologyAre(lines: seq<string>)
    ensures
      var heads := Heads(lines, |lines|);
      && (Parse(lines).Some? <==> (exists j: nat :: FirstNumberedAt(heads, j)) && exists j: nat :: FirstTopologyAt(heads, j))
      && (Parse(lines).Some? ==>
            && (exists j: nat :: FirstNumberedAt(heads, j) && Parse(lines).value.preamble == Span(0, heads[j].idx - 1))
            && exists j: nat :: FirstTopologyAt(heads, j) && IsSectionOf(heads, heads[j], |lines|, Parse(lines).value.topology))
  {
    hide IsSectionOf, SpanEnd, Anchors;
    var heads := Heads(lines, |lines|);
    HeadsInOrder(lines, |lines|);
    FirstTopologyIs(heads, 0);
    FirstNumberedIs(heads, 0);
    if FirstNumbered(heads, 0).Some? {
      var j :| 0 <= j < |heads| && heads[j] == FirstNumbered(heads, 0).value && heads[j].anchor.Some? && forall i :: 0 <= i < j ==> heads[i].anchor.None?;
      assert FirstNumberedAt(heads, j);
    }
    if FirstTopology(heads, 0).Some? {
      var j :| 0 <= j < |heads| && heads[j] == FirstTopology(heads, 0).value && heads[j].topology && forall i :: 0 <= i < j ==> !heads[i].topology;
      assert FirstTopologyAt(heads, j);
      SpanIsSection(heads, heads[j], |lines|);
    }
  }
}
