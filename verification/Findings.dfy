/**
 What the local code scanner reports: findings with a severity, and issues that make a scan incomplete.  Samples
 are capped per severity; the lemmas say what a cap can never hide.
 */
module Findings {

  datatype Severity = Review | High | Critical

  /** SEVERITY_RANK */
  function Rank(s: Severity): nat {
    match s case Review => 1 case High => 2 case Critical => 3
  }

  datatype Finding = Finding(path: string, ruleId: string, severity: Severity, offset: nat)

  datatype Issue = Issue(path: string, operation: string)

  datatype Limits = Limits(review: nat, high: nat, critical: nat)

  const FILE_LIMITS := Limits(2048, 1024, 1024)
  const FILE_ISSUE_LIMIT: nat := 4096
  const GLOBAL_LIMITS := Limits(40_000, 5_000, 5_000)
  const GLOBAL_ISSUE_LIMIT: nat := 10_000
  const ANALYSIS_LIMIT: nat := 128

  function LimitOf(l: Limits, s: Severity): nat {
    match s case Review => l.review case High => l.high case Critical => l.critical
  }

  function Count(fs: seq<Finding>, s: Severity): nat {
    if fs == [] then 0 else Count(fs[..|fs| - 1], s) + if fs[|fs| - 1].severity == s then 1 else 0
  }

  /** The samples left of findings reported in this order. */
  function Kept(l: Limits, fs: seq<Finding>): seq<Finding> {
    if fs == [] then []
    else
      var before, f := Kept(l, fs[..|fs| - 1]), fs[|fs| - 1];
      if Count(before, f.severity) < LimitOf(l, f.severity) then before + [f] else before
  }

  function KeptIssues(limit: nat, issues: seq<Issue>): seq<Issue> {
    if |issues| <= limit then issues else issues[..limit]
  }

  /** Of the issues the first are kept, as many as the limit allows. */
  lemma KeptIssuesAre(limit: nat, issues: seq<Issue>)
    ensures |KeptIssues(limit, issues)| == if |issues| < limit then |issues| else limit
    ensures forall i :: 0 <= i < |KeptIssues(limit, issues)| ==> KeptIssues(limit, issues)[i] == issues[i]
  {
  }

  ghost predicate Has(fs: seq<Finding>, s: Severity) {
    exists i :: 0 <= i < |fs| && fs[i].severity == s
  }

  /** Some finding is at least this severe: what the exit code asks. */
  ghost predicate AtLeast(fs: seq<Finding>, threshold: int) {
    exists i :: 0 <= i < |fs| && Rank(fs[i].severity) >= threshold
  }

  /** Review findings are the least severe, critical ones the most. */
  predicate AsSevereAs(s: Severity, t: Severity) {
    match t case Review => true case High => s != Review case Critical => s == Critical
  }

  lemma RankOrders(s: Severity, t: Severity)
    ensures Rank(s) >= Rank(t) <==> AsSevereAs(s, t)
  {
  }

  // ----- caps

  function OfSeverity(fs: seq<Finding>, s: Severity): seq<Finding> {
    if fs == [] then [] else OfSeverity(fs[..|fs| - 1], s) + if fs[|fs| - 1].severity == s then [fs[|fs| - 1]] else []
  }

  lemma {:induction false} OfSeverityCount(fs: seq<Finding>, s: Severity)
    ensures |OfSeverity(fs, s)| == Count(fs, s)
    decreases |fs|
  {
    if fs != [] { OfSeverityCount(fs[..|fs| - 1], s); }
  }

  lemma OfSeverityAppend(a: seq<Finding>, f: Finding, s: Severity)
    ensures OfSeverity(a + [f], s) == OfSeverity(a, s) + if f.severity == s then [f] else []
  {
    assert (a + [f])[..|a|] == a;
  }

  lemma NothingKept(l: Limits, s: Severity)
    ensures Kept(l, []) == [] && OfSeverity([], s) == []
  {
  }

  /** What a cap keeps of a severity is the first of its findings, in order. */
  lemma {:induction false} KeptIsFirst(l: Limits, fs: seq<Finding>, s: Severity)
    ensures
      var all := OfSeverity(fs, s);
      OfSeverity(Kept(l, fs), s) == if |all| <= LimitOf(l, s) then all else all[..LimitOf(l, s)]
    decreases |fs|
  {
    hide Kept, OfSeverity, Count, LimitOf;
    if fs == [] {
      NothingKept(l, s);
    } else {
      var before, f := fs[..|fs| - 1], fs[|fs| - 1];
      assert fs == before + [f];
      KeptIsFirst(l, before, s);
      KeptAppend(l, before, f);
      OfSeverityCount(Kept(l, before), s);
      OfSeverityAppend(before, f, s);
      OfSeverityAppend(Kept(l, before), f, s);
    }
  }

  lemma {:induction false} CountIsHas(fs: seq<Finding>, s: Severity)
    ensures Count(fs, s) > 0 <==> Has(fs, s)
    decreases |fs|
  {
    if fs != [] {
      var before := fs[..|fs| - 1];
      CountIsHas(before, s);
      if Has(before, s) {
        var i :| 0 <= i < |before| && before[i].severity == s;
        assert fs[i].severity == s;
      }
      if Has(fs, s) && !Has(before, s) {
        var i :| 0 <= i < |fs| && fs[i].severity == s;
        assert i < |before| ==> before[i].severity == s;
      }
    }
  }

  lemma {:induction false} CountConcat(a: seq<Finding>, b: seq<Finding>, s: Severity)
    ensures Count(a + b, s) == Count(a, s) + Count(b, s)
    decreases |b|
  {
    if b == [] {
      assert a + b == a;
    } else {
      CountConcat(a, b[..|b| - 1], s);
      assert (a + b)[..|a + b| - 1] == a + b[..|b| - 1];
    }
  }

  lemma CountAppend(a: seq<Finding>, f: Finding, s: Severity)
    ensures Count(a + [f], s) == Count(a, s) + if f.severity == s then 1 else 0
  {
    assert (a + [f])[..|a|] == a;
  }

  lemma KeptAppend(l: Limits, a: seq<Finding>, f: Finding)
    ensures Kept(l, a + [f]) == if Count(Kept(l, a), f.severity) < LimitOf(l, f.severity) then Kept(l, a) + [f] else Kept(l, a)
  {
    assert (a + [f])[..|a|] == a;
  }

  /** The cap of a severity is reached exactly when there were that many. */
  lemma {:induction false} KeptCount(l: Limits, fs: seq<Finding>, s: Severity)
    ensures Count(Kept(l, fs), s) == if Count(fs, s) <= LimitOf(l, s) then Count(fs, s) else LimitOf(l, s)
    decreases |fs|
  {
    if fs != [] {
      var before, f := fs[..|fs| - 1], fs[|fs| - 1];
      KeptCount(l, before, s);
      CountAppend(Kept(l, before), f, s);
    }
  }

  lemma KeptMergeStep(l: Limits, a: seq<Finding>, b: seq<Finding>, f: Finding)
    requires Kept(l, a + Kept(l, b)) == Kept(l, a + b)
    ensures Kept(l, a + Kept(l, b + [f])) == Kept(l, a + (b + [f]))
  {
    hide Kept, LimitOf;
    KeptAppend(l, b, f);
    KeptAppend(l, a + b, f);
    assert a + (b + [f]) == (a + b) + [f];
    if Count(Kept(l, b), f.severity) < LimitOf(l, f.severity) {
      assert a + (Kept(l, b) + [f]) == (a + Kept(l, b)) + [f];
      KeptAppend(l, a + Kept(l, b), f);
    } else {
      KeptCount(l, b, f.severity);
      KeptCount(l, a + b, f.severity);
      CountConcat(a, b, f.severity);
    }
  }

  /** Capping before merging changes nothing: a nested result may be capped by itself. */
  lemma {:induction false} KeptMerge(l: Limits, a: seq<Finding>, b: seq<Finding>)
    ensures Kept(l, a + Kept(l, b)) == Kept(l, a + b)
    decreases |b|
  {
    hide Kept;
    if b == [] {
      NothingKept(l, Review);
    } else {
      KeptMerge(l, a, b[..|b| - 1]);
      KeptMergeStep(l, a, b[..|b| - 1], b[|b| - 1]);
      assert b == b[..|b| - 1] + [b[|b| - 1]];
    }
  }

  /** A positive cap hides no severity and invents none. */
  lemma KeptSeverities(l: Limits, fs: seq<Finding>, s: Severity)
    requires LimitOf(l, s) > 0
    ensures Has(Kept(l, fs), s) <==> Has(fs, s)
  {
    KeptCount(l, fs, s);
    CountIsHas(fs, s);
    CountIsHas(Kept(l, fs), s);
  }

  lemma AtLeastBySeverity(fs: seq<Finding>, threshold: int)
    ensures AtLeast(fs, threshold) <==> exists s :: Rank(s) >= threshold && Has(fs, s)
  {
    if AtLeast(fs, threshold) {
      var i :| 0 <= i < |fs| && Rank(fs[i].severity) >= threshold;
      assert Has(fs, fs[i].severity);
    }
  }

  lemma KeptAtLeast(l: Limits, fs: seq<Finding>, threshold: int)
    requires forall s :: LimitOf(l, s) > 0
    ensures AtLeast(Kept(l, fs), threshold) <==> AtLeast(fs, threshold)
  {
    AtLeastBySeverity(fs, threshold);
    AtLeastBySeverity(Kept(l, fs), threshold);
    forall s ensures Has(Kept(l, fs), s) <==> Has(fs, s) { KeptSeverities(l, fs, s); }
  }

  lemma AtLeastConcat(a: seq<Finding>, b: seq<Finding>, threshold: int)
    ensures AtLeast(a + b, threshold) <==> AtLeast(a, threshold) || AtLeast(b, threshold)
  {
    if AtLeast(a, threshold) {
      var i :| 0 <= i < |a| && Rank(a[i].severity) >= threshold;
      assert (a + b)[i] == a[i];
    }
    if AtLeast(b, threshold) {
      var i :| 0 <= i < |b| && Rank(b[i].severity) >= threshold;
      assert (a + b)[|a| + i] == b[i];
    }
  }

  // ----- one analysis: duplicates collapse, then the most severe 128 are kept

  predicate SameKey(f: Finding, g: Finding) {
    f.ruleId == g.ruleId && f.offset == g.offset && f.severity == g.severity
  }

  /** The dictionary keyed by rule, offset and severity: a later finding takes an earlier one's place. */
  function Unique(fs: seq<Finding>): (u: seq<Finding>)
    ensures |u| <= |fs|
  {
    if fs == [] then [] else Put(Unique(fs[..|fs| - 1]), fs[|fs| - 1])
  }

  function Put(u: seq<Finding>, f: Finding): (r: seq<Finding>)
    ensures |u| <= |r| <= |u| + 1
  {
    if u == [] then [f]
    else if SameKey(u[0], f) then [f] + u[1..]
    else [u[0]] + Put(u[1..], f)
  }

  lemma {:induction false} PutHas(u: seq<Finding>, f: Finding, s: Severity)
    ensures Has(Put(u, f), s) <==> Has(u, s) || f.severity == s
    decreases |u|
  {
    var r := Put(u, f);
    if u == [] {
      assert r[0] == f;
    } else if SameKey(u[0], f) {
      assert r[0] == f;
      assert forall i :: 0 < i < |u| ==> r[i] == u[i];
    } else {
      PutHas(u[1..], f, s);
      assert r[0] == u[0] && r[1..] == Put(u[1..], f);
      HasHead(u, s);
      HasHead(r, s);
    }
  }

  /** And no later finding is of the same rule, at the same place and as severe. */
  ghost predicate LastOfItsKind(fs: seq<Finding>, i: nat, f: Finding) {
    i < |fs| && fs[i] == f && forall j :: i < j < |fs| ==> !(fs[j].ruleId == f.ruleId && fs[j].offset == f.offset && fs[j].severity == f.severity)
  }

  ghost predicate NoneAlike(fs: seq<Finding>) {
    forall i, j :: 0 <= i < j < |fs| ==> fs[i].ruleId != fs[j].ruleId || fs[i].offset != fs[j].offset || fs[i].severity != fs[j].severity
  }

  lemma LastNext(fs: seq<Finding>, i: nat, f: Finding)
    requires fs != []
    ensures
      var n: nat := |fs| - 1;
      LastOfItsKind(fs, i, f) <==> (i == n && fs[n] == f) || (i < n && LastOfItsKind(fs[..n], i, f) && !SameKey(f, fs[n]))
  {
  }

  lemma AlikeHead(r: seq<Finding>)
    requires r != []
    ensures NoneAlike(r) <==> NoneAlike(r[1..]) && forall g :: g in r[1..] ==> !SameKey(r[0], g)
  {
    var rest := r[1..];
    forall i | 0 <= i < |rest| ensures rest[i] == r[i + 1] {}
    if NoneAlike(r) {
      forall g | g in rest ensures !SameKey(r[0], g) {
        var i :| 0 <= i < |rest| && rest[i] == g;
        assert r[i + 1] == g;
      }
    }
    if NoneAlike(rest) && forall g :: g in rest ==> !SameKey(r[0], g) {
      forall i, j | 0 <= i < j < |r| ensures !SameKey(r[i], r[j]) {
        var k := j - 1;
        assert rest[k] == r[j] && rest[k] in rest;
        if i > 0 {
          var h := i - 1;
          assert rest[h] == r[i];
        }
      }
    }
  }

  lemma {:induction false} PutIs(u: seq<Finding>, f: Finding)
    requires NoneAlike(u)
    ensures NoneAlike(Put(u, f)) && forall g :: g in Put(u, f) <==> g == f || (g in u && !SameKey(g, f))
    decreases |u|
  {
    var r := Put(u, f);
    AlikeHead(r);
    assert r == [r[0]] + r[1..];
    if u == [] {
      assert r[1..] == [];
      NoFindings();
    } else {
      AlikeHead(u);
      assert u == [u[0]] + u[1..];
      assert r[1..] == if SameKey(u[0], f) then u[1..] else Put(u[1..], f);
      if !SameKey(u[0], f) { PutIs(u[1..], f); }
      hide NoneAlike, Put;
    }
  }

  /** What is left of duplicates: of each rule, place and severity the finding that came last, once. */
  lemma {:induction false} UniqueIs(fs: seq<Finding>, f: Finding)
    ensures f in Unique(fs) <==> exists i: nat :: LastOfItsKind(fs, i, f)
    ensures NoneAlike(Unique(fs))
    decreases |fs|
  {
    hide Put, SameKey, LastOfItsKind, NoneAlike;
    if fs == [] {
      NoFindings();
    } else {
      var n: nat := |fs| - 1;
      var before, last := fs[..n], fs[n];
      UniqueIs(before, f);
      PutIs(Unique(before), last);
      LastNext(fs, n, f);
      if i: nat :| LastOfItsKind(before, i, f) {
        InRange(before, i, f);
        LastNext(fs, i, f);
      }
      if i: nat :| LastOfItsKind(fs, i, f) { LastNext(fs, i, f); }
    }
  }

  lemma InRange(fs: seq<Finding>, i: nat, f: Finding)
    requires LastOfItsKind(fs, i, f)
    ensures i < |fs|
  {
  }

  lemma NoFindings()
    ensures NoneAlike([]) && forall i: nat, f :: !LastOfItsKind([], i, f)
  {
  }

  lemma HasHead(fs: seq<Finding>, s: Severity)
    requires fs != []
    ensures Has(fs, s) <==> fs[0].severity == s || Has(fs[1..], s)
  {
    if Has(fs, s) && fs[0].severity != s {
      var i :| 0 <= i < |fs| && fs[i].severity == s;
      assert fs[1..][i - 1] == fs[i];
    }
    if Has(fs[1..], s) {
      var i :| 0 <= i < |fs[1..]| && fs[1..][i].severity == s;
      assert fs[i + 1].severity == s;
    }
  }

  lemma {:induction false} UniqueHas(fs: seq<Finding>, s: Severity)
    ensures Has(Unique(fs), s) <==> Has(fs, s)
    decreases |fs|
  {
    if fs != [] {
      var before, f := fs[..|fs| - 1], fs[|fs| - 1];
      UniqueHas(before, s);
      PutHas(Unique(before), f, s);
      assert fs == before + [f];
      CountAppend(before, f, s);
      CountIsHas(before, s);
      CountIsHas(fs, s);
    }
  }

  predicate MostSevereFirst(fs: seq<Finding>) {
    forall i, j :: 0 <= i < j < |fs| ==> Rank(fs[i].severity) >= Rank(fs[j].severity)
  }

  /** sorted(unique.values())[:128] */
  ghost predicate IsBounded(raw: seq<Finding>, bounded: seq<Finding>) {
    exists order :: Sorts(order, Unique(raw)) && bounded == if |order| <= ANALYSIS_LIMIT then order else order[..ANALYSIS_LIMIT]
  }

  ghost predicate Sorts(order: seq<Finding>, fs: seq<Finding>) {
    multiset(order) == multiset(fs) && MostSevereFirst(order)
  }

  lemma SameElements(a: seq<Finding>, b: seq<Finding>, s: Severity)
    requires multiset(a) == multiset(b)
    ensures Has(a, s) ==> Has(b, s)
  {
    if Has(a, s) {
      var i :| 0 <= i < |a| && a[i].severity == s;
      assert a[i] in multiset(a);
      assert a[i] in b;
      var j :| 0 <= j < |b| && b[j] == a[i];
    }
  }

  /** The truncation to 128 never lowers the greatest severity. */
  lemma BoundedAtLeast(raw: seq<Finding>, bounded: seq<Finding>, threshold: int)
    requires IsBounded(raw, bounded)
    ensures AtLeast(bounded, threshold) <==> AtLeast(raw, threshold)
  {
    var order: seq<Finding> :| Sorts(order, Unique(raw)) && bounded == if |order| <= ANALYSIS_LIMIT then order else order[..ANALYSIS_LIMIT];
    AtLeastBySeverity(raw, threshold);
    AtLeastBySeverity(order, threshold);
    forall s ensures Has(order, s) <==> Has(raw, s) {
      UniqueHas(raw, s);
      SameElements(order, Unique(raw), s);
      SameElements(Unique(raw), order, s);
    }
    if AtLeast(order, threshold) {
      var i :| 0 <= i < |order| && Rank(order[i].severity) >= threshold;
      assert i > 0 ==> Rank(order[0].severity) >= Rank(order[i].severity);
      assert bounded[0] == order[0];
    }
    if AtLeast(bounded, threshold) {
      var i :| 0 <= i < |bounded| && Rank(bounded[i].severity) >= threshold;
      assert order[i] == bounded[i];
    }
  }
}
