/** What the inbox holds and hands out over whole runs: which rows, which of them acted on, by which claims. */
module InboxRows {

  import opened Inbox
  import opened Options

  // ----- rows are messages

  /** A row is a human message of the history, with its time and its command mark, and it is acted on for a reason. */
  ghost predicate Accounted(s: Sys, steps: seq<Step>, r: Row) {
    && (exists i :: 0 <= i < |s.log| && s.log[i].human && s.log[i].id == r.id && s.log[i].ts == r.ts && s.log[i].command == r.command)
    && (r.acted ==> r.id in s.claims || Ack(r.id) in steps)
  }

  ghost predicate AllAccounted(s: Sys, steps: seq<Step>) {
    && (forall i :: 0 <= i < |s.rows| ==> Accounted(s, steps, s.rows[i]))
    && (forall id :: id in s.claims ==> exists i :: 0 <= i < |s.rows| && s.rows[i].id == id && s.rows[i].command && s.rows[i].acted)
    && forall p :: 0 <= p < |s.polls| ==> TodoOk(s, s.polls[p])
  }

  /** What a poll means to claim are commands the inbox knows. */
  ghost predicate TodoOk(s: Sys, q: Poll) {
    q.Claiming? ==> forall id :: id in q.todo ==> exists i :: 0 <= i < |s.rows| && s.rows[i].id == id && s.rows[i].command
  }

  /** A poll sets out to claim exactly the commands that nobody acted on. */
  lemma {:induction false} SelectedAre(rows: seq<Row>, id: string)
    ensures id in Ids(rows) <==> exists i :: 0 <= i < |rows| && rows[i].id == id && rows[i].command && !rows[i].acted
    decreases |rows|
  {
    if rows != [] {
      SelectedAre(rows[1..], id);
      assert rows == [rows[0]] + rows[1..];
      if i :| 0 <= i < |rows| && rows[i].id == id && rows[i].command && !rows[i].acted {
        if i > 0 { assert rows[1..][i - 1] == rows[i]; }
      }
    }
  }

  /** The rows of a commit: the old ones as they were, then one unacted row per message that is new. */
  lemma {:induction false} InsertedAre(rows: seq<Row>, ms: seq<Message>)
    ensures rows <= InsertAll(rows, ms)
    ensures forall i :: |rows| <= i < |InsertAll(rows, ms)| ==>
              !InsertAll(rows, ms)[i].acted && exists m :: m in ms && InsertAll(rows, ms)[i] == Row(m.id, m.ts, m.command, false)
    decreases |ms|
  {
    if ms != [] {
      var more := Insert(rows, ms[0]);
      InsertedAre(more, ms[1..]);
      assert ms == [ms[0]] + ms[1..];
      forall i | |rows| <= i < |InsertAll(rows, ms)|
        ensures !InsertAll(rows, ms)[i].acted && exists m :: m in ms && InsertAll(rows, ms)[i] == Row(m.id, m.ts, m.command, false)
      {
        if i < |more| {
          assert InsertAll(rows, ms)[i] == more[i] == Row(ms[0].id, ms[0].ts, ms[0].command, false);
        } else {
          var m :| m in ms[1..] && InsertAll(more, ms[1..])[i] == Row(m.id, m.ts, m.command, false);
          assert m in ms;
        }
      }
    }
  }

  lemma ActedAre(rows: seq<Row>, id: string)
    ensures |Act(rows, id)| == |rows|
    ensures forall i :: 0 <= i < |rows| ==> Act(rows, id)[i] == if rows[i].id == id then Row(rows[i].id, rows[i].ts, rows[i].command, true) else rows[i]
  {
  }

  lemma CommitAccounts(s: Sys, steps: seq<Step>, p: nat)
    requires Inv(s) && AllAccounted(s, steps) && Enabled(s, Commit(p))
    ensures AllAccounted(Next(s, Commit(p)), steps)
  {
    var q := s.polls[p];
    var t := Next(s, Commit(p));
    assert PollInv(s, q);
    InsertedAre(s.rows, q.messages);
    forall i | 0 <= i < |t.rows| ensures Accounted(t, steps, t.rows[i]) {
      if i < |s.rows| {
        assert Accounted(s, steps, s.rows[i]);
      } else {
        var m :| m in q.messages && t.rows[i] == Row(m.id, m.ts, m.command, false);
        assert m.human && m in s.log[..q.high];
        var k :| 0 <= k < q.high && s.log[..q.high][k] == m;
        assert s.log[k] == m;
      }
    }
    forall id | id in t.claims ensures exists i :: 0 <= i < |t.rows| && t.rows[i].id == id && t.rows[i].command && t.rows[i].acted {
      var i :| 0 <= i < |s.rows| && s.rows[i].id == id && s.rows[i].command && s.rows[i].acted;
      assert t.rows[i] == s.rows[i];
    }
    forall x | 0 <= x < |t.polls| ensures TodoOk(t, t.polls[x]) {
      if x != p {
        assert TodoOk(s, s.polls[x]);
        forall id | t.polls[x].Claiming? && id in t.polls[x].todo ensures exists i :: 0 <= i < |t.rows| && t.rows[i].id == id && t.rows[i].command {
          var i :| 0 <= i < |s.rows| && s.rows[i].id == id && s.rows[i].command;
          assert t.rows[i] == s.rows[i];
        }
      }
    }
  }

  lemma ActAccounts(s: Sys, steps: seq<Step>, id: string, claims: seq<string>)
    requires AllAccounted(s, steps)
    requires (claims == s.claims && Ack(id) in steps) || (claims == s.claims + [id] && exists i :: 0 <= i < |s.rows| && s.rows[i].id == id && s.rows[i].command)
    ensures AllAccounted(s.(rows := Act(s.rows, id), claims := claims), steps)
  {
    var t := s.(rows := Act(s.rows, id), claims := claims);
    ActedAre(s.rows, id);
    forall i | 0 <= i < |t.rows| ensures Accounted(t, steps, t.rows[i]) { assert Accounted(s, steps, s.rows[i]); }
    forall x | x in t.claims ensures exists i :: 0 <= i < |t.rows| && t.rows[i].id == x && t.rows[i].command && t.rows[i].acted {
      if x in s.claims {
        var i :| 0 <= i < |s.rows| && s.rows[i].id == x && s.rows[i].command && s.rows[i].acted;
        assert t.rows[i].acted;
      } else {
        var i :| 0 <= i < |s.rows| && s.rows[i].id == id && s.rows[i].command;
        assert t.rows[i].acted;
      }
    }
    forall x | 0 <= x < |t.polls| ensures TodoOk(t, t.polls[x]) {
      assert TodoOk(s, s.polls[x]);
      forall y | t.polls[x].Claiming? && y in t.polls[x].todo ensures exists i :: 0 <= i < |t.rows| && t.rows[i].id == y && t.rows[i].command {
        var i :| 0 <= i < |s.rows| && s.rows[i].id == y && s.rows[i].command;
        assert t.rows[i].command;
      }
    }
  }

  lemma PollAccounts(s: Sys, steps: seq<Step>, p: nat, q: Poll)
    requires AllAccounted(s, steps) && p < |s.polls| && TodoOk(s, q)
    ensures AllAccounted(s.(polls := s.polls[p := q]), steps)
  {
    var t := s.(polls := s.polls[p := q]);
    forall i | 0 <= i < |t.rows| ensures Accounted(t, steps, t.rows[i]) { assert Accounted(s, steps, s.rows[i]); }
    forall x | 0 <= x < |t.polls| ensures TodoOk(t, t.polls[x]) {
      if x != p { assert TodoOk(s, s.polls[x]); }
    }
  }

  lemma MoreStepsAccount(s: Sys, steps: seq<Step>, more: seq<Step>)
    requires AllAccounted(s, steps) && forall x :: x in steps ==> x in more
    ensures AllAccounted(s, more)
  {
    forall i | 0 <= i < |s.rows| ensures Accounted(s, more, s.rows[i]) { assert Accounted(s, steps, s.rows[i]); }
  }

  lemma StepAccounts(s: Sys, steps: seq<Step>, step: Step)
    requires Inv(s) && AllAccounted(s, steps) && Enabled(s, step) && step in steps
    ensures AllAccounted(Next(s, step), steps)
  {
    SaneNow(s);
    hide Inv, AllAccounted, Act, InsertAll, Accounted, SlackPage, LarkPage;
    match step
    case Arrive(m) => ArriveAccounts(s, steps, m);
    case Commit(p) => CommitAccounts(s, steps, p);
    case Select(p) =>
      SelectAccounts(s, steps, p);
    case Claim(p) =>
      ClaimAccounts(s, steps, p);
    case Ack(id) => ActAccounts(s, steps, id, s.claims);
    case PageSlack(p, size) => PagesAreNoClaims(s, step); PollAccounts(s, steps, p, Next(s, step).polls[p]);
    case PageLark(p, size) => PagesAreNoClaims(s, step); PollAccounts(s, steps, p, Next(s, step).polls[p]);
    case StartSlack(p, from) => PollAccounts(s, steps, p, Begun(s.cursor, from));
    case ViewSlack(p) => PollAccounts(s, steps, p, Viewed(s.polls[p], |s.log|));
    case StartLark(p, from) => PollAccounts(s, steps, p, Next(s, step).polls[p]);
    case Fail(p) => PollAccounts(s, steps, p, Idle);
  }

  lemma PagesAreNoClaims(s: Sys, step: Step)
    requires Inv(s) && Enabled(s, step)
    ensures step.PageSlack? ==> !SlackPage(s.log, s.polls[step.p], step.size).Claiming?
    ensures step.PageLark? ==> !LarkPage(s.log, s.polls[step.p], step.size).Claiming?
  {
  }

  lemma ArriveAccounts(s: Sys, steps: seq<Step>, m: Message)
    requires AllAccounted(s, steps)
    ensures AllAccounted(s.(log := s.log + [m]), steps)
  {
    var t := s.(log := s.log + [m]);
    forall i | 0 <= i < |t.rows| ensures Accounted(t, steps, t.rows[i]) {
      assert Accounted(s, steps, s.rows[i]);
      var k :| 0 <= k < |s.log| && s.log[k].human && s.log[k].id == s.rows[i].id && s.log[k].ts == s.rows[i].ts && s.log[k].command == s.rows[i].command;
      assert t.log[k] == s.log[k];
    }
    forall x | 0 <= x < |t.polls| ensures TodoOk(t, t.polls[x]) { assert TodoOk(s, s.polls[x]); }
  }

  lemma SelectAccounts(s: Sys, steps: seq<Step>, p: nat)
    requires Inv(s) && AllAccounted(s, steps) && Enabled(s, Select(p))
    ensures AllAccounted(Next(s, Select(p)), steps)
  {
    hide Accounted, Inv;
    forall id | id in Ids(s.rows) ensures exists i :: 0 <= i < |s.rows| && s.rows[i].id == id && s.rows[i].command { SelectedAre(s.rows, id); }
    PollAccounts(s, steps, p, Claiming(Ids(s.rows)));
  }

  lemma ClaimAccounts(s: Sys, steps: seq<Step>, p: nat)
    requires Inv(s) && AllAccounted(s, steps) && Enabled(s, Claim(p))
    ensures AllAccounted(Next(s, Claim(p)), steps)
  {
    hide Accounted, Inv, Act;
    var todo := s.polls[p].todo;
    assert TodoOk(s, s.polls[p]);
    assert todo[0] in todo && forall id :: id in todo[1..] ==> id in todo;
    PollAccounts(s, steps, p, Claiming(todo[1..]));
    if Unacted(s.rows, todo[0]) { ActAccounts(s.(polls := s.polls[p := Claiming(todo[1..])]), steps, todo[0], s.claims + [todo[0]]); }
  }

  /**
   Over every run: each row is a human message of the history with its time and command mark; it is acted on only if
   some poll claimed it or it was acknowledged; and what was claimed are commands, now acted on.
   */
  lemma {:induction false} RowsAreMessages(n: nat, steps: seq<Step>)
    requires Run(n, steps).Some?
    ensures AllAccounted(Run(n, steps).value, steps)
    decreases |steps|
  {
    hide AllAccounted, Inv, Next, Enabled;
    if steps == [] {
      NothingHeld(n);
    } else {
      var before, last := steps[..|steps| - 1], steps[|steps| - 1];
      InboxIsSafe(n, before);
      RowsAreMessages(n, before);
      MoreStepsAccount(Run(n, before).value, before, steps);
      StepAccounts(Run(n, before).value, steps, last);
    }
  }

  lemma NothingHeld(n: nat)
    ensures AllAccounted(Init(n), [])
  {
  }

  // ----- a poll left to itself takes everything

  /** Nobody has a message that was not taken: what a finished poll leaves behind. */
  ghost predicate TakenAll(s: Sys, t: Sys) {
    && t.log == s.log
    && (forall i :: 0 <= i < |s.log| && s.log[i].human ==> Known(t.rows, s.log[i].id))
  }

  /** The cursor a commit stores: the latest of what it fetched, else the one it started from, else the one there was. */
  lemma CommitMovesCursor(s: Sys, p: nat)
    requires Inv(s) && Enabled(s, Commit(p))
    ensures
      var q, t := s.polls[p], Next(s, Commit(p));
      if q.messages != [] then
        (exists m :: m in q.messages && t.cursor == Some(m.ts)) && forall m :: m in q.messages ==> m.ts <= t.cursor.value
      else t.cursor == if q.start.Some? then q.start else s.cursor
  {
    var q := s.polls[p];
    assert PollInv(s, q);
    FurthestIs(q.messages, q.start);
    if q.messages != [] {
      assert q.messages[0] in q.messages && After(q.messages[0].ts, q.start) && !After(q.messages[0].ts, q.next);
    }
  }

  /** A poll of the newest-first kind that gets its page whole: every human message there is has a row afterwards. */
  lemma SlackTakesAll(s: Sys, p: nat, from: nat, size: nat)
    requires Inv(s) && Enabled(s, StartSlack(p, from)) && size >= |s.log|
    ensures
      var s1 := Next(s, StartSlack(p, from));
      && Inv(s1) && Enabled(s1, ViewSlack(p))
      && var s2 := Next(s1, ViewSlack(p));
         && Inv(s2) && Enabled(s2, PageSlack(p, size))
         && var s3 := Next(s2, PageSlack(p, size));
            Inv(s3) && Enabled(s3, Commit(p)) && TakenAll(s, Next(s3, Commit(p)))
  {
    hide Inv, Known, InsertAll;
    SaneNow(s);
    var s1 := Next(s, StartSlack(p, from));
    StepKeeps(s, StartSlack(p, from));
    var s2 := Next(s1, ViewSlack(p));
    StepKeeps(s1, ViewSlack(p));
    SaneNow(s2);
    var s3 := Next(s2, PageSlack(p, size));
    StepKeeps(s2, PageSlack(p, size));
    assert s3.polls[p].Fetched? && s3.polls[p].high == |s.log|;
    CommitKeeps(s3, p);
  }

  lemma SaneNow(s: Sys)
    requires Inv(s)
    ensures Sane(s)
  {
  }

  /** And of the oldest-first kind. */
  lemma LarkTakesAll(s: Sys, p: nat, from: nat, size: nat)
    requires Inv(s) && Enabled(s, StartLark(p, from)) && size >= |s.log|
    ensures
      var s1 := Next(s, StartLark(p, from));
      && Inv(s1) && Enabled(s1, PageLark(p, size))
      && var s2 := Next(s1, PageLark(p, size));
         Inv(s2) && Enabled(s2, Commit(p)) && TakenAll(s, Next(s2, Commit(p)))
  {
    hide Inv, Known, InsertAll;
    SaneNow(s);
    var s1 := Next(s, StartLark(p, from));
    StepKeeps(s, StartLark(p, from));
    var s2 := Next(s1, PageLark(p, size));
    StepKeeps(s1, PageLark(p, size));
    assert s2.polls[p].Fetched? && s2.polls[p].high == |s.log|;
    CommitKeeps(s2, p);
  }

  // ----- how many pages a poll needs, and what its claims do

  /** A newest-first poll left alone: pages of this size until it ends. */
  function SlackEnd(log: seq<Message>, q: Poll, size: nat): Poll
    requires q.Slack? && q.from <= q.low <= q.high <= |log|
    decreases MAX_POLL_PAGES - q.pages
  {
    var r := SlackPage(log, q, size);
    if r.Slack? then SlackEnd(log, r, size) else r
  }

  /** It ends with everything exactly if what is left fits the pages left, of 40; otherwise with nothing. */
  lemma {:induction false} SlackEndsIff(log: seq<Message>, q: Poll, size: nat)
    requires q.Slack? && q.from <= q.low <= q.high <= |log| && q.pages < 40
    ensures
      var r := SlackEnd(log, q, size);
      && (r.Fetched? <==> q.low - q.from <= (40 - q.pages) * size)
      && (r.Fetched? ==> r.high == q.high && r.start == q.start) && (!r.Fetched? ==> r.Idle?)
    decreases 40 - q.pages
  {
    hide Fresh, Furthest;
    var r := SlackPage(log, q, size);
    OnePageLess(q.low - q.from, 40 - q.pages, size);
    if r.Slack? { SlackEndsIff(log, r, size); }
  }

  lemma OnePageLess(left: int, pages: int, size: int)
    requires pages >= 1 && size >= 0
    ensures left <= pages * size <==> left <= size || left - size <= (pages - 1) * size
  {
    assert pages * size == (pages - 1) * size + size;
    if left <= size { assert (pages - 1) * size >= 0; }
  }

  /** An oldest-first poll left alone while nothing arrives. */
  function LarkEnd(log: seq<Message>, q: Poll, size: nat): Poll
    requires q.Lark? && q.high <= |log|
    decreases MAX_POLL_PAGES - q.pages
  {
    var r := LarkPage(log, q, size);
    if r.Lark? then LarkEnd(log, r, size) else r
  }

  lemma {:induction false} LarkEndsIff(log: seq<Message>, q: Poll, size: nat)
    requires q.Lark? && q.high <= |log| && q.pages < 40
    ensures
      var r := LarkEnd(log, q, size);
      && (r.Fetched? <==> |log| - q.high <= (40 - q.pages) * size)
      && (r.Fetched? ==> r.high == |log| && r.start == q.start) && (!r.Fetched? ==> r.Idle?)
    decreases 40 - q.pages
  {
    hide Fresh, Furthest;
    var r := LarkPage(log, q, size);
    OnePageLess(|log| - q.high, 40 - q.pages, size);
    if r.Lark? { LarkEndsIff(log, r, size); }
  }

  /** A poll of either kind that starts now and is left alone gets through exactly if its backlog fits 40 pages. */
  lemma BacklogFitsIff(s: Sys, p: nat, from: nat, size: nat)
    requires Inv(s) && Enabled(s, StartSlack(p, from))
    ensures
      var slack := Next(Next(s, StartSlack(p, from)), ViewSlack(p)).polls[p];
      && slack.Slack? && slack.from <= slack.low <= slack.high <= |s.log| && slack.start == s.cursor
      && (SlackEnd(s.log, slack, size).Fetched? <==> |s.log| - from <= 40 * size)
    ensures
      var lark := Next(s, StartLark(p, from)).polls[p];
      && lark.Lark? && lark.high <= |s.log| && lark.start == s.cursor
      && (LarkEnd(s.log, lark, size).Fetched? <==> |s.log| - from <= 40 * size)
  {
    SlackEndsIff(s.log, Next(Next(s, StartSlack(p, from)), ViewSlack(p)).polls[p], size);
    LarkEndsIff(s.log, Next(s, StartLark(p, from)).polls[p], size);
  }

  ghost predicate StillOpen(s: Sys, id: string) {
    exists i :: 0 <= i < |s.rows| && s.rows[i].id == id && !s.rows[i].acted
  }

  /** A claim is won exactly if the message has a row that nobody acted on; then nobody else can win it. */
  lemma ClaimDecides(s: Sys, p: nat)
    requires Inv(s) && Enabled(s, Claim(p))
    ensures
      var t, id := Next(s, Claim(p)), s.polls[p].todo[0];
      && t.claims == (if StillOpen(s, id) then s.claims + [id] else s.claims)
      && !StillOpen(t, id) && t.polls[p] == Claiming(s.polls[p].todo[1..])
      && forall x :: x != id ==> (StillOpen(t, x) <==> StillOpen(s, x))
  {
    var id := s.polls[p].todo[0];
    forall x ensures Unacted(s.rows, x) <==> StillOpen(s, x) {}
    forall x ensures Unacted(Act(s.rows, id), x) <==> x != id && Unacted(s.rows, x) { ActKeeps(s.rows, id, x); }
    forall x ensures Unacted(Next(s, Claim(p)).rows, x) <==> StillOpen(Next(s, Claim(p)), x) {}
  }

  /** A poll that fails takes nothing with it, and may start again. */
  lemma FailLosesNothing(s: Sys, p: nat)
    requires Inv(s) && Enabled(s, Fail(p))
    ensures
      var t := Next(s, Fail(p));
      && t.log == s.log && t.rows == s.rows && t.cursor == s.cursor && t.claims == s.claims && |t.polls| == |s.polls|
      && (forall q :: 0 <= q < |s.polls| && q != p ==> t.polls[q] == s.polls[q])
      && forall from: nat :: Covers(s.log, from, s.cursor) ==> Enabled(t, StartSlack(p, from)) && Enabled(t, StartLark(p, from))
  {
  }

  /** An acknowledgement closes a message for every poll, and nothing else. */
  lemma AckCloses(s: Sys, id: string, x: string)
    requires Inv(s)
    ensures StillOpen(Next(s, Ack(id)), x) <==> x != id && StillOpen(s, x)
  {
    ActKeeps(s.rows, id, x);
    var t := Next(s, Ack(id));
    assert Unacted(s.rows, x) <==> StillOpen(s, x);
    assert Unacted(t.rows, x) <==> StillOpen(t, x);
  }

  /** The claims of one poll left alone. */
  function ClaimsOf(s: Sys, p: nat): Sys
    requires Inv(s) && p < |s.polls| && s.polls[p].Claiming?
    decreases |s.polls[p].todo|
  {
    if s.polls[p].todo == [] then s
    else
      StepKeeps(s, Claim(p));
      ClaimsOf(Next(s, Claim(p)), p)
  }

  lemma {:induction false} ClaimsCloseTheirs(s: Sys, p: nat)
    requires Inv(s) && p < |s.polls| && s.polls[p].Claiming?
    ensures forall x :: StillOpen(ClaimsOf(s, p), x) <==> StillOpen(s, x) && x !in s.polls[p].todo
    decreases |s.polls[p].todo|
  {
    hide StillOpen, PollInv, Act;
    var todo := s.polls[p].todo;
    if todo != [] {
      StepKeeps(s, Claim(p));
      ClaimDecides(s, p);
      ClaimsCloseTheirs(Next(s, Claim(p)), p);
      assert todo == [todo[0]] + todo[1..];
    }
  }

  /** A poll that committed and is then left alone leaves no command open, and every other message as it was. */
  lemma CommandsAreHandled(s: Sys, p: nat)
    requires Inv(s) && Enabled(s, Select(p))
    ensures
      var t := Next(s, Select(p));
      && Inv(t) && p < |t.polls| && t.polls[p].Claiming?
      && forall x :: StillOpen(ClaimsOf(t, p), x) <==>
                     exists i :: 0 <= i < |s.rows| && s.rows[i].id == x && !s.rows[i].acted && !s.rows[i].command
  {
    var t := Next(s, Select(p));
    StepKeeps(s, Select(p));
    ClaimsCloseTheirs(t, p);
    forall x
      ensures StillOpen(ClaimsOf(t, p), x) <==> exists i :: 0 <= i < |s.rows| && s.rows[i].id == x && !s.rows[i].acted && !s.rows[i].command
    {
      SelectedAre(s.rows, x);
      OneRowEach(s.rows, x);
    }
  }

  lemma OneRowEach(rows: seq<Row>, x: string)
    requires Unique(rows)
    ensures forall i, j :: 0 <= i < |rows| && 0 <= j < |rows| && rows[i].id == x && rows[j].id == x ==> i == j
  {
  }
}
