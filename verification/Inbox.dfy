/**
 The chat inbox: overlapping polls page through a provider's history, then ingest what they fetched in one
 transaction, then claim roadmap commands.  Each read, page, transaction and claim is one atomic step of a
 transition system over any number of polls; messages keep arriving in between.
 */
module Inbox {

  import opened Options

  /** A message in the provider's history; command: its text parses as a roadmap command. */
  datatype Message = Message(id: string, ts: int, human: bool, command: bool)

  datatype Row = Row(id: string, ts: int, command: bool, acted: bool)

  const MAX_POLL_PAGES: nat := 40

  // ----- pure helpers of the poll

  function Humans(ms: seq<Message>): seq<Message> {
    if ms == [] then [] else (if ms[0].human then [ms[0]] else []) + Humans(ms[1..])
  }

  predicate After(ts: int, cursor: Option<int>) { cursor.None? || ts > cursor.value }

  function Fresh(ms: seq<Message>, cursor: Option<int>): seq<Message> {
    if ms == [] then [] else (if After(ms[0].ts, cursor) then [ms[0]] else []) + Fresh(ms[1..], cursor)
  }

  /** The greatest timestamp among these and the cursor. */
  function Furthest(ms: seq<Message>, cursor: Option<int>): Option<int> {
    if ms == [] then cursor
    else Furthest(ms[1..], if After(ms[0].ts, cursor) then Some(ms[0].ts) else cursor)
  }

  // ----- the table

  predicate Known(rows: seq<Row>, id: string) {
    exists i :: 0 <= i < |rows| && rows[i].id == id
  }

  /** INSERT ... ON CONFLICT(channel_id, direction, provider_msg_id) DO NOTHING */
  function Insert(rows: seq<Row>, m: Message): seq<Row> {
    if Known(rows, m.id) then rows else rows + [Row(m.id, m.ts, m.command, false)]
  }

  function InsertAll(rows: seq<Row>, ms: seq<Message>): seq<Row>
    decreases |ms|
  {
    if ms == [] then rows else InsertAll(Insert(rows, ms[0]), ms[1..])
  }

  function Act(rows: seq<Row>, id: string): seq<Row> {
    seq(|rows|, i requires 0 <= i < |rows| => if rows[i].id == id then rows[i].(acted := true) else rows[i])
  }

  predicate Unacted(rows: seq<Row>, id: string) {
    exists i :: 0 <= i < |rows| && rows[i].id == id && !rows[i].acted
  }

  // ----- the system

  /**
   Where a poll is.  Both providers page through the history from some index on; slack's pages go from the
   newest message back, lark's from the oldest forward.  low and high bound what has been fetched.
   */
  datatype Poll =
    | Idle
    | Begun(start: Option<int>, from: nat)
    | Slack(start: Option<int>, from: nat, low: nat, high: nat, collected: seq<Message>, pages: nat)
    | Lark(start: Option<int>, from: nat, high: nat, collected: seq<Message>, pages: nat)
    | Fetched(start: Option<int>, high: nat, messages: seq<Message>, next: Option<int>)
    | Committed
    | Claiming(todo: seq<string>)

  datatype Sys = Sys(log: seq<Message>, rows: seq<Row>, cursor: Option<int>, polls: seq<Poll>, claims: seq<string>)

  datatype Step =
    | Arrive(m: Message)
    | StartSlack(p: nat, from: nat)
    | ViewSlack(p: nat)
    | StartLark(p: nat, from: nat)
    | PageSlack(p: nat, size: nat)
    | PageLark(p: nat, size: nat)
    | Fail(p: nat)
    | Commit(p: nat)
    | Select(p: nat)
    | Claim(p: nat)
    | Ack(id: string)

  /** The provider's history: identifiers are unique and timestamps strictly increase. */
  predicate Appends(log: seq<Message>, m: Message) {
    && (log == [] || log[|log| - 1].ts < m.ts)
    && forall i :: 0 <= i < |log| ==> log[i].id != m.id
  }

  /** The provider may start anywhere that leaves out nothing after the cursor. */
  predicate Covers(log: seq<Message>, from: nat, cursor: Option<int>) {
    from <= |log| && forall i :: 0 <= i < from ==> !After(log[i].ts, cursor)
  }

  predicate Enabled(s: Sys, step: Step) {
    match step
    case Arrive(m) => Appends(s.log, m)
    case StartSlack(p, from) => p < |s.polls| && s.polls[p].Idle? && Covers(s.log, from, s.cursor)
    case ViewSlack(p) => p < |s.polls| && s.polls[p].Begun?
    case StartLark(p, from) => p < |s.polls| && s.polls[p].Idle? && Covers(s.log, from, s.cursor)
    case PageSlack(p, _) => p < |s.polls| && s.polls[p].Slack?
    case PageLark(p, _) => p < |s.polls| && s.polls[p].Lark?
    case Fail(p) => p < |s.polls|
    case Commit(p) => p < |s.polls| && s.polls[p].Fetched?
    case Select(p) => p < |s.polls| && s.polls[p].Committed?
    case Claim(p) => p < |s.polls| && s.polls[p].Claiming? && s.polls[p].todo != []
    case Ack(_) => true
  }

  function Finish(start: Option<int>, high: nat, collected: seq<Message>): Poll {
    var later := Fresh(collected, start);
    Fetched(start, high, later, Furthest(later, start))
  }

  /** What slack's first page is taken from: the history as it is then, not as it was when the cursor was read. */
  function Viewed(q: Poll, length: nat): Poll
    requires q.Begun?
  {
    Slack(q.start, q.from, length, length, [], 0)
  }

  /** Slack: a page of the newest messages not fetched yet. */
  function SlackPage(log: seq<Message>, q: Poll, size: nat): Poll
    requires q.Slack? && q.from <= q.low <= q.high <= |log|
  {
    var low := if q.low - q.from <= size then q.from else q.low - size;
    var collected := q.collected + Humans(Reversed(log[low..q.low]));
    if low == q.from then Finish(q.start, q.high, collected)
    else if q.pages + 1 >= MAX_POLL_PAGES then Idle
    else Slack(q.start, q.from, low, q.high, collected, q.pages + 1)
  }

  /** Lark: a page of the oldest messages not fetched yet; the history may have grown since the last one. */
  function LarkPage(log: seq<Message>, q: Poll, size: nat): Poll
    requires q.Lark? && q.high <= |log|
  {
    var high := if |log| - q.high <= size then |log| else q.high + size;
    var collected := q.collected + Humans(log[q.high..high]);
    if high == |log| then Finish(q.start, high, collected)
    else if q.pages + 1 >= MAX_POLL_PAGES then Idle
    else Lark(q.start, q.from, high, collected, q.pages + 1)
  }

  function Reversed(ms: seq<Message>): seq<Message> {
    if ms == [] then [] else Reversed(ms[1..]) + [ms[0]]
  }

  function Ids(rows: seq<Row>): seq<string> {
    if rows == [] then [] else (if rows[0].command && !rows[0].acted then [rows[0].id] else []) + Ids(rows[1..])
  }

  predicate Sane(s: Sys) {
    forall p :: 0 <= p < |s.polls| ==>
      match s.polls[p]
      case Begun(_, from) => from <= |s.log|
      case Slack(_, from, low, high, _, _) => from <= low <= high <= |s.log|
      case Lark(_, from, high, _, _) => from <= high <= |s.log|
      case _ => true
  }

  function Next(s: Sys, step: Step): Sys
    requires Enabled(s, step) && Sane(s)
  {
    match step
    case Arrive(m) => s.(log := s.log + [m])
    case StartSlack(p, from) => s.(polls := s.polls[p := Begun(s.cursor, from)])
    case ViewSlack(p) => s.(polls := s.polls[p := Viewed(s.polls[p], |s.log|)])
    case StartLark(p, from) => s.(polls := s.polls[p := Lark(s.cursor, from, from, [], 0)])
    case PageSlack(p, size) => s.(polls := s.polls[p := SlackPage(s.log, s.polls[p], size)])
    case PageLark(p, size) => s.(polls := s.polls[p := LarkPage(s.log, s.polls[p], size)])
    case Fail(p) => s.(polls := s.polls[p := Idle])
    case Commit(p) =>
      var q := s.polls[p];
      var rows := InsertAll(s.rows, q.messages);
      s.(rows := rows, cursor := if q.next.Some? then q.next else s.cursor, polls := s.polls[p := Committed])
    case Select(p) => s.(polls := s.polls[p := Claiming(Ids(s.rows))])
    case Claim(p) =>
      var id := s.polls[p].todo[0];
      var polls := s.polls[p := Claiming(s.polls[p].todo[1..])];
      if Unacted(s.rows, id) then s.(rows := Act(s.rows, id), polls := polls, claims := s.claims + [id]) else s.(polls := polls)
    case Ack(id) => s.(rows := Act(s.rows, id))
  }

  /** A channel with an empty history, inbox and cursor. */
  function Init(n: nat): Sys {
    Sys([], [], None, seq(n, _ => Idle), [])
  }

  /** The state after these steps by n polls, or None if one of them was not possible. */
  function Run(n: nat, steps: seq<Step>): Option<Sys> {
    if steps == [] then Some(Init(n))
    else
      match Run(n, steps[..|steps| - 1])
      case None => None
      case Some(s) => if Enabled(s, steps[|steps| - 1]) && Sane(s) then Some(Next(s, steps[|steps| - 1])) else None
  }

  // ----- what always holds

  /** Identifiers are unique and timestamps increase along the history. */
  ghost predicate Ordered(log: seq<Message>) {
    forall i, j :: 0 <= i < j < |log| ==> log[i].ts < log[j].ts && log[i].id != log[j].id
  }

  /** Every human message up to this cursor has a row. */
  ghost predicate Ingested(log: seq<Message>, rows: seq<Row>, cursor: Option<int>) {
    forall i :: 0 <= i < |log| && log[i].human && !After(log[i].ts, cursor) ==> Known(rows, log[i].id)
  }

  /** These are exactly the human messages of log[from..high] after the cursor. */
  ghost predicate Exactly(log: seq<Message>, from: nat, high: nat, ms: seq<Message>) {
    && from <= high <= |log|
    && forall m :: m in ms <==> m.human && m in log[from..high]
  }

  ghost predicate PollInv(s: Sys, q: Poll) {
    match q
    case Idle => true
    case Begun(start, from) => Covers(s.log, from, start) && Ingested(s.log, s.rows, start) && Behind(s.log, start)
    case Slack(start, from, low, high, collected, _) =>
      Covers(s.log, from, start) && Exactly(s.log, low, high, collected) && from <= low && Ingested(s.log, s.rows, start) && Behind(s.log, start)
    case Lark(start, from, high, collected, _) =>
      Covers(s.log, from, start) && Exactly(s.log, from, high, collected) && Ingested(s.log, s.rows, start) && Behind(s.log, start)
    case Fetched(start, high, messages, next) =>
      && high <= |s.log| && Behind(s.log, start) && Ingested(s.log, s.rows, start) && next == Furthest(messages, start)
      && forall m :: m in messages <==> m.human && m in s.log[..high] && After(m.ts, start)
    case Committed => true
    case Claiming(_) => true
  }

  /** No cursor is ahead of the history. */
  predicate Behind(log: seq<Message>, cursor: Option<int>) {
    cursor.Some? ==> log != [] && cursor.value <= log[|log| - 1].ts
  }

  ghost predicate Unique(rows: seq<Row>) {
    forall i, j :: 0 <= i < j < |rows| ==> rows[i].id != rows[j].id
  }

  ghost predicate ClaimedOnce(rows: seq<Row>, claims: seq<string>) {
    && (forall i, j :: 0 <= i < j < |claims| ==> claims[i] != claims[j])
    && (forall i :: 0 <= i < |claims| ==> Known(rows, claims[i]) && !Unacted(rows, claims[i]))
  }

  ghost predicate Inv(s: Sys) {
    && Ordered(s.log) && Behind(s.log, s.cursor) && Ingested(s.log, s.rows, s.cursor)
    && Unique(s.rows) && ClaimedOnce(s.rows, s.claims)
    && Sane(s) && forall p :: 0 <= p < |s.polls| ==> PollInv(s, s.polls[p])
  }

  // ----- lists

  lemma {:induction false} HumansAre(ms: seq<Message>, m: Message)
    ensures m in Humans(ms) <==> m.human && m in ms
    decreases |ms|
  {
    if ms != [] {
      HumansAre(ms[1..], m);
      assert ms == [ms[0]] + ms[1..];
    }
  }

  lemma {:induction false} ReversedAre(ms: seq<Message>, m: Message)
    ensures m in Reversed(ms) <==> m in ms
    decreases |ms|
  {
    if ms != [] {
      ReversedAre(ms[1..], m);
      assert ms == [ms[0]] + ms[1..];
    }
  }

  lemma {:induction false} FreshAre(ms: seq<Message>, cursor: Option<int>, m: Message)
    ensures m in Fresh(ms, cursor) <==> m in ms && After(m.ts, cursor)
    decreases |ms|
  {
    if ms != [] {
      FreshAre(ms[1..], cursor, m);
      assert ms == [ms[0]] + ms[1..];
    }
  }

  /** The new cursor is the old one or a fetched timestamp, and nothing fetched lies beyond it. */
  lemma {:induction false} FurthestIs(ms: seq<Message>, cursor: Option<int>)
    ensures forall m :: m in ms ==> !After(m.ts, Furthest(ms, cursor))
    ensures Furthest(ms, cursor) == cursor || exists m :: m in ms && Furthest(ms, cursor) == Some(m.ts)
    ensures cursor.Some? ==> Furthest(ms, cursor).Some? && cursor.value <= Furthest(ms, cursor).value
    decreases |ms|
  {
    if ms != [] {
      FurthestIs(ms[1..], if After(ms[0].ts, cursor) then Some(ms[0].ts) else cursor);
      assert ms == [ms[0]] + ms[1..];
    }
  }

  lemma PageIsExact(log: seq<Message>, a: nat, b: nat, c: nat, m: Message)
    requires a <= b <= c <= |log|
    ensures m in log[a..b] || m in log[b..c] <==> m in log[a..c]
  {
    assert log[a..c] == log[a..b] + log[b..c];
  }

  // ----- the table

  lemma KnownInsert(rows: seq<Row>, m: Message, id: string)
    ensures Known(Insert(rows, m), id) <==> Known(rows, id) || id == m.id
    ensures Known(rows, id) ==> (Unacted(Insert(rows, m), id) <==> Unacted(rows, id))
  {
    var more := rows + [Row(m.id, m.ts, m.command, false)];
    assert more[|rows|].id == m.id;
    assert forall i :: 0 <= i < |rows| ==> more[i] == rows[i];
  }

  lemma {:induction false} KnownInsertAll(rows: seq<Row>, ms: seq<Message>, id: string)
    ensures Known(InsertAll(rows, ms), id) <==> Known(rows, id) || exists m :: m in ms && m.id == id
    ensures Known(rows, id) ==> (Unacted(InsertAll(rows, ms), id) <==> Unacted(rows, id))
    decreases |ms|
  {
    if ms != [] {
      KnownInsert(rows, ms[0], id);
      KnownInsertAll(Insert(rows, ms[0]), ms[1..], id);
      assert ms == [ms[0]] + ms[1..];
    }
  }

  lemma {:induction false} InsertKeepsUnique(rows: seq<Row>, ms: seq<Message>)
    requires Unique(rows)
    ensures Unique(InsertAll(rows, ms))
    decreases |ms|
  {
    if ms != [] { InsertKeepsUnique(Insert(rows, ms[0]), ms[1..]); }
  }

  lemma ActKeeps(rows: seq<Row>, id: string, x: string)
    ensures Known(Act(rows, id), x) <==> Known(rows, x)
    ensures Unacted(Act(rows, id), x) <==> x != id && Unacted(rows, x)
  {
    var acted := Act(rows, id);
    assert forall i :: 0 <= i < |rows| ==> acted[i].id == rows[i].id;
    if Unacted(acted, x) {
      var i :| 0 <= i < |acted| && acted[i].id == x && !acted[i].acted;
      assert rows[i].id == x;
    }
    if x != id && Unacted(rows, x) {
      var i :| 0 <= i < |rows| && rows[i].id == x && !rows[i].acted;
      assert acted[i] == rows[i];
    }
    if Known(rows, x) {
      var i :| 0 <= i < |rows| && rows[i].id == x;
      assert acted[i].id == x;
    }
  }

  // ----- each step keeps the invariant

  lemma ArriveKeeps(s: Sys, m: Message)
    requires Inv(s) && Appends(s.log, m)
    ensures Inv(s.(log := s.log + [m]))
  {
    var t := s.(log := s.log + [m]);
    assert forall i :: 0 <= i < |s.log| ==> t.log[i] == s.log[i];
    assert forall i :: 0 <= i < |s.log| ==> s.log[i].ts <= s.log[|s.log| - 1].ts;
    assert forall c :: Behind(s.log, c) ==> Behind(t.log, c);
    forall c | Behind(s.log, c) && Ingested(s.log, s.rows, c) ensures Ingested(t.log, s.rows, c) {
      LaterIsAfter(s.log, m, c);
    }
    forall p | 0 <= p < |t.polls| ensures PollInv(t, t.polls[p]) {
      assert PollInv(s, s.polls[p]);
      PrefixesStay(s.log, m);
    }
  }

  lemma LaterIsAfter(log: seq<Message>, m: Message, cursor: Option<int>)
    requires Appends(log, m) && Behind(log, cursor)
    ensures cursor.Some? ==> After(m.ts, cursor)
  {
  }

  lemma PrefixesStay(log: seq<Message>, m: Message)
    ensures forall a, b :: 0 <= a <= b <= |log| ==> (log + [m])[a..b] == log[a..b]
  {
  }

  /** Replacing one poll's state by another that holds keeps everything. */
  lemma PollKeeps(s: Sys, p: nat, q: Poll)
    requires Inv(s) && p < |s.polls| && PollInv(s, q) && (q.Slack? ==> q.low <= q.high)
    ensures Inv(s.(polls := s.polls[p := q]))
  {
    var t := s.(polls := s.polls[p := q]);
    forall i | 0 <= i < |t.polls| ensures PollInv(t, t.polls[i]) {
      if i != p { assert PollInv(s, s.polls[i]); }
    }
  }

  /** A finished fetch holds exactly the human messages after its cursor, up to some point of the history. */
  lemma FinishHolds(s: Sys, start: Option<int>, from: nat, high: nat, collected: seq<Message>)
    requires Covers(s.log, from, start) && Exactly(s.log, from, high, collected) && Ingested(s.log, s.rows, start) && Behind(s.log, start)
    ensures PollInv(s, Finish(start, high, collected))
  {
    forall m ensures m in Fresh(collected, start) <==> m.human && m in s.log[..high] && After(m.ts, start) {
      FreshAre(collected, start, m);
      assert s.log[..high] == s.log[..from] + s.log[from..high];
      if m in s.log[..from] {
        var i :| 0 <= i < from && s.log[i] == m;
      }
    }
  }

  lemma SlackPageHolds(s: Sys, q: Poll, size: nat)
    requires Inv(s) && PollInv(s, q) && q.Slack?
    ensures PollInv(s, SlackPage(s.log, q, size)) && !SlackPage(s.log, q, size).Lark? && Sane(s.(polls := [SlackPage(s.log, q, size)]))
  {
    var low := if q.low - q.from <= size then q.from else q.low - size;
    var page := Humans(Reversed(s.log[low..q.low]));
    forall m ensures m in q.collected + page <==> m.human && m in s.log[low..q.high] {
      HumansAre(Reversed(s.log[low..q.low]), m);
      ReversedAre(s.log[low..q.low], m);
      PageIsExact(s.log, low, q.low, q.high, m);
    }
    assert Exactly(s.log, low, q.high, q.collected + page);
    if low == q.from { FinishHolds(s, q.start, low, q.high, q.collected + page); }
  }

  lemma LarkPageHolds(s: Sys, q: Poll, size: nat)
    requires Inv(s) && PollInv(s, q) && q.Lark?
    ensures PollInv(s, LarkPage(s.log, q, size)) && Sane(s.(polls := [LarkPage(s.log, q, size)]))
  {
    var high := if |s.log| - q.high <= size then |s.log| else q.high + size;
    var page := Humans(s.log[q.high..high]);
    forall m ensures m in q.collected + page <==> m.human && m in s.log[q.from..high] {
      HumansAre(s.log[q.high..high], m);
      PageIsExact(s.log, q.from, q.high, high, m);
    }
    assert Exactly(s.log, q.from, high, q.collected + page);
    if high == |s.log| { FinishHolds(s, q.start, q.from, high, q.collected + page); }
  }

  /** More rows, none of them changed: what was ingested stays so. */
  lemma RowsGrow(s: Sys, rows: seq<Row>, claims: seq<string>)
    requires Inv(s) && Unique(rows) && ClaimedOnce(rows, claims)
    requires forall id :: Known(s.rows, id) ==> Known(rows, id)
    ensures Inv(s.(rows := rows, claims := claims))
  {
    var t := s.(rows := rows, claims := claims);
    forall p | 0 <= p < |t.polls| ensures PollInv(t, t.polls[p]) { assert PollInv(s, s.polls[p]); }
  }

  lemma CommitKeeps(s: Sys, p: nat)
    requires Inv(s) && Enabled(s, Commit(p))
    ensures Inv(Next(s, Commit(p)))
    ensures forall i :: 0 <= i < s.polls[p].high <= |s.log| && s.log[i].human ==> Known(Next(s, Commit(p)).rows, s.log[i].id)
  {
    var q := s.polls[p];
    assert PollInv(s, q);
    var rows := InsertAll(s.rows, q.messages);
    InsertKeepsUnique(s.rows, q.messages);
    forall id ensures Known(s.rows, id) ==> Known(rows, id) && (Unacted(rows, id) <==> Unacted(s.rows, id)) {
      KnownInsertAll(s.rows, q.messages, id);
    }
    RowsGrow(s, rows, s.claims);
    var t := s.(rows := rows);
    FetchedAreKnown(s, q);
    NextIsIngested(s, q);
    var cursor := if q.next.Some? then q.next else s.cursor;
    CursorMoves(t, cursor);
    PollKeeps(t.(cursor := cursor), p, Committed);
  }

  /** Every human message in the fetched part of the history has a row once the fetch is inserted. */
  lemma FetchedAreKnown(s: Sys, q: Poll)
    requires Inv(s) && q.Fetched? && PollInv(s, q)
    ensures forall i :: 0 <= i < q.high && s.log[i].human ==> Known(InsertAll(s.rows, q.messages), s.log[i].id)
  {
    forall i | 0 <= i < q.high && s.log[i].human ensures Known(InsertAll(s.rows, q.messages), s.log[i].id) {
      KnownInsertAll(s.rows, q.messages, s.log[i].id);
      if After(s.log[i].ts, q.start) {
        assert s.log[i] in s.log[..q.high];
        assert s.log[i] in q.messages;
      }
    }
  }

  /** And so has every human message up to the cursor the fetch would store. */
  lemma NextIsIngested(s: Sys, q: Poll)
    requires Inv(s) && q.Fetched? && PollInv(s, q)
    ensures Ingested(s.log, InsertAll(s.rows, q.messages), q.next) || q.next.None?
    ensures Behind(s.log, q.next)
  {
    hide InsertAll, Furthest, Known, Unique, ClaimedOnce, Sane;
    FurthestIs(q.messages, q.start);
    FetchedAreKnown(s, q);
    var rows := InsertAll(s.rows, q.messages);
    if q.next.Some? {
      forall i | 0 <= i < |s.log| && s.log[i].human && !After(s.log[i].ts, q.next) ensures Known(rows, s.log[i].id) {
        KnownInsertAll(s.rows, q.messages, s.log[i].id);
        if After(s.log[i].ts, q.start) {
          var m :| m in q.messages && q.next == Some(m.ts);
          FetchedBefore(s.log, q.high, m, i);
        }
      }
      if q.next != q.start {
        var m :| m in q.messages && q.next == Some(m.ts);
        assert m in s.log[..q.high];
        AtMostLast(s.log, m);
      }
    }
  }

  lemma FetchedBefore(log: seq<Message>, high: nat, m: Message, i: nat)
    requires Ordered(log) && high <= |log| && m in log[..high] && i < |log| && log[i].ts <= m.ts
    ensures i < high
  {
    var j :| 0 <= j < high && log[j] == m;
  }

  lemma AtMostLast(log: seq<Message>, m: Message)
    requires Ordered(log) && m in log
    ensures m.ts <= log[|log| - 1].ts
  {
    var j :| 0 <= j < |log| && log[j] == m;
    if j < |log| - 1 { assert log[j].ts < log[|log| - 1].ts; }
  }

  lemma CursorMoves(s: Sys, cursor: Option<int>)
    requires Inv(s) && Behind(s.log, cursor) && Ingested(s.log, s.rows, cursor)
    ensures Inv(s.(cursor := cursor))
  {
    var t := s.(cursor := cursor);
    forall p | 0 <= p < |t.polls| ensures PollInv(t, t.polls[p]) { assert PollInv(s, s.polls[p]); }
  }

  lemma ActedKeeps(s: Sys, id: string, claims: seq<string>)
    requires Inv(s)
    requires claims == s.claims || (claims == s.claims + [id] && Unacted(s.rows, id))
    ensures Inv(s.(rows := Act(s.rows, id), claims := claims))
  {
    forall x ensures Known(Act(s.rows, id), x) <==> Known(s.rows, x) { ActKeeps(s.rows, id, x); }
    forall x ensures Unacted(Act(s.rows, id), x) <==> x != id && Unacted(s.rows, x) { ActKeeps(s.rows, id, x); }
    assert Unique(Act(s.rows, id));
    RowsGrow(s, Act(s.rows, id), claims);
  }

  lemma StepKeeps(s: Sys, step: Step)
    requires Inv(s) && Enabled(s, step)
    ensures Inv(Next(s, step))
  {
    match step
    case Arrive(m) => ArriveKeeps(s, m);
    case StartSlack(p, from) => PollKeeps(s, p, Begun(s.cursor, from));
    case ViewSlack(p) =>
      assert PollInv(s, s.polls[p]);
      PollKeeps(s, p, Viewed(s.polls[p], |s.log|));
    case StartLark(p, from) => PollKeeps(s, p, Lark(s.cursor, from, from, [], 0));
    case PageSlack(p, size) =>
      assert PollInv(s, s.polls[p]);
      SlackPageHolds(s, s.polls[p], size);
      PollKeeps(s, p, SlackPage(s.log, s.polls[p], size));
    case PageLark(p, size) =>
      assert PollInv(s, s.polls[p]);
      LarkPageHolds(s, s.polls[p], size);
      PollKeeps(s, p, LarkPage(s.log, s.polls[p], size));
    case Fail(p) => PollKeeps(s, p, Idle);
    case Commit(p) => CommitKeeps(s, p);
    case Select(p) => PollKeeps(s, p, Claiming(Ids(s.rows)));
    case Claim(p) =>
      var id := s.polls[p].todo[0];
      PollKeeps(s, p, Claiming(s.polls[p].todo[1..]));
      if Unacted(s.rows, id) { ActedKeeps(s.(polls := s.polls[p := Claiming(s.polls[p].todo[1..])]), id, s.claims + [id]); }
    case Ack(id) => ActedKeeps(s, id, s.claims);
  }

  /**
   After any run of any number of overlapping polls: every human message up to the stored cursor has been
   ingested, no message has two rows, and no roadmap command was claimed twice.
   */
  lemma {:induction false} InboxIsSafe(n: nat, steps: seq<Step>)
    requires Run(n, steps).Some?
    ensures
      var s := Run(n, steps).value;
      && Inv(s)
      && (forall i :: 0 <= i < |s.log| && s.log[i].human && !After(s.log[i].ts, s.cursor) ==> Known(s.rows, s.log[i].id))
      && (forall i, j :: 0 <= i < j < |s.rows| ==> s.rows[i].id != s.rows[j].id)
      && (forall i, j :: 0 <= i < j < |s.claims| ==> s.claims[i] != s.claims[j])
    decreases |steps|
  {
    if steps != [] {
      InboxIsSafe(n, steps[..|steps| - 1]);
      StepKeeps(Run(n, steps[..|steps| - 1]).value, steps[|steps| - 1]);
    }
  }

  function Then(s: Option<Sys>, step: Step): Option<Sys> {
    if s.Some? && Sane(s.value) && Enabled(s.value, step) then Some(Next(s.value, step)) else None
  }

  lemma RunThen(n: nat, steps: seq<Step>, step: Step)
    ensures Run(n, steps + [step]) == Then(Run(n, steps), step)
  {
    assert (steps + [step])[..|steps|] == steps;
  }

  /** Two polls overlap: the first has fetched a, then b arrives, and the second starts. */
  function Overlapping(a: Message, b: Message): seq<Step> {
    [] + [Arrive(a)] + [StartLark(0, 0)] + [PageLark(0, 50)] + [Arrive(b)] + [StartLark(1, 0)]
  }

  lemma OverlappingRun(a: Message, b: Message)
    requires a.human && b.human && a.ts < b.ts && a.id != b.id
    ensures Run(2, Overlapping(a, b)) == Some(Sys([a, b], [], None, [Fetched(None, 1, [a], Some(a.ts)), Lark(None, 0, 0, [], 0)], []))
  {
    hide Run, LarkPage;
    var s1 := [] + [Arrive(a)];
    var s2 := s1 + [StartLark(0, 0)];
    var s3 := s2 + [PageLark(0, 50)];
    var s4 := s3 + [Arrive(b)];
    var fa, lark := Fetched(None, 1, [a], Some(a.ts)), Lark(None, 0, 0, [], 0);
    EmptyRun();
    RunThen(2, [], Arrive(a));
    assert [] + [a] == [a];
    var x1 := Sys([a], [], None, [Idle, Idle], []);
    RunThen(2, s1, StartLark(0, 0));
    assert x1.polls[0 := lark] == [lark, Idle];
    var x2 := x1.(polls := [lark, Idle]);
    RunThen(2, s2, PageLark(0, 50));
    OneFetched(a);
    assert x2.polls[0 := fa] == [fa, Idle];
    var x3 := x2.(polls := [fa, Idle]);
    assert Run(2, s3) == Some(x3);
    RunThen(2, s3, Arrive(b));
    assert [a] + [b] == [a, b];
    var x4 := x3.(log := [a, b]);
    RunThen(2, s4, StartLark(1, 0));
    assert x4.polls[1 := lark] == [fa, lark];
  }

  lemma EmptyRun()
    ensures Run(2, []) == Some(Sys([], [], None, [Idle, Idle], []))
  {
    assert Init(2).polls == [Idle, Idle];
  }

  /** The cursor may move back: a slow poll commits after a faster one that fetched more.  Nothing is lost by it. */
  lemma CursorMovesBack(a: Message, b: Message)
    requires a.human && b.human && a.ts < b.ts && a.id != b.id
    ensures exists steps, last ::
              && Run(2, steps).Some? && Run(2, steps + [last]).Some?
              && Run(2, steps).value.cursor == Some(b.ts) && Run(2, steps + [last]).value.cursor == Some(a.ts)
  {
    hide Run, LarkPage;
    var fa, fb := Fetched(None, 1, [a], Some(a.ts)), Fetched(None, 2, [a, b], Some(b.ts));
    var s5 := Overlapping(a, b);
    var s6 := s5 + [PageLark(1, 50)];
    var s7 := s6 + [Commit(1)];
    OverlappingRun(a, b);
    var x5 := Run(2, s5).value;
    RunThen(2, s5, PageLark(1, 50));
    TwoFetched(a, b);
    assert x5.polls[1 := fb] == [fa, fb];
    RunThen(2, s6, Commit(1));
    RunThen(2, s7, Commit(0));
    assert Run(2, s7).Some? && Run(2, s7).value.cursor == Some(b.ts) && Run(2, s7).value.polls[0] == fa;
    assert Run(2, s7 + [Commit(0)]).value.cursor == Some(a.ts);
  }

  lemma OneMessage(a: Message)
    requires a.human
    ensures Humans([a]) == [a] && Fresh([a], None) == [a]
    ensures forall b: Message :: b.human ==> Humans([a, b]) == [a] + Humans([b]) && Fresh([a, b], None) == [a] + Fresh([b], None)
  {
    assert [a][1..] == [] && [a] + [] == [a];
    assert forall b :: [a, b][1..] == [b];
  }

  lemma OneFetched(a: Message)
    requires a.human
    ensures LarkPage([a], Lark(None, 0, 0, [], 0), 50) == Fetched(None, 1, [a], Some(a.ts))
  {
    OneMessage(a);
    assert [a][0..1] == [a] && [] + Humans([a]) == [a] && [a][1..] == [];
    assert Furthest([a], None) == Furthest([], Some(a.ts));
  }

  lemma TwoFetched(a: Message, b: Message)
    requires a.human && b.human && a.ts < b.ts
    ensures LarkPage([a, b], Lark(None, 0, 0, [], 0), 50) == Fetched(None, 2, [a, b], Some(b.ts))
  {
    OneMessage(a);
    OneMessage(b);
    assert [a, b][0..2] == [a, b] && [a, b][1..] == [b] && [b][1..] == [];
    assert [a] + [b] == [a, b] && Humans([a, b]) == [a, b] && [] + Humans([a, b]) == [a, b] && Fresh([a, b], None) == [a, b];
    assert Furthest([a, b], None) == Furthest([b], Some(a.ts)) == Furthest([], Some(b.ts));
  }

  // ----- the methods behind the page and commit steps

  /** One response of the provider: an error, or some messages and whether there are more. */
  datatype Page = Error | Page(items: seq<Message>, more: bool)

  function ItemsOf(pages: seq<Page>): seq<Message> {
    if pages == [] then []
    else ItemsOf(pages[..|pages| - 1]) + if pages[|pages| - 1].Page? then pages[|pages| - 1].items else []
  }

  /** The first k pages are all the provider has to say. */
  predicate Complete(pages: seq<Page>, k: nat) {
    && 0 < k <= |pages| && k <= MAX_POLL_PAGES
    && (forall i :: 0 <= i < k ==> pages[i].Page?)
    && (forall i :: 0 <= i < k - 1 ==> pages[i].more) && !pages[k - 1].more
  }

  lemma {:induction false} HumansConcat(a: seq<Message>, b: seq<Message>)
    ensures Humans(a + b) == Humans(a) + Humans(b)
    decreases |a|
  {
    if a == [] {
      assert a + b == b;
    } else {
      assert (a + b)[0] == a[0] && (a + b)[1..] == a[1..] + b;
      HumansConcat(a[1..], b);
    }
  }

  lemma NoItems(pages: seq<Page>)
    ensures Humans(ItemsOf(pages[..0])) == []
  {
  }

  lemma ItemsNext(pages: seq<Page>, i: nat)
    requires i < |pages| && pages[i].Page?
    ensures Humans(ItemsOf(pages[..i + 1])) == Humans(ItemsOf(pages[..i])) + Humans(pages[i].items)
  {
    assert pages[..i + 1][..i] == pages[..i];
    HumansConcat(ItemsOf(pages[..i]), pages[i].items);
  }

  /**
   Pages until the provider has no more.  It succeeds iff all pages come within the limit, and then returns the
   human messages of all of them after the cursor; otherwise it returns nothing, however many pages it had.
   */
  method PollVia(pages: seq<Page>, cursor: Option<int>) returns (r: Option<(seq<Message>, Option<int>)>)
    ensures r.Some? <==> exists k: nat :: Complete(pages, k)
    ensures r.Some? ==> exists k: nat :: Complete(pages, k) &&
                                    r.value.0 == Fresh(Humans(ItemsOf(pages[..k])), cursor) && r.value.1 == Furthest(r.value.0, cursor)
  {
    hide Humans, ItemsOf, Fresh, Furthest;
    var collected: seq<Message> := [];
    var i := 0;
    NoItems(pages);
    while i < |pages|
      invariant i <= |pages| && i < MAX_POLL_PAGES
      invariant forall j :: 0 <= j < i ==> pages[j].Page? && pages[j].more
      invariant collected == Humans(ItemsOf(pages[..i]))
    {
      if pages[i].Error? { return None; }
      ItemsNext(pages, i);
      collected := collected + Humans(pages[i].items);
      i := i + 1;
      if !pages[i - 1].more {
        assert Complete(pages, i);
        var later := Fresh(collected, cursor);
        return Some((later, Furthest(later, cursor)));
      }
      if i >= MAX_POLL_PAGES { return None; }
    }
    return None;
  }

  class Store {
    var rows: seq<Row>
    var cursor: Option<int>

    constructor (rows: seq<Row>, cursor: Option<int>)
      ensures this.rows == rows && this.cursor == cursor
    {
      this.rows, this.cursor := rows, cursor;
    }

    /** The transaction of one poll: rows and cursor move together. */
    method Commit(messages: seq<Message>, next: Option<int>) returns (inserted: nat)
      modifies this
      ensures rows == InsertAll(old(rows), messages) && cursor == if next.Some? then next else old(cursor)
      ensures |rows| == |old(rows)| + inserted
    {
      inserted := 0;
      var i := 0;
      while i < |messages|
        invariant i <= |messages| && InsertAll(rows, messages[i..]) == InsertAll(old(rows), messages)
        invariant |rows| == |old(rows)| + inserted && cursor == old(cursor)
      {
        assert messages[i..][1..] == messages[i + 1..];
        if !Known(rows, messages[i].id) {
          rows := rows + [Row(messages[i].id, messages[i].ts, messages[i].command, false)];
          inserted := inserted + 1;
        }
        i := i + 1;
      }
      if next.Some? { cursor := next; }
    }

    /** UPDATE ... SET acted=1 WHERE id=? AND acted=0: won by at most one caller. */
    method TryClaim(id: string) returns (won: bool)
      modifies this`rows
      ensures won == Unacted(old(rows), id)
      ensures rows == if won then Act(old(rows), id) else old(rows)
    {
      won := Unacted(rows, id);
      if won { rows := Act(rows, id); }
    }
  }
}
