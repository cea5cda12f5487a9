/**
 Reading a conversation: keyset pages of at most ten rows, packed into a reply that must stay below
 the packet limit, and the client that follows `last_message_id` while `load_more` holds.
 The printed size of a reply is a parameter.
 */
module History {
  import opened Common
  import opened Messages

  const MAX_LENGTH: nat := 16384
  const RESERVE: nat := 16
  const PAGE: nat := 10

  datatype Page = Page(rows: seq<Row>, more: bool, cursor: int)

  datatype Reply = Reply(failed: bool, last: int, more: bool, rows: seq<Row>)

  // -------------------------------------------------------------------- pages

  predicate Increasing(rows: seq<Row>) {
    forall i, j | 0 <= i < j < |rows| :: rows[i].id < rows[j].id
  }

  function LaterThan(thread: int, cursor: int): Row -> bool {
    (r: Row) => r.thread == thread && r.id > cursor
  }

  /** The messages of a thread after a cursor, oldest first. */
  function Later(rows: seq<Row>, thread: int, cursor: int): seq<Row> {
    Select(rows, LaterThan(thread, cursor))
  }

  predicate IsPage(later: seq<Row>, size: nat, cursor: int, page: Page) {
    && page.more == (|later| > size)
    && page.rows == later[..Min(size, |later|)]
    && page.cursor == if page.rows == [] then cursor else page.rows[|page.rows| - 1].id
  }

  /** SELECT ... WHERE thread_id = ? AND message_id > ? ORDER BY message_id LIMIT ? */
  method FirstRows(rows: seq<Row>, thread: int, cursor: int, limit: nat) returns (found: seq<Row>)
    ensures found == Later(rows, thread, cursor)[..Min(limit, |Later(rows, thread, cursor)|)]
  {
    found := [];
    var i := 0;
    while i < |rows| && |found| < limit
      invariant 0 <= i <= |rows| && |found| <= limit
      invariant found == Later(rows[..i], thread, cursor)
    {
      assert rows[..i + 1] == rows[..i] + [rows[i]];
      SelectSnoc(rows[..i], rows[i], LaterThan(thread, cursor));
      if rows[i].thread == thread && rows[i].id > cursor {
        found := found + [rows[i]];
      }
      i := i + 1;
    }
    assert rows == rows[..i] + rows[i..];
    SelectConcat(rows[..i], rows[i..], LaterThan(thread, cursor));
  }

  /** MysqlDao::LoadChatMsg: one row more than the page is asked for, to learn whether there is more. */
  method LoadPage(rows: seq<Row>, thread: int, cursor: int, size: nat) returns (page: Option<Page>)
    ensures page.Some? <==> thread > 0 && size > 0
    ensures page.Some? ==> IsPage(Later(rows, thread, cursor), size, cursor, page.value)
  {
    if thread <= 0 || size == 0 {
      return None;
    }
    var found := FirstRows(rows, thread, cursor, size + 1);
    var more := |found| > size;
    if more {
      found := found[..|found| - 1];
    }
    return Some(Page(found, more, if found == [] then cursor else found[|found| - 1].id));
  }

  // ------------------------------------------------------------------ packing

  function LastId(rows: seq<Row>, cursor: int): int {
    if rows == [] then cursor else rows[|rows| - 1].id
  }

  /** The reply with the first `n` rows of the page, before the final flags. */
  function Candidate(page: seq<Row>, cursor: int, more: bool, n: nat): Reply
    requires n <= |page|
  {
    Reply(false, LastId(page[..n], cursor), more, page[..n])
  }

  predicate Fits(size: Reply -> nat, page: seq<Row>, cursor: int, more: bool, n: nat)
    requires n <= |page|
  {
    size(Candidate(page, cursor, more, n)) <= MAX_LENGTH - RESERVE
  }

  /** The error code and the flag may change after the measurement; the reserve covers both. */
  ghost predicate Slack(size: Reply -> nat) {
    forall r: Reply, failed: bool, more: bool ::
      size(r.(failed := failed, more := more)) <= size(r) + RESERVE
  }

  /** The longest prefix of the page all of whose prefixes fit. */
  predicate Packs(size: Reply -> nat, page: seq<Row>, cursor: int, more: bool, n: nat) {
    && n <= |page|
    && (forall k :: 1 <= k <= n ==> Fits(size, page, cursor, more, k))
    && (n < |page| ==> !Fits(size, page, cursor, more, n + 1))
  }

  function Packed(page: seq<Row>, cursor: int, more: bool, n: nat): Reply
    requires n <= |page|
  {
    if n == |page| then Candidate(page, cursor, more, n)
    else if n == 0 then Reply(true, cursor, false, [])
    else Candidate(page, cursor, true, n)
  }

  /**
   LogicSystem::LoadChatMsg after the page is read. The empty reply is not measured; as long as it
   fits, or at least one message was packed, the reply is within the limit.
   */
  method Pack(size: Reply -> nat, page: Page, cursor: int) returns (reply: Reply, n: nat)
    requires Slack(size)
    ensures Packs(size, page.rows, cursor, page.more, n) && reply == Packed(page.rows, cursor, page.more, n)
    ensures reply.rows == page.rows[..n] && reply.last == (if n == 0 then cursor else page.rows[n - 1].id)
    ensures reply.failed <==> n == 0 < |page.rows|
    ensures reply.more <==> if n == |page.rows| then page.more else n > 0
    ensures n > 0 || Fits(size, page.rows, cursor, page.more, 0) ==> size(reply) <= MAX_LENGTH
  {
    reply := Reply(false, cursor, page.more, []);
    n := 0;
    while n < |page.rows|
      invariant n <= |page.rows| && reply == Candidate(page.rows, cursor, page.more, n)
      invariant forall k :: 1 <= k <= n ==> Fits(size, page.rows, cursor, page.more, k)
    {
      var candidate := reply.(rows := reply.rows + [page.rows[n]], last := page.rows[n].id);
      assert page.rows[..n + 1] == reply.rows + [page.rows[n]];
      if size(candidate) > MAX_LENGTH - RESERVE {
        if reply.rows == [] {
          reply := reply.(failed := true, more := false);
        } else {
          reply := reply.(more := true);
        }
        PackedFits(size, page.rows, cursor, page.more, n);
        return;
      }
      reply, n := candidate, n + 1;
    }
    PackedFits(size, page.rows, cursor, page.more, n);
  }

  /** The flags set after the measurement stay within the reserve. */
  lemma PackedFits(size: Reply -> nat, page: seq<Row>, cursor: int, more: bool, n: nat)
    requires Slack(size) && Packs(size, page, cursor, more, n)
    ensures n > 0 || Fits(size, page, cursor, more, 0) ==> size(Packed(page, cursor, more, n)) <= MAX_LENGTH
  {
    var measured, sent := Candidate(page, cursor, more, n), Packed(page, cursor, more, n);
    assert sent == measured.(failed := sent.failed, more := sent.more);
    assert size(measured.(failed := sent.failed, more := sent.more)) <= size(measured) + RESERVE;
    assert n > 0 ==> Fits(size, page, cursor, more, n);
  }

  // --------------------------------------------------------- a client catching up

  /** The reply without messages fits at this cursor. */
  ghost predicate EmptyFits(size: Reply -> nat, cursor: int) {
    forall more: bool :: size(Reply(false, cursor, more, [])) <= MAX_LENGTH - RESERVE
  }

  /** A message that fits in a reply of its own, as does the empty reply that may follow it. */
  ghost predicate Sendable(size: Reply -> nat, r: Row) {
    && (forall more: bool :: size(Reply(false, r.id, more, [r])) <= MAX_LENGTH - RESERVE)
    && EmptyFits(size, r.id)
  }

  /** Going on from the last row of a prefix gives the rest. */
  lemma {:induction false} LaterSplits(rows: seq<Row>, thread: int, cursor: int, n: nat)
    requires Increasing(rows) && 0 < n <= |Later(rows, thread, cursor)|
    ensures var later := Later(rows, thread, cursor);
            later[n - 1].id > cursor && Later(rows, thread, later[n - 1].id) == later[n..]
  {
    var later := Later(rows, thread, cursor);
    var m := |rows| - 1;
    var init := Later(rows[..m], thread, cursor);
    if n <= |init| {
      LaterSplits(rows[..m], thread, cursor, n);
      LaterBound(rows[..m], thread, cursor, n - 1, rows[m].id);
    } else {
      assert later[n - 1] == rows[m];
      NothingLater(rows, thread, rows[m].id);
    }
  }

  lemma {:induction false} LaterBound(rows: seq<Row>, thread: int, cursor: int, k: nat, bound: int)
    requires k < |Later(rows, thread, cursor)| && forall i :: 0 <= i < |rows| ==> rows[i].id < bound
    ensures cursor < Later(rows, thread, cursor)[k].id < bound
  {
    var m := |rows| - 1;
    if k < |Later(rows[..m], thread, cursor)| {
      LaterBound(rows[..m], thread, cursor, k, bound);
    }
  }

  lemma NothingLater(rows: seq<Row>, thread: int, cursor: int)
    requires forall i :: 0 <= i < |rows| ==> rows[i].id <= cursor
    ensures Later(rows, thread, cursor) == []
  {
    SelectNone(rows, LaterThan(thread, cursor));
  }

  /** What the client holds and what is still ahead of its cursor make up the whole. */
  ghost predicate Complete(rows: seq<Row>, thread: int, start: int, cursor: int, got: seq<Row>) {
    && got + Later(rows, thread, cursor) == Later(rows, thread, start)
    && (cursor == start || (cursor > start && exists i :: 0 <= i < |rows| && rows[i].id == cursor))
  }

  /** Every run of the message table has such rows: ids grow, and later tables extend earlier ones. */
  lemma TablesOfARun(ts: seq<Table>, es: seq<Event>, i: nat, j: nat)
    requires TableRun(ts, es) && i <= j < |ts|
    ensures Increasing(ts[i].rows) && ts[i].rows <= ts[j].rows
  {
    Messages.Reachable(ts, es, i);
    RowsArePermanent(ts, es, i, j);
  }

  lemma {:induction false} LaterLength(rows: seq<Row>, thread: int, cursor: int)
    ensures |Later(rows, thread, cursor)| <= |rows|
  {
    if rows != [] {
      LaterLength(rows[..|rows| - 1], thread, cursor);
    }
  }

  lemma {:induction false} LaterFrom(rows: seq<Row>, thread: int, cursor: int, k: nat)
    requires k < |Later(rows, thread, cursor)|
    ensures Later(rows, thread, cursor)[k] in rows
  {
    var m := |rows| - 1;
    if k < |Later(rows[..m], thread, cursor)| {
      LaterFrom(rows[..m], thread, cursor, k);
    }
  }

  /** Taking the first `n` rows ahead and moving the cursor to the last of them loses nothing. */
  lemma Advance(rows: seq<Row>, thread: int, start: int, cursor: int, got: seq<Row>, n: nat)
    requires Increasing(rows) && Complete(rows, thread, start, cursor, got) && n <= |Later(rows, thread, cursor)|
    ensures var taken := Later(rows, thread, cursor)[..n];
            Complete(rows, thread, start, LastId(taken, cursor), got + taken)
  {
    var later := Later(rows, thread, cursor);
    if n > 0 {
      LaterSplits(rows, thread, cursor, n);
      LaterFrom(rows, thread, cursor, n - 1);
      assert got + later[..n] + later[n..] == got + later;
    } else {
      assert later[..0] == [] && got + [] == got;
    }
  }

  /** Messages stored meanwhile lie ahead of the cursor. */
  lemma Grow(rows: seq<Row>, more: seq<Row>, thread: int, start: int, cursor: int, got: seq<Row>)
    requires Increasing(more) && rows <= more && Complete(rows, thread, start, cursor, got)
    ensures Complete(more, thread, start, cursor, got)
  {
    var extra := more[|rows|..];
    assert more == rows + extra;
    SelectConcat(rows, extra, LaterThan(thread, cursor));
    SelectConcat(rows, extra, LaterThan(thread, start));
    if cursor != start {
      var i :| 0 <= i < |rows| && rows[i].id == cursor;
      assert forall k :: 0 <= k < |extra| ==> extra[k] == more[|rows| + k] && more[i].id < extra[k].id;
      SelectSame(extra, thread, cursor, start);
    }
  }

  lemma {:induction false} SelectSame(rows: seq<Row>, thread: int, c: int, d: int)
    requires forall k :: 0 <= k < |rows| ==> rows[k].id > c && rows[k].id > d
    ensures Later(rows, thread, c) == Later(rows, thread, d)
  {
    if rows != [] {
      SelectSame(rows[..|rows| - 1], thread, c, d);
    }
  }

  /** A page of sendable messages is never packed to nothing. */
  lemma SomeFit(size: Reply -> nat, page: seq<Row>, cursor: int, more: bool, n: nat)
    requires Packs(size, page, cursor, more, n) && page != [] && Sendable(size, page[0])
    ensures n > 0
  {
    assert page[..1] == [page[0]];
  }

  /** One request of the client, on a table of sendable messages. */
  method Serve(size: Reply -> nat, rows: seq<Row>, thread: int, cursor: int) returns (reply: Reply)
    requires thread > 0 && Slack(size) && EmptyFits(size, cursor) && forall r :: r in rows ==> Sendable(size, r)
    ensures size(reply) <= MAX_LENGTH && !reply.failed
    ensures reply.rows <= Later(rows, thread, cursor) && reply.last == LastId(reply.rows, cursor)
    ensures if reply.more then reply.rows != [] else reply.rows == Later(rows, thread, cursor)
  {
    var page := LoadPage(rows, thread, cursor, PAGE);
    var n;
    reply, n := Pack(size, page.value, cursor);
    if page.value.rows != [] {
      LaterFrom(rows, thread, cursor, 0);
      SomeFit(size, page.value.rows, cursor, page.value.more, n);
    }
  }

  /**
   A client that starts after `start` and follows `last_message_id` while `load_more` holds gets
   every later message of the thread exactly once and in order, even while messages keep arriving:
   what it holds at the end is all there was at the time of the last reply. Every reply is within
   the packet limit. `db(k)` is the table when request `k` is served.
   */
  method CatchUp(size: Reply -> nat, db: nat -> seq<Row>, thread: int, start: int, ghost bound: nat)
    returns (got: seq<Row>, replies: seq<Reply>)
    requires thread > 0 && Slack(size) && EmptyFits(size, start)
    requires forall k: nat :: Increasing(db(k)) && db(k) <= db(k + 1) && |db(k)| <= bound
    requires forall k: nat, r :: r in db(k) ==> Sendable(size, r)
    ensures |replies| > 0 && got == Later(db(|replies| - 1), thread, start)
    ensures forall r :: r in replies ==> size(r) <= MAX_LENGTH && !r.failed
    ensures |replies| <= |got| + 1
  {
    got, replies := [], [];
    var cursor, more := start, true;
    while more
      invariant more ==> Complete(db(|replies|), thread, start, cursor, got)
      invariant !more ==> |replies| > 0 && got == Later(db(|replies| - 1), thread, start)
      invariant forall r :: r in replies ==> size(r) <= MAX_LENGTH && !r.failed
      invariant |replies| <= |got| + if more then 0 else 1
      decreases (if more then 1 else 0) + bound - |got|
    {
      ghost var rows := db(|replies|);
      CursorFits(size, rows, thread, start, cursor, got);
      var reply := Serve(size, db(|replies|), thread, cursor);
      assert Later(rows, thread, cursor)[..|reply.rows|] == reply.rows;
      Advance(rows, thread, start, cursor, got, |reply.rows|);
      assert Complete(rows, thread, start, reply.last, got + reply.rows);
      got := got + reply.rows;
      GotBound(rows, thread, start, reply.last, got);
      Grow(rows, db(|replies| + 1), thread, start, reply.last, got);
      cursor, more, replies := reply.last, reply.more, replies + [reply];
    }
  }

  /** The cursor is where the client started or the id of a message it has seen. */
  lemma CursorFits(size: Reply -> nat, rows: seq<Row>, thread: int, start: int, cursor: int, got: seq<Row>)
    requires Complete(rows, thread, start, cursor, got) && EmptyFits(size, start)
    requires forall r :: r in rows ==> Sendable(size, r)
    ensures EmptyFits(size, cursor)
  {
    if cursor != start {
      var i :| 0 <= i < |rows| && rows[i].id == cursor;
      assert Sendable(size, rows[i]);
    }
  }

  lemma GotBound(rows: seq<Row>, thread: int, start: int, cursor: int, got: seq<Row>)
    requires Complete(rows, thread, start, cursor, got)
    ensures |got| <= |rows|
  {
    LaterLength(rows, thread, start);
  }

  // -------------------------------------------------------- the size as printed

  function Weight(rows: seq<Row>, weight: Row -> nat): nat {
    if rows == [] then 0 else Weight(rows[..|rows| - 1], weight) + weight(rows[|rows| - 1])
  }

  const LOAD_CHAT_FAILED: nat := 1013
  const INT_LIMIT: int := 0x8000_0000

  /** The length of a signed number in decimal. */
  function Printed(n: int): nat {
    if n < 0 then 1 + Digits(-n) else Digits(n)
  }

  /** Envelope, error code, flag, last id and one entry per message. */
  function ReplySize(envelope: nat, weight: Row -> nat): Reply -> nat {
    (r: Reply) => envelope + Digits(if r.failed then LOAD_CHAT_FAILED else 0) + (if r.more then 4 else 5)
                  + Printed(r.last) + Weight(r.rows, weight)
  }

  lemma ReplySizeHasSlack(envelope: nat, weight: Row -> nat)
    ensures Slack(ReplySize(envelope, weight))
  {
    assert Digits(LOAD_CHAT_FAILED) == 4 by {
      assert Digits(101) == 3;
    }
  }

  /** A 32-bit number prints in at most eleven characters. */
  lemma PrintedBound(n: int)
    requires -INT_LIMIT <= n < INT_LIMIT
    ensures Printed(n) <= 11
  {
    DigitsGrow(if n < 0 then -n else n, INT_LIMIT);
    assert Digits(21) == 2;
    assert Digits(21474) == 5;
    assert Digits(21474836) == 8;
    assert Digits(INT_LIMIT) == 10;
  }

  /** What remains for a message: the limit less reserve, error code, flag and last id. */
  const ROOM: nat := MAX_LENGTH - RESERVE - 17

  /** The empty reply fits at any 32-bit cursor. */
  lemma CursorHasRoom(envelope: nat, weight: Row -> nat, cursor: int)
    requires envelope <= ROOM && -INT_LIMIT <= cursor < INT_LIMIT
    ensures EmptyFits(ReplySize(envelope, weight), cursor)
  {
    PrintedBound(cursor);
  }

  /** A message with a 32-bit id is sendable if it leaves room for the envelope. */
  lemma MessageHasRoom(envelope: nat, weight: Row -> nat, r: Row)
    requires r.id < INT_LIMIT && envelope + weight(r) <= ROOM
    ensures Sendable(ReplySize(envelope, weight), r)
  {
    CursorHasRoom(envelope, weight, r.id);
    PrintedBound(r.id);
    assert Weight([r], weight) == weight(r) by {
      assert [r][..0] == [];
    }
  }

  /** Rows with growing 32-bit ids are finitely many. */
  lemma {:induction false} IdsRunOut(rows: seq<Row>)
    requires Increasing(rows)
    ensures rows != [] ==> rows[|rows| - 1].id >= |rows| - 1
  {
    if |rows| > 1 {
      IdsRunOut(rows[..|rows| - 1]);
    }
  }

  /**
   So all of the above holds of the printed size, if each message fits together with the envelope.
   Nothing else bounds the traffic: 32-bit ids run out before the client could follow forever.
   */
  method CatchUpPrinted(envelope: nat, weight: Row -> nat, db: nat -> seq<Row>, thread: int, start: int)
    returns (got: seq<Row>, replies: seq<Reply>)
    requires thread > 0 && -INT_LIMIT <= start < INT_LIMIT && envelope <= ROOM
    requires forall k: nat :: Increasing(db(k)) && db(k) <= db(k + 1)
    requires forall k: nat, r :: r in db(k) ==> r.id < INT_LIMIT && envelope + weight(r) <= ROOM
    ensures |replies| > 0 && got == Later(db(|replies| - 1), thread, start)
    ensures forall r :: r in replies ==> ReplySize(envelope, weight)(r) <= MAX_LENGTH && !r.failed
  {
    var size := ReplySize(envelope, weight);
    forall k: nat, r | r in db(k) ensures Sendable(size, r) {
      MessageHasRoom(envelope, weight, r);
    }
    forall k: nat ensures |db(k)| <= INT_LIMIT {
      IdsRunOut(db(k));
      assert db(k) != [] ==> db(k)[|db(k)| - 1] in db(k);
    }
    ReplySizeHasSlack(envelope, weight);
    CursorHasRoom(envelope, weight, start);
    got, replies := CatchUp(size, db, thread, start, INT_LIMIT);
  }
}
