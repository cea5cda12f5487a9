/**
 Storing chat messages: a batch is one transaction, and a message sent again under its unique id is
 recognised instead of stored twice.
 */
module Messages {
  import opened Common
  import opened Runs
  import Contacts
  import Groups

  const MAX_UNIQUE: nat := 64

  /** A row of chat_message. System messages have an empty unique id. */
  datatype Row = Row(id: nat, thread: int, sender: int, recv: int, unique: string, content: string,
                     kind: int, time: string, status: int, size: nat)

  datatype Draft = Draft(thread: int, sender: int, recv: int, unique: string, content: string,
                         kind: int, time: string, status: int, size: nat)

  /** What the sender learns about a stored message. */
  datatype Receipt = Receipt(id: nat, time: string, status: int)

  /** Rows in the order of their auto-increment ids. */
  datatype Table = Table(rows: seq<Row>, nextId: nat)

  datatype Outcome = Stored(table: Table, receipts: seq<Receipt>) | Refused

  // ------------------------------------------------------------ specification

  predicate Matches(r: Row, d: Draft) {
    r.thread == d.thread && r.sender == d.sender && r.unique == d.unique
  }

  predicate SamePayload(r: Row, d: Draft) {
    r.recv == d.recv && r.content == d.content && r.kind == d.kind
  }

  /** The first row stored under the draft's thread, sender and unique id. */
  function Find(rows: seq<Row>, d: Draft): Option<Row> {
    if rows == [] then None
    else if Matches(rows[0], d) then Some(rows[0])
    else Find(rows[1..], d)
  }

  function ReceiptOf(r: Row): Receipt {
    Receipt(r.id, r.time, r.status)
  }

  function NewRow(id: nat, d: Draft): Row {
    Row(id, d.thread, d.sender, d.recv, d.unique, d.content, d.kind, d.time, d.status, d.size)
  }

  function Inserted(t: Table, d: Draft): Table {
    Table(t.rows + [NewRow(t.nextId, d)], t.nextId + 1)
  }

  function InsertedAll(t: Table, ds: seq<Draft>): Table {
    if ds == [] then t else Inserted(InsertedAll(t, ds[..|ds| - 1]), ds[|ds| - 1])
  }

  function Deliver(t: Table, d: Draft): Outcome {
    var found := Find(t.rows, d);
    if found.None? then Stored(Inserted(t, d), [ReceiptOf(NewRow(t.nextId, d))])
    else if SamePayload(found.value, d) then Stored(t, [ReceiptOf(found.value)])
    else Refused
  }

  function DeliverAll(t: Table, ds: seq<Draft>): Outcome {
    if ds == [] then Stored(t, [])
    else
      var before := DeliverAll(t, ds[..|ds| - 1]);
      if before.Refused? then Refused
      else
        var last := Deliver(before.table, ds[|ds| - 1]);
        if last.Refused? then Refused else Stored(last.table, before.receipts + last.receipts)
  }

  /** One conversation, one sender, and a usable unique id on every message. */
  predicate ValidBatch(ds: seq<Draft>) {
    && ds != [] && ds[0].thread > 0 && ds[0].sender > 0 && ds[0].recv > 0
    && forall i :: 0 <= i < |ds| ==>
         && 0 < |ds[i].unique| <= MAX_UNIQUE
         && ds[i].thread == ds[0].thread && ds[i].sender == ds[0].sender && ds[i].recv == ds[0].recv
  }

  /**
   Who may write: sender and receiver are equal for a group message, which needs a current member of
   an active group; a private one needs the sender's friend and the chat of exactly these two.
   */
  predicate Authorized(contacts: Contacts.Tables, groups: Groups.Tables, d: Draft) {
    d.thread > 0 &&
    if d.sender == d.recv then Groups.MaySend(groups, d.sender, d.thread)
    else
      && Contacts.Edge(d.sender, d.recv) in contacts.friends
      && Contacts.Chat(d.thread, Min(d.sender, d.recv), Max(d.sender, d.recv)) in contacts.chats
  }

  /** AddChatMsg; `authorized` is the outcome of the membership or friendship check. */
  function Send(t: Table, ds: seq<Draft>, authorized: bool): Outcome {
    if ValidBatch(ds) && authorized then DeliverAll(t, ds) else Refused
  }

  // -------------------------------------------------------------------- runs

  datatype Event =
    | Batch(drafts: seq<Draft>, authorized: bool)
    | System(lines: seq<Draft>)                     // no unique id, never looked up

  ghost predicate Next(t: Table, e: Event, t': Table) {
    match e
    case Batch(ds, authorized) => var o := Send(t, ds, authorized); t' == if o.Stored? then o.table else t
    case System(ds) => (forall d :: d in ds ==> d.unique == "") && t' == InsertedAll(t, ds)
  }

  const EMPTY := Table([], 1)

  ghost predicate TableRun(ts: seq<Table>, es: seq<Event>) {
    IsRun(Next, ts, es) && ts[0] == EMPTY
  }

  /** Ids grow, and a unique id names one row of its thread and sender. */
  ghost predicate Inv(t: Table) {
    && (forall i :: 0 <= i < |t.rows| ==> t.rows[i].id < t.nextId)
    && (forall i, j | 0 <= i < j < |t.rows| :: t.rows[i].id < t.rows[j].id)
    && (forall i, j | 0 <= i < j < |t.rows| :: !SameKey(t.rows[i], t.rows[j]))
  }

  predicate SameKey(r: Row, s: Row) {
    r.unique != "" && r.thread == s.thread && r.sender == s.sender && r.unique == s.unique
  }

  lemma {:induction false} FindSome(rows: seq<Row>, d: Draft)
    ensures Find(rows, d).None? <==> forall i :: 0 <= i < |rows| ==> !Matches(rows[i], d)
    ensures Find(rows, d).Some? ==> Find(rows, d).value in rows && Matches(Find(rows, d).value, d)
  {
    if rows != [] && !Matches(rows[0], d) {
      FindSome(rows[1..], d);
      assert forall i :: 1 <= i < |rows| ==> rows[i] == rows[1..][i - 1];
    }
  }

  /** More rows at the end do not change what is found. */
  lemma {:induction false} FindStable(rows: seq<Row>, more: seq<Row>, d: Draft)
    requires rows <= more && Find(rows, d).Some?
    ensures Find(more, d) == Find(rows, d)
  {
    if !Matches(rows[0], d) {
      assert rows[1..] <= more[1..];
      FindStable(rows[1..], more[1..], d);
    }
  }

  lemma InsertKeepsInv(t: Table, d: Draft)
    requires Inv(t) && (d.unique == "" || Find(t.rows, d).None?)
    ensures Inv(Inserted(t, d))
  {
    FindSome(t.rows, d);
    var rows := Inserted(t, d).rows;
    forall i, j | 0 <= i < j < |rows| ensures !SameKey(rows[i], rows[j]) {
      if j == |t.rows| {
        assert d.unique != "" ==> !Matches(t.rows[i], d);
      }
    }
  }

  lemma {:induction false} DeliverAllKeeps(t: Table, ds: seq<Draft>)
    requires DeliverAll(t, ds).Stored?
    ensures t.rows <= DeliverAll(t, ds).table.rows
    ensures |DeliverAll(t, ds).receipts| == |ds| && t.nextId <= DeliverAll(t, ds).table.nextId
    ensures Inv(t) ==> Inv(DeliverAll(t, ds).table)
  {
    if ds != [] {
      var n := |ds| - 1;
      DeliverAllKeeps(t, ds[..n]);
      var u := DeliverAll(t, ds[..n]).table;
      if Inv(u) && Find(u.rows, ds[n]).None? {
        InsertKeepsInv(u, ds[n]);
      }
    }
  }

  lemma {:induction false} InsertAllKeeps(t: Table, ds: seq<Draft>)
    requires forall d :: d in ds ==> d.unique == ""
    ensures t.rows <= InsertedAll(t, ds).rows
    ensures Inv(t) ==> Inv(InsertedAll(t, ds))
  {
    if ds != [] {
      InsertAllKeeps(t, ds[..|ds| - 1]);
      if Inv(t) {
        InsertKeepsInv(InsertedAll(t, ds[..|ds| - 1]), ds[|ds| - 1]);
      }
    }
  }

  lemma NextKeeps(t: Table, e: Event, t': Table)
    requires Next(t, e, t')
    ensures t.rows <= t'.rows
    ensures Inv(t) ==> Inv(t')
  {
    match e
    case Batch(ds, authorized) =>
      if Send(t, ds, authorized).Stored? {
        DeliverAllKeeps(t, ds);
      }
    case System(ds) => InsertAllKeeps(t, ds);
  }

  lemma Reachable(ts: seq<Table>, es: seq<Event>, i: nat)
    requires TableRun(ts, es) && i < |ts|
    ensures Inv(ts[i])
  {
    forall t, e, t' | Inv(t) && Next(t, e, t') ensures Inv(t') {
      NextKeeps(t, e, t');
    }
    Always(Next, Inv, ts, es, i);
  }

  /** Rows are only ever added at the end: none is changed, moved or removed. */
  lemma RowsArePermanent(ts: seq<Table>, es: seq<Event>, i: nat, j: nat)
    requires TableRun(ts, es) && i <= j < |ts|
    ensures ts[i].rows <= ts[j].rows
  {
    var grows := (t: Table, t': Table) => t.rows <= t'.rows;
    forall t0: Table, t, e, t' | grows(t0, t) && Next(t, e, t') ensures grows(t0, t') {
      NextKeeps(t, e, t');
    }
    Across(Next, (t: Table) => true, grows, ts, es, i, j);
  }

  /** Every new row is that of a draft, under its number. */
  lemma {:induction false} NewRows(t: Table, ds: seq<Draft>, x: nat) returns (k: nat)
    requires DeliverAll(t, ds).Stored? && |t.rows| <= x < |DeliverAll(t, ds).table.rows|
    ensures k < |ds| && DeliverAll(t, ds).table.rows[x] == NewRow(DeliverAll(t, ds).table.rows[x].id, ds[k])
  {
    var n := |ds| - 1;
    var u := DeliverAll(t, ds[..n]).table;
    if x < |u.rows| {
      k := NewRows(t, ds[..n], x);
    } else {
      k := n;
    }
  }

  lemma {:induction false} InsertedRows(t: Table, ds: seq<Draft>)
    ensures var u := InsertedAll(t, ds);
            && |u.rows| == |t.rows| + |ds| && u.nextId == t.nextId + |ds| && t.rows <= u.rows
            && forall k :: 0 <= k < |ds| ==> u.rows[|t.rows| + k] == NewRow(t.nextId + k, ds[k])
  {
    if ds != [] {
      InsertedRows(t, ds[..|ds| - 1]);
    }
  }

  // ------------------------------------------------------------------ idempotence

  /** Delivering one draft leaves its row findable, with the payload and the receipt given. */
  lemma Findable(t: Table, d: Draft)
    requires Deliver(t, d).Stored?
    ensures var o := Deliver(t, d);
            && Find(o.table.rows, d).Some?
            && SamePayload(Find(o.table.rows, d).value, d)
            && o.receipts == [ReceiptOf(Find(o.table.rows, d).value)]
            && t.rows <= o.table.rows
  {
    if Find(t.rows, d).None? {
      FindSome(t.rows, d);
      FindFresh(t.rows, NewRow(t.nextId, d), d);
    }
  }

  lemma {:induction false} FindFresh(rows: seq<Row>, r: Row, d: Draft)
    requires Matches(r, d) && forall i :: 0 <= i < |rows| ==> !Matches(rows[i], d)
    ensures Find(rows + [r], d) == Some(r)
  {
    if rows != [] {
      assert (rows + [r])[1..] == rows[1..] + [r];
      FindFresh(rows[1..], r, d);
    }
  }

  /** The last message of a stored batch is found by its key right after it was delivered. */
  lemma LastReceipt(t: Table, ds: seq<Draft>)
    requires ds != [] && DeliverAll(t, ds).Stored?
    ensures var o, d := DeliverAll(t, ds), ds[|ds| - 1];
            && Find(o.table.rows, d).Some? && SamePayload(Find(o.table.rows, d).value, d)
            && o.receipts[|o.receipts| - 1] == ReceiptOf(Find(o.table.rows, d).value)
  {
    Findable(DeliverAll(t, ds[..|ds| - 1]).table, ds[|ds| - 1]);
  }

  /** Each message of a stored batch has a row with its payload, and the receipt is that row's. */
  lemma {:induction false} ReceiptsNameTheRows(t: Table, ds: seq<Draft>, k: nat)
    requires DeliverAll(t, ds).Stored? && k < |ds|
    ensures var o := DeliverAll(t, ds);
            && |o.receipts| == |ds| && Find(o.table.rows, ds[k]).Some?
            && SamePayload(Find(o.table.rows, ds[k]).value, ds[k])
            && o.receipts[k] == ReceiptOf(Find(o.table.rows, ds[k]).value)
            && var r := Find(o.table.rows, ds[k]).value;
            o.receipts[k].id == r.id && o.receipts[k].time == r.time && o.receipts[k].status == r.status
  {
    var n := |ds| - 1;
    var u := DeliverAll(t, ds[..n]).table;
    DeliverAllKeeps(t, ds);
    DeliverAllKeeps(t, ds[..n]);
    LastReceipt(t, ds);
    if k < n {
      ReceiptsNameTheRows(t, ds[..n], k);
      FindStable(u.rows, Deliver(u, ds[n]).table.rows, ds[k]);
    }
  }

  /** The same message sent again: the server stamps it with a new time and measures it anew. */
  predicate Resends(d: Draft, first: Draft) {
    && d.thread == first.thread && d.sender == first.sender && d.recv == first.recv
    && d.unique == first.unique && d.content == first.content && d.kind == first.kind
  }

  /** The lookup sees only thread, sender and unique id. */
  lemma {:induction false} FindSame(rows: seq<Row>, d: Draft, first: Draft)
    requires d.thread == first.thread && d.sender == first.sender && d.unique == first.unique
    ensures Find(rows, d) == Find(rows, first)
  {
    if rows != [] {
      FindSame(rows[1..], d, first);
    }
  }

  /** The message has a row with its payload. */
  predicate Known(t: Table, d: Draft) {
    Find(t.rows, d).Some? && SamePayload(Find(t.rows, d).value, d)
  }

  /** A batch of known messages changes nothing, and each gets the receipt of its row. */
  lemma {:induction false} KnownBatch(t: Table, ds: seq<Draft>)
    requires forall k :: 0 <= k < |ds| ==> Known(t, ds[k])
    ensures var o := DeliverAll(t, ds);
            && o.Stored? && o.table == t && |o.receipts| == |ds|
            && forall k :: 0 <= k < |ds| ==> Known(t, ds[k]) && o.receipts[k] == ReceiptOf(Find(t.rows, ds[k]).value)
  {
    if ds != [] {
      KnownBatch(t, ds[..|ds| - 1]);
    }
  }

  /** Step `i` stored a batch whose message `m` is the first sending of `d`. */
  ghost predicate StoredAt(ts: seq<Table>, es: seq<Event>, i: nat, m: nat, d: Draft) {
    && i < |es| && |ts| == |es| + 1 && es[i].Batch? && m < |es[i].drafts|
    && Send(ts[i], es[i].drafts, es[i].authorized).Stored? && Resends(d, es[i].drafts[m])
  }

  function FirstReceipt(ts: seq<Table>, es: seq<Event>, i: nat, m: nat): Receipt
    requires i < |es| && |ts| == |es| + 1 && es[i].Batch? && m < |es[i].drafts|
    requires Send(ts[i], es[i].drafts, es[i].authorized).Stored?
  {
    DeliverAllKeeps(ts[i], es[i].drafts);
    Send(ts[i], es[i].drafts, es[i].authorized).receipts[m]
  }

  /** A message stored once is known ever after, by the receipt it got then. */
  lemma KnownEverAfter(ts: seq<Table>, es: seq<Event>, i: nat, m: nat, j: nat, d: Draft)
    requires TableRun(ts, es) && i < j < |ts| && StoredAt(ts, es, i, m, d)
    ensures Known(ts[j], d) && ReceiptOf(Find(ts[j].rows, d).value) == FirstReceipt(ts, es, i, m)
  {
    var first := es[i].drafts[m];
    assert Next(ts[i], es[i], ts[i + 1]);
    ReceiptsNameTheRows(ts[i], es[i].drafts, m);
    RowsArePermanent(ts, es, i + 1, j);
    FindStable(ts[i + 1].rows, ts[j].rows, first);
    FindSame(ts[j].rows, d, first);
  }

  /**
   Messages sent again, at any later time, stamped anew, regrouped in any way and after any other
   traffic: if each was stored by some earlier batch, the batch is accepted, no row changes, and
   each message gets the receipt of its first sending.
   */
  lemma ResendChangesNothing(ts: seq<Table>, es: seq<Event>, j: nat, again: seq<Draft>,
                             batch: seq<nat>, place: seq<nat>)
    requires TableRun(ts, es) && j < |ts| && ValidBatch(again) && |batch| == |place| == |again|
    requires forall k :: 0 <= k < |again| ==> batch[k] < j && StoredAt(ts, es, batch[k], place[k], again[k])
    ensures var o := Send(ts[j], again, true);
            && o.Stored? && o.table == ts[j] && |o.receipts| == |again|
            && forall k :: 0 <= k < |again| ==>
                 && StoredAt(ts, es, batch[k], place[k], again[k])
                 && o.receipts[k] == FirstReceipt(ts, es, batch[k], place[k])
  {
    forall k | 0 <= k < |again|
      ensures Known(ts[j], again[k])
      ensures ReceiptOf(Find(ts[j].rows, again[k]).value) == FirstReceipt(ts, es, batch[k], place[k])
    {
      KnownEverAfter(ts, es, batch[k], place[k], j, again[k]);
    }
    KnownBatch(ts[j], again);
  }

  predicate SameBatch(ds: seq<Draft>, again: seq<Draft>) {
    |again| == |ds| && forall k :: 0 <= k < |ds| ==> Resends(again[k], ds[k])
  }

  /** In particular a whole batch sent again gets exactly the receipts of the first time. */
  lemma RetryGetsTheSameReceipts(ts: seq<Table>, es: seq<Event>, i: nat, j: nat, again: seq<Draft>)
    requires TableRun(ts, es) && i < j < |ts| && es[i].Batch?
    requires Send(ts[i], es[i].drafts, es[i].authorized).Stored? && SameBatch(es[i].drafts, again)
    ensures Send(ts[j], again, true) == Stored(ts[j], Send(ts[i], es[i].drafts, es[i].authorized).receipts)
  {
    var first := Send(ts[i], es[i].drafts, es[i].authorized).receipts;
    DeliverAllKeeps(ts[i], es[i].drafts);
    assert forall k :: 0 <= k < |again| ==> Resends(again[k], es[i].drafts[k]);
    ResendChangesNothing(ts, es, j, again, seq(|again|, _ => i), seq(|again|, k => k));
    assert Send(ts[j], again, true).receipts == first;
  }

  /** A unique id that is taken by another payload refuses the whole batch, and nothing is stored. */
  lemma {:induction false} ReusedIdIsRefused(t: Table, ds: seq<Draft>, k: nat)
    requires k < |ds| && Find(t.rows, ds[k]).Some? && !SamePayload(Find(t.rows, ds[k]).value, ds[k])
    ensures DeliverAll(t, ds).Refused?
  {
    var n := |ds| - 1;
    if k < n {
      ReusedIdIsRefused(t, ds[..n], k);
    } else if DeliverAll(t, ds[..n]).Stored? {
      DeliverAllKeeps(t, ds[..n]);
      FindStable(t.rows, DeliverAll(t, ds[..n]).table.rows, ds[n]);
    }
  }

  /** In every reachable table two rows of one thread and sender never share a unique id. */
  lemma OneRowPerUniqueId(ts: seq<Table>, es: seq<Event>, i: nat, r: Row, s: Row)
    requires TableRun(ts, es) && i < |ts| && r in ts[i].rows && s in ts[i].rows && SameKey(r, s)
    ensures r == s
  {
    Reachable(ts, es, i);
    var x :| 0 <= x < |ts[i].rows| && ts[i].rows[x] == r;
    var y :| 0 <= y < |ts[i].rows| && ts[i].rows[y] == s;
  }

  // --------------------------------------------------- what a batch does, exactly

  /** One conversation between positive accounts, and a unique id of 1 to 64 bytes on every message. */
  predicate Proper(ds: seq<Draft>) {
    && |ds| > 0 && ds[0].thread > 0 && ds[0].sender > 0 && ds[0].recv > 0
    && forall d :: d in ds ==>
         && 1 <= |d.unique| <= 64
         && d.thread == ds[0].thread && d.sender == ds[0].sender && d.recv == ds[0].recv
  }

  lemma ProperBatches(ds: seq<Draft>)
    ensures Proper(ds) <==> ValidBatch(ds)
  {
    if Proper(ds) {
      assert forall i :: 0 <= i < |ds| ==> ds[i] in ds;
    }
  }

  /** The row already stands for a message of the same thread and sender under the same unique id. */
  predicate Names(r: Row, d: Draft) {
    r.thread == d.thread && r.sender == d.sender && r.unique == d.unique
  }

  /** A row stands under the draft's unique id with other contents. */
  predicate ClashesWithRow(t: Table, d: Draft) {
    exists r :: r in t.rows && Names(r, d) && !(r.recv == d.recv && r.content == d.content && r.kind == d.kind)
  }

  /** So does an earlier message of the batch. */
  predicate ClashesWithDraft(earlier: seq<Draft>, d: Draft) {
    exists e :: e in earlier && e.unique == d.unique && !(e.content == d.content && e.kind == d.kind)
  }

  predicate ClashAt(t: Table, ds: seq<Draft>, k: nat) {
    k < |ds| && (ClashesWithRow(t, ds[k]) || ClashesWithDraft(ds[..k], ds[k]))
  }

  /** Some message of the batch reuses a unique id for other contents. */
  ghost predicate Clashes(t: Table, ds: seq<Draft>) {
    exists k: nat :: ClashAt(t, ds, k)
  }

  lemma ClashesSnoc(t: Table, ds: seq<Draft>)
    requires ds != []
    ensures Clashes(t, ds) <==> Clashes(t, ds[..|ds| - 1]) || ClashAt(t, ds, |ds| - 1)
  {
    var n := |ds| - 1;
    var before := ds[..n];
    forall k: nat | k < n ensures ClashAt(t, ds, k) <==> ClashAt(t, before, k) {
      assert before[..k] == ds[..k] && before[k] == ds[k];
    }
    if k: nat :| ClashAt(t, ds, k) {
      assert k < n ==> ClashAt(t, before, k);
    }
    if k: nat :| ClashAt(t, before, k) {
      assert ClashAt(t, ds, k);
    }
  }

  /** The message has no row yet and is not a repetition within the batch. */
  predicate IsNew(t: Table, earlier: seq<Draft>, d: Draft) {
    && (forall r :: r in t.rows ==> !Names(r, d))
    && (forall e :: e in earlier ==> e.unique != d.unique)
  }

  /** The messages of a batch that are new, in order. */
  function FirstSendings(t: Table, ds: seq<Draft>): seq<Draft> {
    if ds == [] then []
    else
      var n := |ds| - 1;
      FirstSendings(t, ds[..n]) + (if IsNew(t, ds[..n], ds[n]) then [ds[n]] else [])
  }

  /** The row holds the message, whole, under this number. */
  predicate Holds(r: Row, d: Draft, id: nat) {
    && r.id == id && r.thread == d.thread && r.sender == d.sender && r.recv == d.recv && r.unique == d.unique
    && r.content == d.content && r.kind == d.kind && r.time == d.time && r.status == d.status && r.size == d.size
  }

  /** `u` is `t` with one row for each of the messages, numbered on. */
  ghost predicate Extended(t: Table, news: seq<Draft>, u: Table) {
    && u.nextId == t.nextId + |news| && |u.rows| == |t.rows| + |news| && t.rows <= u.rows
    && forall k :: 0 <= k < |news| ==> Holds(u.rows[|t.rows| + k], news[k], t.nextId + k)
  }

  /** A row found after a prefix of the batch was there before, or is that of an earlier message. */
  lemma FoundWhere(t: Table, ds: seq<Draft>, d: Draft)
    requires DeliverAll(t, ds).Stored? && Find(DeliverAll(t, ds).table.rows, d).Some?
    ensures var r := Find(DeliverAll(t, ds).table.rows, d).value;
            (r in t.rows || exists k :: 0 <= k < |ds| && r == NewRow(r.id, ds[k])) && Matches(r, d)
  {
    var u := DeliverAll(t, ds).table;
    FindSome(u.rows, d);
    DeliverAllKeeps(t, ds);
    var r := Find(u.rows, d).value;
    var x :| 0 <= x < |u.rows| && u.rows[x] == r;
    if x < |t.rows| {
      assert t.rows[x] == r;
    } else {
      var k := NewRows(t, ds, x);
    }
  }

  /** An earlier message of the batch, or a row from before, is found again under its unique id. */
  lemma FoundAgain(t: Table, ds: seq<Draft>, d: Draft)
    requires DeliverAll(t, ds).Stored? && !IsNew(t, ds, d)
    requires forall e :: e in ds ==> e.thread == d.thread && e.sender == d.sender
    ensures Find(DeliverAll(t, ds).table.rows, d).Some?
  {
    var u := DeliverAll(t, ds).table;
    DeliverAllKeeps(t, ds);
    FindSome(u.rows, d);
    if r :| r in t.rows && Names(r, d) {
      var x :| 0 <= x < |t.rows| && t.rows[x] == r;
      assert Matches(u.rows[x], d);
    } else {
      var e :| e in ds && e.unique == d.unique;
      var k :| 0 <= k < |ds| && ds[k] == e;
      ReceiptsNameTheRows(t, ds, k);
      FindSome(u.rows, e);
    }
  }

  lemma {:induction false} ExtendedOnward(t: Table, ds: seq<Draft>)
    requires Proper(ds) && DeliverAll(t, ds).Stored?
    ensures Extended(t, FirstSendings(t, ds), DeliverAll(t, ds).table)
    decreases |ds|
  {
    var n := |ds| - 1;
    var before, d := ds[..n], ds[n];
    assert d in ds && forall e :: e in before ==> e in ds;
    if n > 0 {
      ExtendedOnward(t, before);
    }
    if IsNew(t, before, d) {
      if Find(DeliverAll(t, before).table.rows, d).Some? {
        FoundWhere(t, before, d);
      }
    } else {
      FoundAgain(t, before, d);
    }
  }

  /** A clash is what refuses a message, after whatever part of the batch. */
  lemma ClashRefuses(t: Table, ds: seq<Draft>, d: Draft)
    requires Inv(t) && DeliverAll(t, ds).Stored? && d.unique != ""
    requires forall e :: e in ds ==> e.thread == d.thread && e.sender == d.sender && e.recv == d.recv
    ensures Deliver(DeliverAll(t, ds).table, d).Refused? <==> ClashesWithRow(t, d) || ClashesWithDraft(ds, d)
  {
    var u := DeliverAll(t, ds).table;
    DeliverAllKeeps(t, ds);
    FindSome(u.rows, d);
    if Deliver(u, d).Refused? {
      FoundWhere(t, ds, d);
      var r := Find(u.rows, d).value;
      if r !in t.rows {
        var k :| 0 <= k < |ds| && r == NewRow(r.id, ds[k]);
        assert ds[k] in ds;
      }
    } else if ClashesWithRow(t, d) {
      var r :| r in t.rows && Names(r, d) && !(r.recv == d.recv && r.content == d.content && r.kind == d.kind);
      RowIsFound(t, u, r, d);
    } else if ClashesWithDraft(ds, d) {
      var e :| e in ds && e.unique == d.unique && !(e.content == d.content && e.kind == d.kind);
      var k :| 0 <= k < |ds| && ds[k] == e;
      ReceiptsNameTheRows(t, ds, k);
      FindSame(u.rows, d, e);
    }
  }

  /** The one row under a unique id is what the lookup finds. */
  lemma RowIsFound(t: Table, u: Table, r: Row, d: Draft)
    requires Inv(u) && t.rows <= u.rows && r in t.rows && Names(r, d) && d.unique != ""
    ensures Find(u.rows, d) == Some(r)
  {
    FindSome(u.rows, d);
    var x :| 0 <= x < |t.rows| && t.rows[x] == r;
    assert u.rows[x] == r && Matches(u.rows[x], d);
    var y :| 0 <= y < |u.rows| && u.rows[y] == Find(u.rows, d).value;
    assert SameKey(u.rows[x], u.rows[y]) && SameKey(u.rows[y], u.rows[x]);
  }

  lemma {:induction false} StoredUnlessClash(t: Table, ds: seq<Draft>)
    requires Inv(t) && (ds == [] || Proper(ds))
    ensures DeliverAll(t, ds).Stored? <==> !Clashes(t, ds)
    decreases |ds|
  {
    if ds != [] {
      var n := |ds| - 1;
      var before := ds[..n];
      assert ds[n] in ds && forall e :: e in before ==> e in ds;
      StoredUnlessClash(t, before);
      ClashesSnoc(t, ds);
      if DeliverAll(t, before).Stored? {
        ClashRefuses(t, before, ds[n]);
      }
    }
  }

  /**
   In every reachable table a batch is stored exactly if it is proper, authorized and free of clashes.
   It then adds exactly one row, with all of the message, for each message that is new, in order and
   numbered on; otherwise nothing.
   */
  lemma BatchStoredExactly(ts: seq<Table>, es: seq<Event>, i: nat)
    requires TableRun(ts, es) && i < |es| && es[i].Batch?
    ensures var t, t', ds := ts[i], ts[i + 1], es[i].drafts;
            if Proper(ds) && es[i].authorized && !Clashes(t, ds)
            then Send(t, ds, es[i].authorized).Stored? && Extended(t, FirstSendings(t, ds), t')
            else Send(t, ds, es[i].authorized).Refused? && t' == t
  {
    var t, ds := ts[i], es[i].drafts;
    Reachable(ts, es, i);
    assert Next(t, es[i], ts[i + 1]);
    ProperBatches(ds);
    if Proper(ds) {
      StoredUnlessClash(t, ds);
      if DeliverAll(t, ds).Stored? {
        ExtendedOnward(t, ds);
      }
    }
  }

  // --------------------------------------------------------------- who may write

  /**
   Who may write, exactly: for a group message a member of the active group; for a private one the
   sender must have the receiver as a friend, and the thread must be the chat of the two, whichever of
   them has the smaller account number.
   */
  lemma AuthorizedExactly(contacts: Contacts.Tables, groups: Groups.Tables, d: Draft)
    requires Contacts.ChatsDistinct(contacts)
    ensures Authorized(contacts, groups, d) <==>
            && d.thread > 0
            && if d.sender == d.recv then
                 && d.thread in groups.groups && groups.groups[d.thread].active
                 && d.thread in groups.members && d.sender in groups.members[d.thread]
               else
                 && Contacts.Edge(d.sender, d.recv) in contacts.friends
                 && exists c :: c in contacts.chats && {c.user1, c.user2} == {d.sender, d.recv} && c.thread == d.thread
  {
    if d.sender != d.recv {
      if c :| c in contacts.chats && {c.user1, c.user2} == {d.sender, d.recv} && c.thread == d.thread {
        PairOfChat(c, d.sender, d.recv);
      }
      var wanted := Contacts.Chat(Max(d.thread, 0), Min(d.sender, d.recv), Max(d.sender, d.recv));
      assert {wanted.user1, wanted.user2} == {d.sender, d.recv};
    }
  }

  lemma PairOfChat(c: Contacts.Chat, a: int, b: int)
    requires c.user1 < c.user2 && {c.user1, c.user2} == {a, b}
    ensures c.user1 == Min(a, b) && c.user2 == Max(a, b)
  {
    assert a in {c.user1, c.user2} && b in {c.user1, c.user2};
    assert c.user1 in {a, b} && c.user2 in {a, b};
  }

  /**
   A private message is authorized only while an application and an accept of it have not been
   followed by a delete, and only in the one chat of the two accounts.
   */
  lemma OnlyFriendsWrite(cs: seq<Contacts.Tables>, ces: seq<Contacts.Event>, i: nat, groups: Groups.Tables, d: Draft,
                         chat: Contacts.Chat) returns (j: nat, k: nat)
    requires Contacts.ContactRun(cs, ces) && i < |cs| && d.sender != d.recv && Authorized(cs[i], groups, d)
    requires chat in cs[i].chats && chat.user1 == Min(d.sender, d.recv) && chat.user2 == Max(d.sender, d.recv)
    ensures d.thread == chat.thread
    ensures j < k < i && ces[j].DoApply? && ces[k].DoAccept? && Contacts.About(ces[k], d.sender, d.recv)
    ensures ces[j].from == ces[k].to && ces[j].to == ces[k].from
    ensures Contacts.NoDelete(ces, j, i, d.sender, d.recv)
  {
    j, k := Contacts.FriendsAppliedAndAccepted(cs, ces, i, d.sender, d.recv);
    Contacts.OneChatPerPair(cs, ces, i, chat, Contacts.Chat(d.thread, chat.user1, chat.user2));
  }

  /** Nobody ever writes to a disbanded group again. */
  lemma DisbandedGroupIsSilent(gs: seq<Groups.Tables>, rs: seq<Groups.Request>, i: nat, j: nat,
                               contacts: Contacts.Tables, d: Draft)
    requires Groups.GroupRun(gs, rs) && i <= j < |gs| && d.sender == d.recv && d.thread > 0
    requires d.thread in gs[i].groups && !gs[i].groups[d.thread].active
    ensures !Authorized(contacts, gs[j], d)
  {
    Groups.DisbandedForever(gs, rs, i, j, d.thread, d.sender);
  }

  // ------------------------------------------------------------------ the class

  class Dao {
    var rows: seq<Row>
    var nextId: nat

    ghost function Abs(): Table
      reads this
    {
      Table(rows, nextId)
    }

    constructor ()
      ensures Abs() == EMPTY
    {
      rows, nextId := [], 1;
    }

    method Lookup(d: Draft) returns (found: Option<Row>)
      ensures found == Find(rows, d)
    {
      var i := 0;
      while i < |rows|
        invariant 0 <= i <= |rows| && Find(rows, d) == Find(rows[i..], d)
      {
        if Matches(rows[i], d) {
          return Some(rows[i]);
        }
        assert rows[i..][1..] == rows[i + 1..];
        i := i + 1;
      }
      return None;
    }

    method Insert(d: Draft) returns (r: Receipt)
      modifies this
      ensures Abs() == Inserted(old(Abs()), d) && r == ReceiptOf(NewRow(old(nextId), d))
    {
      rows := rows + [NewRow(nextId, d)];
      r := Receipt(nextId, d.time, d.status);
      nextId := nextId + 1;
    }

    /** The statements of the transaction; a refusal is rolled back by the caller. */
    method StoreAll(ds: seq<Draft>) returns (receipts: Option<seq<Receipt>>)
      modifies this
      ensures var o := DeliverAll(old(Abs()), ds);
              receipts.Some? == o.Stored? && (o.Stored? ==> Abs() == o.table && receipts.value == o.receipts)
    {
      var done := [];
      ghost var t := Abs();
      for i := 0 to |ds|
        invariant DeliverAll(t, ds[..i]) == Stored(Abs(), done)
      {
        assert ds[..i + 1][..i] == ds[..i];
        var found := Lookup(ds[i]);
        if found.Some? {
          if !SamePayload(found.value, ds[i]) {
            RefusedOnceRefused(t, ds, i + 1);
            return None;
          }
          done := done + [ReceiptOf(found.value)];
        } else {
          var receipt := Insert(ds[i]);
          done := done + [receipt];
        }
      }
      assert ds[..|ds|] == ds;
      return Some(done);
    }

    /** The membership queries, on the tables as the transaction finds them. */
    method MayWrite(d: Draft, contacts: Contacts.Tables, groups: Groups.Tables) returns (ok: bool)
      requires d.thread > 0
      ensures ok == Authorized(contacts, groups, d)
    {
      if d.sender == d.recv {
        if d.thread !in groups.groups || !groups.groups[d.thread].active {
          return false;
        }
        return d.thread in groups.members && d.sender in groups.members[d.thread];
      }
      var first, second := Min(d.sender, d.recv), Max(d.sender, d.recv);
      var friends := Contacts.Edge(d.sender, d.recv) in contacts.friends;
      return friends && Contacts.Chat(d.thread, first, second) in contacts.chats;
    }

    method AddChatMsg(ds: seq<Draft>, contacts: Contacts.Tables, groups: Groups.Tables)
      returns (receipts: Option<seq<Receipt>>)
      modifies this
      ensures var o := Send(old(Abs()), ds, ds != [] && Authorized(contacts, groups, ds[0]));
              && receipts == (if o.Stored? then Some(o.receipts) else None)
              && Abs() == (if o.Stored? then o.table else old(Abs()))
    {
      if !ValidBatch(ds) {
        return None;
      }
      var authorized := MayWrite(ds[0], contacts, groups);
      if !authorized {
        return None;
      }
      var before, id := rows, nextId;
      receipts := StoreAll(ds);
      if receipts.None? {
        rows, nextId := before, id;
      }
    }
  }

  lemma {:induction false} RefusedOnceRefused(t: Table, ds: seq<Draft>, i: nat)
    requires i <= |ds| && DeliverAll(t, ds[..i]).Refused?
    ensures DeliverAll(t, ds).Refused?
  {
    if i < |ds| {
      assert ds[..|ds| - 1][..i] == ds[..i];
      RefusedOnceRefused(t, ds[..|ds| - 1], i);
    } else {
      assert ds[..i] == ds;
    }
  }
}
