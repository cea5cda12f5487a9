/**
 Contacts, groups and messages in one database: private chats and groups take their threads from the
 same table, all messages their ids from another, groups consult the friendships, and sending
 consults both. A step is one transaction.
 */
module Conversations {
  import opened Common
  import opened Runs
  import Contacts
  import Groups
  import Messages

  /** The auto-increment counters of chat_thread and chat_message are each carried by two parts. */
  datatype Db = Db(contacts: Contacts.Tables, groups: Groups.Tables, table: Messages.Table)

  datatype Event =
    | Contact(contact: Contacts.Event, time: string)
    | Group(request: Groups.Request)
    | Send(drafts: seq<Messages.Draft>)

  /** An opening message as the row the accept inserts. */
  function Lines(ms: seq<Contacts.Message>, time: string): (ds: seq<Messages.Draft>)
    ensures |ds| == |ms|
    ensures forall k :: 0 <= k < |ds| ==>
              ds[k] == Messages.Draft(ms[k].thread, ms[k].sender, ms[k].receiver, "", ms[k].content, 0, time, 2, 0)
  {
    seq(|ms|, k requires 0 <= k < |ms| =>
      Messages.Draft(ms[k].thread, ms[k].sender, ms[k].receiver, "", ms[k].content, 0, time, 2, 0))
  }

  predicate MaySend(s: Db, ds: seq<Messages.Draft>) {
    ds != [] && Messages.Authorized(s.contacts, s.groups, ds[0])
  }

  ghost predicate ContactNext(s: Db, c: Contacts.Event, time: string, s': Db) {
    && !c.Reserve? && s'.contacts == Contacts.After(s.contacts, c)
    && s'.groups == s.groups.(nextThread := s'.contacts.nextThread)
    && s'.table == Messages.InsertedAll(s.table, Lines(Contacts.Added(s.contacts, c), time))
  }

  ghost predicate GroupNext(s: Db, r: Groups.Request, s': Db) {
    && !r.Reserve? && r.contacts == s.contacts && Groups.Next(s.groups, r, s'.groups)
    && s'.contacts == s.contacts.(nextThread := s'.groups.nextThread)
    && s'.table == s.table
  }

  ghost predicate SendNext(s: Db, ds: seq<Messages.Draft>, s': Db) {
    && Messages.Next(s.table, Messages.Batch(ds, MaySend(s, ds)), s'.table)
    && s'.contacts == s.contacts.(nextMessage := s'.table.nextId) && s'.groups == s.groups
  }

  ghost predicate Next(s: Db, e: Event, s': Db) {
    match e
    case Contact(c, time) => ContactNext(s, c, time, s')
    case Group(r) => GroupNext(s, r, s')
    case Send(ds) => SendNext(s, ds, s')
  }

  const EMPTY := Db(Contacts.EMPTY, Groups.EMPTY, Messages.EMPTY)

  ghost predicate DbRun(ss: seq<Db>, es: seq<Event>) {
    IsRun(Next, ss, es) && ss[0] == EMPTY
  }

  // ------------------------------------------ each part is a run of its own machine

  predicate Synced(s: Db) {
    s.contacts.nextThread == s.groups.nextThread && s.contacts.nextMessage == s.table.nextId
  }

  /** What the contact machine sees of a step: its own event, or numbers used up elsewhere. */
  function ContactEvent(s: Db, e: Event, s': Db): Contacts.Event {
    if e.Contact? then e.contact
    else Contacts.Reserve(Max(s'.contacts.nextThread - s.contacts.nextThread, 0),
                          Max(s'.contacts.nextMessage - s.contacts.nextMessage, 0))
  }

  function GroupEvent(s: Db, e: Event, s': Db): Groups.Request {
    if e.Group? then e.request else Groups.Reserve(Max(s'.groups.nextThread - s.groups.nextThread, 0))
  }

  function TableEvent(s: Db, e: Event): Messages.Event {
    match e
    case Contact(c, time) => Messages.System(Lines(Contacts.Added(s.contacts, c), time))
    case Group(_) => Messages.System([])
    case Send(ds) => Messages.Batch(ds, MaySend(s, ds))
  }

  lemma ContactSide(s: Db, c: Contacts.Event, time: string, s': Db)
    requires Synced(s) && ContactNext(s, c, time, s')
    ensures Synced(s') && Groups.Next(s.groups, GroupEvent(s, Contact(c, time), s'), s'.groups)
    ensures Messages.Next(s.table, TableEvent(s, Contact(c, time)), s'.table)
  {
    Contacts.NewThreads(s.contacts, c);
    Contacts.NewMessages(s.contacts, c);
    Messages.InsertedRows(s.table, Lines(Contacts.Added(s.contacts, c), time));
    assert s'.groups == s.groups.(nextThread := s.groups.nextThread + (s'.groups.nextThread - s.groups.nextThread));
  }

  lemma GroupSide(s: Db, r: Groups.Request, s': Db)
    requires Synced(s) && GroupNext(s, r, s')
    ensures Synced(s') && Contacts.Next(s.contacts, ContactEvent(s, Group(r), s'), s'.contacts)
    ensures Messages.Next(s.table, TableEvent(s, Group(r)), s'.table)
  {
    Groups.NewThreads(s.groups, r, s'.groups);
  }

  lemma SendSide(s: Db, ds: seq<Messages.Draft>, s': Db)
    requires Synced(s) && SendNext(s, ds, s')
    ensures Synced(s') && Contacts.Next(s.contacts, ContactEvent(s, Send(ds), s'), s'.contacts)
    ensures Groups.Next(s.groups, GroupEvent(s, Send(ds), s'), s'.groups)
  {
    if Messages.Send(s.table, ds, MaySend(s, ds)).Stored? {
      Messages.DeliverAllKeeps(s.table, ds);
    }
  }

  lemma SidesStep(s: Db, e: Event, s': Db)
    requires Synced(s) && Next(s, e, s')
    ensures Synced(s')
    ensures Contacts.Next(s.contacts, ContactEvent(s, e, s'), s'.contacts)
    ensures Groups.Next(s.groups, GroupEvent(s, e, s'), s'.groups)
    ensures Messages.Next(s.table, TableEvent(s, e), s'.table)
  {
    match e
    case Contact(c, time) => ContactSide(s, c, time, s');
    case Group(r) => GroupSide(s, r, s');
    case Send(ds) => SendSide(s, ds, s');
  }

  lemma AlwaysSynced(ss: seq<Db>, es: seq<Event>, i: nat)
    requires DbRun(ss, es) && i < |ss|
    ensures Synced(ss[i])
  {
    forall s, e, s' | Synced(s) && Next(s, e, s') ensures Synced(s') {
      SidesStep(s, e, s');
    }
    Always(Next, Synced, ss, es, i);
  }

  function ContactStates(ss: seq<Db>): seq<Contacts.Tables> {
    seq(|ss|, i requires 0 <= i < |ss| => ss[i].contacts)
  }

  function ContactEvents(ss: seq<Db>, es: seq<Event>): seq<Contacts.Event>
    requires |ss| == |es| + 1
  {
    seq(|es|, i requires 0 <= i < |es| => ContactEvent(ss[i], es[i], ss[i + 1]))
  }

  function GroupStates(ss: seq<Db>): seq<Groups.Tables> {
    seq(|ss|, i requires 0 <= i < |ss| => ss[i].groups)
  }

  function GroupEvents(ss: seq<Db>, es: seq<Event>): seq<Groups.Request>
    requires |ss| == |es| + 1
  {
    seq(|es|, i requires 0 <= i < |es| => GroupEvent(ss[i], es[i], ss[i + 1]))
  }

  function TableStates(ss: seq<Db>): seq<Messages.Table> {
    seq(|ss|, i requires 0 <= i < |ss| => ss[i].table)
  }

  function TableEvents(ss: seq<Db>, es: seq<Event>): seq<Messages.Event>
    requires |ss| == |es| + 1
  {
    seq(|es|, i requires 0 <= i < |es| => TableEvent(ss[i], es[i]))
  }

  /** So everything proved of the three machines holds of the common database. */
  lemma AllPartsRun(ss: seq<Db>, es: seq<Event>)
    requires DbRun(ss, es)
    ensures Contacts.ContactRun(ContactStates(ss), ContactEvents(ss, es))
    ensures Groups.GroupRun(GroupStates(ss), GroupEvents(ss, es))
    ensures Messages.TableRun(TableStates(ss), TableEvents(ss, es))
  {
    forall i | 0 <= i < |es|
      ensures Contacts.Next(ss[i].contacts, ContactEvent(ss[i], es[i], ss[i + 1]), ss[i + 1].contacts)
      ensures Groups.Next(ss[i].groups, GroupEvent(ss[i], es[i], ss[i + 1]), ss[i + 1].groups)
      ensures Messages.Next(ss[i].table, TableEvent(ss[i], es[i]), ss[i + 1].table)
    {
      AlwaysSynced(ss, es, i);
      assert Next(ss[i], es[i], ss[i + 1]);
      SidesStep(ss[i], es[i], ss[i + 1]);
    }
  }

  // ------------------------------------------------------- one kind per thread

  ghost predicate Disjoint(s: Db) {
    && Synced(s) && Contacts.ChatInv(s.contacts) && Groups.Inv(s.groups)
    && forall c :: c in s.contacts.chats ==> c.thread !in s.groups.groups
  }

  lemma DisjointStep(s: Db, e: Event, s': Db)
    requires Disjoint(s) && Next(s, e, s')
    ensures Disjoint(s')
  {
    SidesStep(s, e, s');
    Contacts.ChatInvStep(s.contacts, ContactEvent(s, e, s'));
    Groups.InvStep(s.groups, GroupEvent(s, e, s'), s'.groups);
    Contacts.NewThreads(s.contacts, ContactEvent(s, e, s'));
    Groups.NewThreads(s.groups, GroupEvent(s, e, s'), s'.groups);
  }

  lemma AlwaysDisjoint(ss: seq<Db>, es: seq<Event>, i: nat)
    requires DbRun(ss, es) && i < |ss|
    ensures Disjoint(ss[i])
  {
    forall s, e, s' | Disjoint(s) && Next(s, e, s') ensures Disjoint(s') {
      DisjointStep(s, e, s');
    }
    Always(Next, Disjoint, ss, es, i);
  }

  /** A thread is never both a private chat and a group, however creations interleave. */
  lemma OneKindPerThread(ss: seq<Db>, es: seq<Event>, i: nat, c: Contacts.Chat)
    requires DbRun(ss, es) && i < |ss| && c in ss[i].contacts.chats
    ensures c.thread !in ss[i].groups.groups
  {
    AlwaysDisjoint(ss, es, i);
  }

  /** So a private message never lands in a group's thread, nor a group message in a private chat. */
  lemma MessagesStayInTheirKind(ss: seq<Db>, es: seq<Event>, i: nat, d: Messages.Draft)
    requires DbRun(ss, es) && i < |ss| && Messages.Authorized(ss[i].contacts, ss[i].groups, d)
    ensures d.sender == d.recv <==> d.thread in ss[i].groups.groups
    ensures d.sender != d.recv <==> exists c :: c in ss[i].contacts.chats && c.thread == d.thread
  {
    AlwaysDisjoint(ss, es, i);
  }

  // ------------------------------------------------------ who gets into a group

  /** Step `j` accepted the application of step `i` between the two accounts, and no delete came up to `k`. */
  ghost predicate Befriended(es: seq<Event>, i: nat, j: nat, k: nat, a: int, b: int) {
    && i < j < k <= |es|
    && es[i].Contact? && es[i].contact.DoApply?
    && es[j].Contact? && es[j].contact.DoAccept? && Contacts.About(es[j].contact, a, b)
    && es[i].contact.from == es[j].contact.to && es[i].contact.to == es[j].contact.from
    && forall m :: i <= m < k && es[m].Contact? ==> !Contacts.Deletes(es[m].contact, a, b)
  }

  /** The contact machine saw the contact events, and nothing of the others. */
  predicate SameContacts(es: seq<Event>, ces: seq<Contacts.Event>) {
    |ces| == |es| &&
    forall m :: 0 <= m < |es| ==> if es[m].Contact? then ces[m] == es[m].contact else ces[m].Reserve?
  }

  lemma Translated(es: seq<Event>, cs: seq<Contacts.Tables>, ces: seq<Contacts.Event>, k: nat, a: int, b: int)
    returns (i: nat, j: nat)
    requires Contacts.ContactRun(cs, ces) && SameContacts(es, ces) && k < |cs| && Groups.Friend(cs[k], a, b)
    ensures Befriended(es, i, j, k, a, b)
  {
    i, j := Contacts.FriendsAppliedAndAccepted(cs, ces, k, a, b);
    forall m | i <= m < k && es[m].Contact? ensures !Contacts.Deletes(es[m].contact, a, b) {
      assert !Contacts.Deletes(ces[m], a, b);
    }
  }

  lemma FriendsWereBefriended(ss: seq<Db>, es: seq<Event>, k: nat, a: int, b: int) returns (i: nat, j: nat)
    requires DbRun(ss, es) && k < |ss| && Groups.Friend(ss[k].contacts, a, b)
    ensures Befriended(es, i, j, k, a, b)
  {
    AllPartsRun(ss, es);
    i, j := Translated(es, ContactStates(ss), ContactEvents(ss, es), k, a, b);
  }

  /**
   Whoever joins a group, at its founding or later, is a friend of its owner at that time: one of
   them had applied and the other accepted, with no delete of the pair since.
   */
  lemma JoinersWereBefriended(ss: seq<Db>, es: seq<Event>, k: nat, thread: nat, u: int) returns (i: nat, j: nat)
    requires DbRun(ss, es) && k < |es| && thread in ss[k + 1].groups.groups
    requires u in Groups.Members(ss[k + 1].groups, thread) && u !in Groups.Members(ss[k].groups, thread)
    requires u != ss[k + 1].groups.groups[thread].owner
    ensures Befriended(es, i, j, k, ss[k + 1].groups.groups[thread].owner, u)
  {
    AlwaysDisjoint(ss, es, k);
    assert Next(ss[k], es[k], ss[k + 1]);
    JoinStep(ss[k], es[k], ss[k + 1], thread, u);
    i, j := FriendsWereBefriended(ss, es, k, ss[k + 1].groups.groups[thread].owner, u);
  }

  lemma JoinStep(s: Db, e: Event, s': Db, thread: nat, u: int)
    requires Groups.Inv(s.groups) && Next(s, e, s') && thread in s'.groups.groups
    requires u in Groups.Members(s'.groups, thread) && u !in Groups.Members(s.groups, thread)
    requires u != s'.groups.groups[thread].owner
    ensures Groups.Friend(s.contacts, s'.groups.groups[thread].owner, u)
  {
    assert e.Group?;
    if thread in s.groups.groups {
      Groups.WhoChangesMembership(s.groups, e.request, s'.groups, thread);
    }
  }

  // ------------------------------------------------------------ who may write, exactly

  /** Step `k` accepted an application between the two accounts, and no delete of the pair came up to `i`. */
  ghost predicate AcceptedAt(ss: seq<Db>, es: seq<Event>, k: nat, i: nat, a: int, b: int) {
    && k < i <= |es| < |ss| && es[k].Contact? && Contacts.Befriends(ss[k].contacts, es[k].contact, a, b)
    && forall m :: k <= m < i && es[m].Contact? ==> !Contacts.Deletes(es[m].contact, a, b)
  }

  lemma EventTranslates(ss: seq<Db>, es: seq<Event>, m: nat)
    requires |ss| == |es| + 1 && m < |es|
    ensures var e := ContactEvents(ss, es)[m];
            ContactStates(ss)[m] == ss[m].contacts && if es[m].Contact? then e == es[m].contact else e.Reserve?
  {
  }

  lemma DeletesTranslate(ss: seq<Db>, es: seq<Event>, m: nat, a: int, b: int)
    requires |ss| == |es| + 1 && m < |es|
    ensures Contacts.Deletes(ContactEvents(ss, es)[m], a, b)
            <==> es[m].Contact? && Contacts.Deletes(es[m].contact, a, b)
  {
    EventTranslates(ss, es, m);
  }

  lemma AcceptsTranslate(ss: seq<Db>, es: seq<Event>, k: nat, i: nat, a: int, b: int)
    requires |ss| == |es| + 1
    ensures AcceptedAt(ss, es, k, i, a, b)
            <==> Contacts.BefriendedAt(ContactStates(ss), ContactEvents(ss, es), k, i, a, b)
  {
    var ces := ContactEvents(ss, es);
    if k < i <= |es| {
      EventTranslates(ss, es, k);
      forall m | k <= m < i
        ensures Contacts.Deletes(ces[m], a, b) <==> es[m].Contact? && Contacts.Deletes(es[m].contact, a, b)
      {
        DeletesTranslate(ss, es, m, a, b);
      }
    }
  }

  /** In the common database two accounts are friends exactly from a successful accept to the next delete. */
  lemma FriendsExactly(ss: seq<Db>, es: seq<Event>, i: nat, a: int, b: int)
    requires DbRun(ss, es) && i < |ss|
    ensures Contacts.Edge(a, b) in ss[i].contacts.friends <==> exists k: nat :: AcceptedAt(ss, es, k, i, a, b)
  {
    AllPartsRun(ss, es);
    Contacts.FriendsExactly(ContactStates(ss), ContactEvents(ss, es), i, a, b);
    forall k: nat
      ensures AcceptedAt(ss, es, k, i, a, b)
              <==> Contacts.BefriendedAt(ContactStates(ss), ContactEvents(ss, es), k, i, a, b)
    {
      AcceptsTranslate(ss, es, k, i, a, b);
    }
  }

  /** The chat of two accounts: its thread is the same for both. */
  predicate ChatBetween(s: Db, thread: int, a: int, b: int) {
    exists c :: c in s.contacts.chats && {c.user1, c.user2} == {a, b} && c.thread == thread
  }

  /**
   Who may write, exactly, in terms of what happened: to a group its current members while it is active;
   in a private chat both of its accounts, from the accept of an application to the next delete.
   */
  lemma MayWriteExactly(ss: seq<Db>, es: seq<Event>, i: nat, d: Messages.Draft)
    requires DbRun(ss, es) && i < |ss|
    ensures MaySend(ss[i], [d]) <==>
            && d.thread > 0
            && if d.sender == d.recv then
                 && d.thread in ss[i].groups.groups && ss[i].groups.groups[d.thread].active
                 && d.thread in ss[i].groups.members && d.sender in ss[i].groups.members[d.thread]
               else
                 && (exists k: nat :: AcceptedAt(ss, es, k, i, d.sender, d.recv))
                 && ChatBetween(ss[i], d.thread, d.sender, d.recv)
  {
    AlwaysDisjoint(ss, es, i);
    Messages.AuthorizedExactly(ss[i].contacts, ss[i].groups, d);
    FriendsExactly(ss, es, i, d.sender, d.recv);
  }

  /**
   After an accept the two accounts have a chat, and until a delete whatever proper batch either of them
   sends in it is stored, unless it reuses a unique id for other contents.
   */
  lemma FriendsAreHeard(ss: seq<Db>, es: seq<Event>, k: nat, i: nat, a: int, b: int) returns (c: Contacts.Chat)
    requires DbRun(ss, es) && AcceptedAt(ss, es, k, i, a, b)
    ensures c in ss[i].contacts.chats && {c.user1, c.user2} == {a, b}
    ensures forall ds: seq<Messages.Draft> ::
              && Messages.Proper(ds) && ds[0].thread == c.thread && {ds[0].sender, ds[0].recv} == {a, b}
              && !Messages.Clashes(ss[i].table, ds) ==>
                Messages.Send(ss[i].table, ds, MaySend(ss[i], ds)).Stored?
  {
    AllPartsRun(ss, es);
    FriendsExactly(ss, es, i, a, b);
    c := Contacts.FriendsHaveTheirChat(ContactStates(ss), ContactEvents(ss, es), i, a, b);
    forall ds: seq<Messages.Draft> |
      && Messages.Proper(ds) && ds[0].thread == c.thread && {ds[0].sender, ds[0].recv} == {a, b}
      && !Messages.Clashes(ss[i].table, ds)
      ensures Messages.Send(ss[i].table, ds, MaySend(ss[i], ds)).Stored?
    {
      FriendIsHeard(ss, es, k, i, a, b, c, ds);
    }
  }

  lemma FriendIsHeard(
    ss: seq<Db>, es: seq<Event>, k: nat, i: nat, a: int, b: int, c: Contacts.Chat, ds: seq<Messages.Draft>)
    requires DbRun(ss, es) && AcceptedAt(ss, es, k, i, a, b)
    requires c in ss[i].contacts.chats && {c.user1, c.user2} == {a, b}
    requires Messages.Proper(ds) && ds[0].thread == c.thread && {ds[0].sender, ds[0].recv} == {a, b}
    requires !Messages.Clashes(ss[i].table, ds)
    ensures Messages.Send(ss[i].table, ds, MaySend(ss[i], ds)).Stored?
  {
    PairAccepted(ss, es, k, i, a, b, ds[0].sender, ds[0].recv);
    assert ChatBetween(ss[i], ds[0].thread, ds[0].sender, ds[0].recv);
    MayWriteExactly(ss, es, i, ds[0]);
    assert [ds[0]][0] == ds[0];
    HeardIfAuthorized(ss, es, i, ds);
  }

  lemma PairAccepted(ss: seq<Db>, es: seq<Event>, k: nat, i: nat, a: int, b: int, x: int, y: int)
    requires AcceptedAt(ss, es, k, i, a, b) && {x, y} == {a, b}
    ensures AcceptedAt(ss, es, k, i, x, y) && x != y
  {
    assert x in {a, b} && y in {a, b} && a in {x, y} && b in {x, y};
    assert (x == a && y == b) || (x == b && y == a);
  }

  lemma HeardIfAuthorized(ss: seq<Db>, es: seq<Event>, i: nat, ds: seq<Messages.Draft>)
    requires DbRun(ss, es) && i < |ss| && Messages.Proper(ds) && MaySend(ss[i], ds)
    requires !Messages.Clashes(ss[i].table, ds)
    ensures Messages.Send(ss[i].table, ds, MaySend(ss[i], ds)).Stored?
  {
    AllPartsRun(ss, es);
    Messages.Reachable(TableStates(ss), TableEvents(ss, es), i);
    Messages.ProperBatches(ds);
    Messages.StoredUnlessClash(ss[i].table, ds);
  }

  // ------------------------------------------------------- who wrote what is stored

  /** A private row between two friends, in the chat of exactly these two. */
  predicate BetweenFriends(contacts: Contacts.Tables, r: Messages.Row) {
    && r.thread >= 0 && Contacts.Edge(r.sender, r.recv) in contacts.friends
    && Contacts.Chat(r.thread, Min(r.sender, r.recv), Max(r.sender, r.recv)) in contacts.chats
  }

  /** The sender of row `r` was entitled to write it when the step from `s` to `s'` stored it. */
  predicate Entitled(s: Db, e: Event, s': Db, r: Messages.Row) {
    match e
    case Send(_) =>
      if r.sender == r.recv then r.thread > 0 && Groups.MaySend(s.groups, r.sender, r.thread)
      else BetweenFriends(s.contacts, r)
    case Contact(c, _) =>
      r.sender != r.recv && c.DoAccept? && Contacts.About(c, r.sender, r.recv) && BetweenFriends(s'.contacts, r)
    case Group(_) => false
  }

  lemma OpeningRow(t: Messages.Table, added: seq<Contacts.Message>, time: string, x: nat)
    requires |t.rows| <= x < |Messages.InsertedAll(t, Lines(added, time)).rows|
    ensures x - |t.rows| < |added|
    ensures var r, m := Messages.InsertedAll(t, Lines(added, time)).rows[x], added[x - |t.rows|];
            r.thread == m.thread && r.sender == m.sender && r.recv == m.receiver
  {
    Messages.InsertedRows(t, Lines(added, time));
  }

  lemma FiledIsEntitled(s: Db, c: Contacts.Event, time: string, s': Db, m: Contacts.Message, r: Messages.Row)
    requires r.thread == m.thread && r.sender == m.sender && r.recv == m.receiver
    requires c.DoAccept? && Contacts.About(c, m.sender, m.receiver) && Contacts.Pair(m.sender, m.receiver)
    requires Contacts.Mutual(s'.contacts, m.sender, m.receiver)
    requires Contacts.Chat(m.thread, Min(m.sender, m.receiver), Max(m.sender, m.receiver)) in s'.contacts.chats
    ensures Entitled(s, Contact(c, time), s', r)
  {
  }

  lemma OpeningIsEntitled(s: Db, c: Contacts.Event, time: string, s': Db, x: nat)
    requires Contacts.ChatInv(s.contacts) && ContactNext(s, c, time, s')
    requires |s.table.rows| <= x < |s'.table.rows|
    ensures Entitled(s, Contact(c, time), s', s'.table.rows[x])
  {
    var added, k := Contacts.Added(s.contacts, c), x - |s.table.rows|;
    OpeningRow(s.table, added, time, x);
    Contacts.OpeningsAreFiled(s.contacts, c, k);
    FiledIsEntitled(s, c, time, s', added[k], s'.table.rows[x]);
  }

  lemma SendIsEntitled(s: Db, ds: seq<Messages.Draft>, s': Db, x: nat)
    requires SendNext(s, ds, s') && |s.table.rows| <= x < |s'.table.rows|
    ensures Entitled(s, Send(ds), s', s'.table.rows[x])
  {
    var k := Messages.NewRows(s.table, ds, x);
  }

  /** A row that a step adds was written by somebody who was entitled to. */
  lemma RowStep(s: Db, e: Event, s': Db, x: nat)
    requires Disjoint(s) && Next(s, e, s') && |s.table.rows| <= x < |s'.table.rows|
    ensures Entitled(s, e, s', s'.table.rows[x])
  {
    match e
    case Contact(c, time) => OpeningIsEntitled(s, c, time, s', x);
    case Send(ds) => SendIsEntitled(s, ds, s', x);
  }

  /**
   Every stored message was written by somebody who was entitled to at that time: a group message by
   a current member of the active group; a private one between friends and in their own chat, sent by
   one of them or opening their friendship.
   */
  lemma EveryRowWasEntitled(ss: seq<Db>, es: seq<Event>, k: nat, x: nat) returns (m: nat)
    requires DbRun(ss, es) && k < |ss| && x < |ss[k].table.rows|
    ensures m < k && |ss[m].table.rows| <= x < |ss[m + 1].table.rows|
    ensures Entitled(ss[m], es[m], ss[m + 1], ss[k].table.rows[x])
  {
    m := Origin((s: Db) => x < |s.table.rows|, ss, k);
    AlwaysDisjoint(ss, es, m);
    assert Next(ss[m], es[m], ss[m + 1]);
    RowStep(ss[m], es[m], ss[m + 1], x);
    AllPartsRun(ss, es);
    Messages.RowsArePermanent(TableStates(ss), TableEvents(ss, es), m + 1, k);
    assert ss[k].table.rows[x] == ss[m + 1].table.rows[x];
  }
}
