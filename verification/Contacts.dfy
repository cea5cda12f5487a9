/**
 Friend applications, friendships and the private chats they open. Each operation is one
 serializable transaction over the contact tables.
 */
module Contacts {
  import opened Common
  import opened Runs
  import Tx = Transactions

  const GREETING := "We are friends now!"

  datatype Application = Application(description: string, remark: string, tags: string, accepted: bool)

  datatype Friend = Friend(remark: string, tags: string)

  datatype Chat = Chat(thread: nat, user1: int, user2: int)

  datatype Message = Message(id: nat, thread: nat, sender: int, receiver: int, content: string)

  /** A directed key of friend_apply and friend. */
  datatype Edge = Edge(from: int, to: int)

  datatype Tables = Tables(
    applications: map<Edge, Application>,
    friends: map<Edge, Friend>,
    chats: seq<Chat>,
    messages: seq<Message>,
    nextThread: nat, nextMessage: nat)     // auto-increment counters

  const EMPTY := Tables(map[], map[], [], [], 1, 1)

  predicate Pair(a: int, b: int) {
    a > 0 && b > 0 && a != b
  }

  function Back(e: Edge): Edge {
    Edge(e.to, e.from)
  }

  /** The two directed keys of a pair are always locked and walked in the same order. */
  function First(a: int, b: int): Edge {
    Edge(Min(a, b), Max(a, b))
  }

  predicate Mutual(t: Tables, a: int, b: int) {
    Edge(a, b) in t.friends && Edge(b, a) in t.friends
  }

  // --------------------------------------------------------- the transactions

  function Apply(t: Tables, from: int, to: int, a: Application): (Tables, bool, bool) {
    if !Pair(from, to) then (t, false, false)
    else if Mutual(t, from, to) then (t, true, false)
    else (t.(applications := t.applications[Edge(from, to) := a.(accepted := false)]), true, true)
  }

  function Approve(m: map<Edge, Application>, e: Edge): map<Edge, Application> {
    if e in m then m[e := m[e].(accepted := true)] else m
  }

  function Authorize(t: Tables, from: int, to: int): (Tables, bool) {
    if !Pair(from, to) || Edge(to, from) !in t.applications then (t, false)
    else (t.(applications := Approve(t.applications, Edge(to, from))), true)
  }

  function Befriend(m: map<Edge, Friend>, e: Edge, f: Friend): map<Edge, Friend> {
    if e in m then m else m[e := f]
  }

  predicate HasChat(chats: seq<Chat>, a: int, b: int) {
    exists c :: c in chats && c.user1 == Min(a, b) && c.user2 == Max(a, b)
  }

  /** The thread of the first row of the pair. */
  function ChatOf(chats: seq<Chat>, a: int, b: int): nat
    requires HasChat(chats, a, b)
  {
    if chats[0].user1 == Min(a, b) && chats[0].user2 == Max(a, b) then chats[0].thread else ChatOf(chats[1..], a, b)
  }

  /** Finds the pair's chat or opens one. */
  function WithChat(t: Tables, a: int, b: int): (Tables, nat) {
    if HasChat(t.chats, a, b) then (t, ChatOf(t.chats, a, b))
    else
      var chat := Chat(t.nextThread, Min(a, b), Max(a, b));
      (t.(chats := t.chats + [chat], nextThread := t.nextThread + 1), t.nextThread)
  }

  function Say(t: Tables, thread: nat, sender: int, receiver: int, content: string): Tables {
    if content == "" then t
    else
      var message := Message(t.nextMessage, thread, sender, receiver, content);
      t.(messages := t.messages + [message], nextMessage := t.nextMessage + 1)
  }

  /** Both directions of the friendship; an existing one keeps its owner's remark and tags. */
  function Linked(friends: map<Edge, Friend>, from: int, to: int, mine: Friend, theirs: Friend): map<Edge, Friend> {
    var e := First(from, to);
    var once := Befriend(friends, e, if e.from == from then mine else theirs);
    Befriend(once, Back(e), if e.to == from then mine else theirs)
  }

  /** The applicant's words, then the greeting of the one who accepted. */
  function Greet(t: Tables, thread: nat, from: int, to: int, words: string): Tables {
    Say(Say(t, thread, to, from, words), thread, from, to, GREETING)
  }

  /** The part of an accept that runs only when the pair is not mutual yet. */
  function Connect(t: Tables, from: int, to: int, mine: Friend, incoming: Application): Tables {
    var linked := t.(friends := Linked(t.friends, from, to, mine, Friend(incoming.remark, incoming.tags)));
    var (u, thread) := WithChat(linked, from, to);
    Greet(u, thread, from, to, incoming.description)
  }

  function Approved(t: Tables, from: int, to: int): Tables {
    var e := First(from, to);
    t.(applications := Approve(Approve(t.applications, e), Back(e)))
  }

  /** AddFriend: `from` accepts the application of `to`. */
  function Accept(t: Tables, from: int, to: int, mine: Friend): (Tables, bool) {
    if !Pair(from, to) then (t, false)
    else if !Mutual(t, from, to) && Edge(to, from) !in t.applications then (t, false)
    else if Mutual(t, from, to) then (Approved(t, from, to), true)
    else (Connect(Approved(t, from, to), from, to, mine, t.applications[Edge(to, from)]), true)
  }

  function Delete(t: Tables, self: int, other: int): (Tables, bool) {
    if !Pair(self, other) then (t, false)
    else
      var e := First(self, other);
      (t.(applications := t.applications - {e, Back(e)}, friends := t.friends - {e, Back(e)}), true)
  }

  function OpenChat(t: Tables, a: int, b: int): (Tables, Option<nat>) {
    if !Pair(a, b) || Edge(a, b) !in t.friends then (t, None)
    else
      var (u, thread) := WithChat(t, a, b);
      (u, Some(thread))
  }

  // -------------------------------------------------------------------- runs

  datatype Event =
    | DoApply(from: int, to: int, application: Application)
    | DoAuthorize(from: int, to: int)
    | DoAccept(from: int, to: int, mine: Friend)
    | DoDelete(from: int, to: int)
    | DoOpenChat(from: int, to: int)
    | Reserve(threads: nat, messages: nat)    // numbers given to groups and other messages meanwhile

  function After(t: Tables, e: Event): Tables {
    match e
    case DoApply(from, to, a) => Apply(t, from, to, a).0
    case DoAuthorize(from, to) => Authorize(t, from, to).0
    case DoAccept(from, to, mine) => Accept(t, from, to, mine).0
    case DoDelete(from, to) => Delete(t, from, to).0
    case DoOpenChat(from, to) => OpenChat(t, from, to).0
    case Reserve(threads, messages) =>
      t.(nextThread := t.nextThread + threads, nextMessage := t.nextMessage + messages)
  }

  ghost predicate Next(t: Tables, e: Event, t': Tables) {
    t' == After(t, e)
  }

  ghost predicate ContactRun(ts: seq<Tables>, es: seq<Event>) {
    IsRun(Next, ts, es) && ts[0] == EMPTY
  }

  /** Whether an event is about the pair of `a` and `b`, in either direction. */
  predicate About(e: Event, a: int, b: int) {
    !e.Reserve? && ((e.from == a && e.to == b) || (e.from == b && e.to == a))
  }

  // ---------------------------------------------------------------- friendship

  ghost predicate Symmetric(t: Tables) {
    forall e :: e in t.friends <==> Back(e) in t.friends
  }

  lemma WithChatFrame(t: Tables, a: int, b: int)
    ensures WithChat(t, a, b).0.friends == t.friends && WithChat(t, a, b).0.applications == t.applications
    ensures WithChat(t, a, b).0.messages == t.messages && WithChat(t, a, b).0.nextMessage == t.nextMessage
  {
  }

  /** Accepting a pair that is not mutual adds exactly its two directions. */
  lemma ConnectFriends(t: Tables, from: int, to: int, mine: Friend, incoming: Application)
    ensures var t' := Connect(t, from, to, mine, incoming);
            && t'.applications == t.applications
            && (forall e :: e in t'.friends <==> e in t.friends || e == Edge(from, to) || e == Edge(to, from))
            && (forall e :: e in t.friends ==> t'.friends[e] == t.friends[e])
  {
    assert Back(First(from, to)) == Edge(Max(from, to), Min(from, to));
  }

  lemma SymmetricStep(t: Tables, e: Event)
    requires Symmetric(t)
    ensures Symmetric(After(t, e))
  {
    if e.DoAccept? && Accept(t, e.from, e.to, e.mine).1 && !Mutual(t, e.from, e.to) {
      ConnectFriends(Approved(t, e.from, e.to), e.from, e.to, e.mine, t.applications[Edge(e.to, e.from)]);
    }
  }

  /** Friendship is symmetric in every reachable state. */
  lemma FriendshipIsMutual(ts: seq<Tables>, es: seq<Event>, i: nat, a: int, b: int)
    requires ContactRun(ts, es) && i < |ts|
    ensures Edge(a, b) in ts[i].friends <==> Edge(b, a) in ts[i].friends
  {
    forall t, e, t' | Symmetric(t) && Next(t, e, t') ensures Symmetric(t') {
      SymmetricStep(t, e);
    }
    Always(Next, Symmetric, ts, es, i);
    assert Back(Edge(a, b)) == Edge(b, a);
  }

  /** A delete that takes effect on the pair. */
  predicate Deletes(e: Event, a: int, b: int) {
    e.DoDelete? && About(e, a, b) && Pair(a, b)
  }

  lemma ApplicationStep(t: Tables, e: Event, x: Edge)
    requires x in After(t, e).applications
    ensures !Deletes(e, x.from, x.to)
    ensures x in t.applications || (e.DoApply? && e.from == x.from && e.to == x.to)
  {
    if e.DoAccept? && Accept(t, e.from, e.to, e.mine).1 && !Mutual(t, e.from, e.to) {
      ConnectFriends(Approved(t, e.from, e.to), e.from, e.to, e.mine, t.applications[Edge(e.to, e.from)]);
    }
  }

  lemma FriendStep(t: Tables, e: Event, x: Edge)
    requires x in After(t, e).friends
    ensures !Deletes(e, x.from, x.to)
    ensures x in t.friends || (e.DoAccept? && About(e, x.from, x.to) && Edge(e.to, e.from) in t.applications)
  {
    if e.DoAccept? && Accept(t, e.from, e.to, e.mine).1 && !Mutual(t, e.from, e.to) {
      ConnectFriends(Approved(t, e.from, e.to), e.from, e.to, e.mine, t.applications[Edge(e.to, e.from)]);
    }
  }

  ghost predicate NoDelete(es: seq<Event>, j: nat, i: nat, a: int, b: int)
    requires i <= |es|
  {
    forall m :: j <= m < i ==> !Deletes(es[m], a, b)
  }

  /** A stored application was made, and no delete came after it. */
  lemma {:induction false} ApplicationOrigin(ts: seq<Tables>, es: seq<Event>, i: nat, x: Edge) returns (j: nat)
    requires ContactRun(ts, es) && i < |ts| && x in ts[i].applications
    ensures j < i && es[j].DoApply? && es[j].from == x.from && es[j].to == x.to
    ensures NoDelete(es, j, i, x.from, x.to)
  {
    assert i > 0;
    assert Next(ts[i - 1], es[i - 1], ts[i]);
    ApplicationStep(ts[i - 1], es[i - 1], x);
    if x in ts[i - 1].applications {
      j := ApplicationOrigin(ts, es, i - 1, x);
    } else {
      j := i - 1;
    }
  }

  /**
   Two accounts are friends only if one applied and then the other accepted, both after the last
   time the pair was deleted.
   */
  lemma {:induction false} FriendsAppliedAndAccepted(ts: seq<Tables>, es: seq<Event>, i: nat, a: int, b: int)
    returns (j: nat, k: nat)
    requires ContactRun(ts, es) && i < |ts| && Edge(a, b) in ts[i].friends
    ensures j < k < i
    ensures es[k].DoAccept? && About(es[k], a, b)
    ensures es[j].DoApply? && es[j].from == es[k].to && es[j].to == es[k].from
    ensures NoDelete(es, j, i, a, b)
  {
    assert i > 0;
    assert Next(ts[i - 1], es[i - 1], ts[i]);
    FriendStep(ts[i - 1], es[i - 1], Edge(a, b));
    if Edge(a, b) in ts[i - 1].friends {
      j, k := FriendsAppliedAndAccepted(ts, es, i - 1, a, b);
    } else {
      k := i - 1;
      j := ApplicationOrigin(ts, es, k, Edge(es[k].to, es[k].from));
    }
  }

  /** The step makes the two accounts friends, or confirms that they are: an accept that succeeds. */
  predicate Befriends(t: Tables, e: Event, a: int, b: int) {
    e.DoAccept? && About(e, a, b) && Accept(t, e.from, e.to, e.mine).1
  }

  lemma BefriendedStep(t: Tables, e: Event, a: int, b: int)
    requires Befriends(t, e, a, b)
    ensures Mutual(After(t, e), a, b) && !Deletes(e, a, b)
  {
    if !Mutual(t, e.from, e.to) {
      ConnectFriends(Approved(t, e.from, e.to), e.from, e.to, e.mine, t.applications[Edge(e.to, e.from)]);
    }
  }

  lemma FriendStays(t: Tables, e: Event, x: Edge)
    requires x in t.friends && !Deletes(e, x.from, x.to)
    ensures x in After(t, e).friends
  {
    if e.DoAccept? && Accept(t, e.from, e.to, e.mine).1 && !Mutual(t, e.from, e.to) {
      ConnectFriends(Approved(t, e.from, e.to), e.from, e.to, e.mine, t.applications[Edge(e.to, e.from)]);
    }
  }

  lemma {:induction false} FriendsUntilDeleted(ts: seq<Tables>, es: seq<Event>, k: nat, i: nat, x: Edge)
    requires ContactRun(ts, es) && k <= i < |ts| && x in ts[k].friends && NoDelete(es, k, i, x.from, x.to)
    ensures x in ts[i].friends
    decreases i
  {
    if k < i {
      FriendsUntilDeleted(ts, es, k, i - 1, x);
      assert Next(ts[i - 1], es[i - 1], ts[i]);
      FriendStays(ts[i - 1], es[i - 1], x);
    }
  }

  /** An accept of the pair succeeded in step `k`, and no delete of the pair came after it. */
  ghost predicate BefriendedAt(ts: seq<Tables>, es: seq<Event>, k: nat, i: nat, a: int, b: int) {
    k < i <= |es| < |ts| && Befriends(ts[k], es[k], a, b) && NoDelete(es, k, i, a, b)
  }

  /** Exactly then two accounts are friends: an accept succeeded, and no delete has come since. */
  lemma FriendsExactly(ts: seq<Tables>, es: seq<Event>, i: nat, a: int, b: int)
    requires ContactRun(ts, es) && i < |ts|
    ensures Edge(a, b) in ts[i].friends <==> exists k: nat :: BefriendedAt(ts, es, k, i, a, b)
  {
    if Edge(a, b) in ts[i].friends {
      var k := WhenBefriended(ts, es, i, a, b);
    }
    if k: nat :| BefriendedAt(ts, es, k, i, a, b) {
      assert Next(ts[k], es[k], ts[k + 1]);
      BefriendedStep(ts[k], es[k], a, b);
      FriendsUntilDeleted(ts, es, k + 1, i, Edge(a, b));
    }
  }

  lemma {:induction false} WhenBefriended(ts: seq<Tables>, es: seq<Event>, i: nat, a: int, b: int) returns (k: nat)
    requires ContactRun(ts, es) && i < |ts| && Edge(a, b) in ts[i].friends
    ensures BefriendedAt(ts, es, k, i, a, b)
  {
    assert i > 0;
    assert Next(ts[i - 1], es[i - 1], ts[i]);
    FriendStep(ts[i - 1], es[i - 1], Edge(a, b));
    if Edge(a, b) in ts[i - 1].friends {
      k := WhenBefriended(ts, es, i - 1, a, b);
    } else {
      k := i - 1;
    }
  }

  // ------------------------------------------------ what each step does, exactly

  /** The same applications; only those of the set are marked as accepted. */
  predicate OnlyMarked(m: map<Edge, Application>, m': map<Edge, Application>, marked: set<Edge>) {
    && m'.Keys == m.Keys
    && forall x :: x in m ==>
         && m'[x].description == m[x].description && m'[x].remark == m[x].remark && m'[x].tags == m[x].tags
         && (m'[x].accepted <==> m[x].accepted || x in marked)
  }

  /** A new application, not accepted yet, replaces an older one of the same direction; its words are as sent. */
  lemma ApplyChanges(t: Tables, from: int, to: int, a: Application)
    ensures var (t', ok, notify) := Apply(t, from, to, a);
            var friends := Edge(from, to) in t.friends && Edge(to, from) in t.friends;
            && (ok <==> from > 0 && to > 0 && from != to)
            && (notify <==> ok && !friends)
            && (!notify ==> t' == t)
            && (notify ==>
                  && t' == t.(applications := t'.applications)
                  && t'.applications.Keys == t.applications.Keys + {Edge(from, to)}
                  && t'.applications[Edge(from, to)] == Application(a.description, a.remark, a.tags, false)
                  && forall x :: x in t.applications && x != Edge(from, to) ==> t'.applications[x] == t.applications[x])
  {
  }

  /** Authorizing marks the incoming application, if there is one. */
  lemma AuthorizeChanges(t: Tables, from: int, to: int)
    ensures var (t', ok) := Authorize(t, from, to);
            && (ok <==> from > 0 && to > 0 && from != to && Edge(to, from) in t.applications)
            && t' == t.(applications := t'.applications)
            && OnlyMarked(t.applications, t'.applications, if ok then {Edge(to, from)} else {})
  {
  }

  /** A delete removes both directions of application and friendship of the pair, and nothing else. */
  lemma DeleteChanges(t: Tables, self: int, other: int)
    ensures var (t', ok) := Delete(t, self, other);
            && (ok <==> self > 0 && other > 0 && self != other)
            && (!ok ==> t' == t)
            && (ok ==>
                  && t' == t.(applications := t'.applications, friends := t'.friends)
                  && t'.applications == t.applications - {Edge(self, other), Edge(other, self)}
                  && t'.friends == t.friends - {Edge(self, other), Edge(other, self)})
  {
  }

  /** Opening a chat takes a friend, finds the chat of the pair, and opens one only if there is none. */
  lemma OpenChatChanges(t: Tables, a: int, b: int)
    ensures var (t', thread) := OpenChat(t, a, b);
            && (thread.Some? <==> a > 0 && b > 0 && a != b && Edge(a, b) in t.friends)
            && (thread.None? || HasChat(t.chats, a, b) ==> t' == t)
            && (thread.Some? ==> Chat(thread.value, Min(a, b), Max(a, b)) in t'.chats)
            && (thread.Some? && !HasChat(t.chats, a, b) ==>
                  t' == t.(chats := t.chats + [Chat(t.nextThread, Min(a, b), Max(a, b))], nextThread := t.nextThread + 1))
  {
    if HasChat(t.chats, a, b) {
      ChatOfIsThere(t.chats, a, b);
    }
  }

  /**
   A successful accept marks both applications of the pair and adds the directions of the friendship
   that are missing; it opens the pair's chat and its messages only for new friends.
   */
  lemma AcceptChanges(t: Tables, from: int, to: int, mine: Friend)
    ensures var (t', ok) := Accept(t, from, to, mine);
            var friends := Edge(from, to) in t.friends && Edge(to, from) in t.friends;
            && (ok <==> from > 0 && to > 0 && from != to && (friends || Edge(to, from) in t.applications))
            && (!ok ==> t' == t)
            && (ok ==>
                  && OnlyMarked(t.applications, t'.applications, {Edge(from, to), Edge(to, from)})
                  && t'.friends.Keys == t.friends.Keys + {Edge(from, to), Edge(to, from)}
                  && forall x :: x in t.friends ==> t'.friends[x] == t.friends[x])
            && (ok && friends ==> t' == t.(applications := t'.applications))
            && (ok && !friends ==>
                  t'.chats == if HasChat(t.chats, from, to) then t.chats
                              else t.chats + [Chat(t.nextThread, Min(from, to), Max(from, to))])
  {
    if Accept(t, from, to, mine).1 {
      ApproveMarks(t.applications, from, to);
      if !Mutual(t, from, to) {
        var a := t.applications[Edge(to, from)];
        ConnectFriends(Approved(t, from, to), from, to, mine, a);
        ConnectChats(Approved(t, from, to), from, to, mine, a);
      }
    }
  }

  lemma ApproveMarks(m: map<Edge, Application>, from: int, to: int)
    ensures OnlyMarked(m, Approve(Approve(m, First(from, to)), Back(First(from, to))), {Edge(from, to), Edge(to, from)})
  {
  }

  lemma ConnectChats(t: Tables, from: int, to: int, mine: Friend, incoming: Application)
    ensures Connect(t, from, to, mine, incoming).chats
         == if HasChat(t.chats, from, to) then t.chats
            else t.chats + [Chat(t.nextThread, Min(from, to), Max(from, to))]
  {
  }

  // ------------------------------------------------------------ friends have a chat

  ghost predicate FriendsHaveChats(t: Tables) {
    forall x :: x in t.friends ==> HasChat(t.chats, x.from, x.to)
  }

  lemma HasChatStays(chats: seq<Chat>, more: seq<Chat>, a: int, b: int)
    requires HasChat(chats, a, b) && chats <= more
    ensures HasChat(more, a, b)
  {
    var c :| c in chats && c.user1 == Min(a, b) && c.user2 == Max(a, b);
    assert c in more;
  }

  lemma ChatsOnlyGrow(t: Tables, e: Event)
    ensures t.chats <= After(t, e).chats
  {
    match e
    case DoAccept(from, to, mine) => AcceptChanges(t, from, to, mine);
    case DoOpenChat(a, b) => OpenChatChanges(t, a, b);
    case _ =>
  }

  lemma FriendsHaveChatsStep(t: Tables, e: Event)
    requires FriendsHaveChats(t)
    ensures FriendsHaveChats(After(t, e))
  {
    var t' := After(t, e);
    ChatsOnlyGrow(t, e);
    forall x | x in t'.friends ensures HasChat(t'.chats, x.from, x.to) {
      FriendStep(t, e, x);
      if x in t.friends {
        HasChatStays(t.chats, t'.chats, x.from, x.to);
      } else {
        AcceptOpensChat(t, e.from, e.to, e.mine);
      }
    }
  }

  lemma AcceptOpensChat(t: Tables, from: int, to: int, mine: Friend)
    requires FriendsHaveChats(t) && Accept(t, from, to, mine).1
    ensures HasChat(Accept(t, from, to, mine).0.chats, from, to) && HasChat(Accept(t, from, to, mine).0.chats, to, from)
  {
    AcceptChanges(t, from, to, mine);
    var chats := Accept(t, from, to, mine).0.chats;
    if !HasChat(t.chats, from, to) {
      assert Edge(from, to) !in t.friends;
      assert chats[|t.chats|] in chats;
    }
  }

  /** Friends always have their chat, from the accept that made them friends on. */
  lemma FriendsHaveTheirChat(ts: seq<Tables>, es: seq<Event>, i: nat, a: int, b: int) returns (c: Chat)
    requires ContactRun(ts, es) && i < |ts| && Edge(a, b) in ts[i].friends
    ensures c in ts[i].chats && c.user1 == Min(a, b) && c.user2 == Max(a, b)
  {
    forall t, e, t' | FriendsHaveChats(t) && Next(t, e, t') ensures FriendsHaveChats(t') {
      FriendsHaveChatsStep(t, e);
    }
    Always(Next, FriendsHaveChats, ts, es, i);
    assert HasChat(ts[i].chats, Edge(a, b).from, Edge(a, b).to);
    c :| c in ts[i].chats && c.user1 == Min(a, b) && c.user2 == Max(a, b);
  }

  // --------------------------------------------------------------- private chats

  /** One chat per unordered pair, one thread per chat. */
  ghost predicate ChatsDistinct(t: Tables) {
    && (forall c :: c in t.chats ==> c.user1 < c.user2 && c.thread < t.nextThread)
    && (forall i, j | 0 <= i < j < |t.chats| ::
          t.chats[i].thread != t.chats[j].thread
          && !(t.chats[i].user1 == t.chats[j].user1 && t.chats[i].user2 == t.chats[j].user2))
  }

  lemma {:induction false} ChatOfIsThere(chats: seq<Chat>, a: int, b: int)
    requires HasChat(chats, a, b)
    ensures Chat(ChatOf(chats, a, b), Min(a, b), Max(a, b)) in chats
  {
    if !(chats[0].user1 == Min(a, b) && chats[0].user2 == Max(a, b)) {
      var c :| c in chats && c.user1 == Min(a, b) && c.user2 == Max(a, b);
      assert c in chats[1..];
      ChatOfIsThere(chats[1..], a, b);
    }
  }

  /** Opening or finding a chat keeps the rows distinct and yields the pair's thread. */
  lemma WithChatDistinct(t: Tables, a: int, b: int)
    requires ChatsDistinct(t) && a != b
    ensures ChatsDistinct(WithChat(t, a, b).0)
    ensures Chat(WithChat(t, a, b).1, Min(a, b), Max(a, b)) in WithChat(t, a, b).0.chats
    ensures t.chats <= WithChat(t, a, b).0.chats
  {
    if HasChat(t.chats, a, b) {
      ChatOfIsThere(t.chats, a, b);
    } else {
      assert forall i :: 0 <= i < |t.chats| ==> t.chats[i] in t.chats;
    }
  }

  // ------------------------------------------------------------------- greetings

  /** A message without its ids. */
  datatype Line = Line(sender: int, receiver: int, content: string)

  predicate Among(m: Message, a: int, b: int) {
    (m.sender == a && m.receiver == b) || (m.sender == b && m.receiver == a)
  }

  /** What was said between two accounts, in order. */
  function Spoken(ms: seq<Message>, a: int, b: int): seq<Line> {
    if ms == [] then []
    else
      var m := ms[|ms| - 1];
      Spoken(ms[..|ms| - 1], a, b) + (if Among(m, a, b) then [Line(m.sender, m.receiver, m.content)] else [])
  }

  lemma SpokenSnoc(ms: seq<Message>, m: Message, a: int, b: int)
    ensures Spoken(ms + [m], a, b)
         == Spoken(ms, a, b) + (if Among(m, a, b) then [Line(m.sender, m.receiver, m.content)] else [])
  {
    assert (ms + [m])[..|ms|] == ms;
  }

  function Lines(sender: int, receiver: int, content: string): seq<Line> {
    if content == "" then [] else [Line(sender, receiver, content)]
  }

  /** The lines of one sender and receiver, if they are the pair. */
  function LinesFor(sender: int, receiver: int, content: string, a: int, b: int): seq<Line> {
    if Among(Message(0, 0, sender, receiver, ""), a, b) then Lines(sender, receiver, content) else []
  }

  lemma SayLines(t: Tables, thread: nat, sender: int, receiver: int, content: string, a: int, b: int)
    ensures Spoken(Say(t, thread, sender, receiver, content).messages, a, b)
         == Spoken(t.messages, a, b) + LinesFor(sender, receiver, content, a, b)
  {
    if content == "" {
      assert Spoken(t.messages, a, b) + [] == Spoken(t.messages, a, b);
    } else {
      SpokenSnoc(t.messages, Message(t.nextMessage, thread, sender, receiver, content), a, b);
    }
  }

  /** The opening lines a step owes the pair: only when it turns the two accounts into friends. */
  function Owed(t: Tables, e: Event, a: int, b: int): seq<Line> {
    if e.DoAccept? && About(e, a, b) && !Mutual(t, a, b) && Mutual(After(t, e), a, b)
       && Edge(e.to, e.from) in t.applications
    then Lines(e.to, e.from, t.applications[Edge(e.to, e.from)].description) + [Line(e.from, e.to, GREETING)]
    else []
  }

  lemma GreetLines(t: Tables, thread: nat, from: int, to: int, words: string, a: int, b: int)
    ensures Spoken(Greet(t, thread, from, to, words).messages, a, b)
         == Spoken(t.messages, a, b)
            + (if Among(Message(0, 0, from, to, ""), a, b)
               then Lines(to, from, words) + [Line(from, to, GREETING)] else [])
  {
    var before := Spoken(t.messages, a, b);
    var said, greeted := LinesFor(to, from, words, a, b), LinesFor(from, to, GREETING, a, b);
    SayLines(t, thread, to, from, words, a, b);
    SayLines(Say(t, thread, to, from, words), thread, from, to, GREETING, a, b);
    assert before + said + greeted == before + (said + greeted);
  }

  lemma ConnectLines(t: Tables, from: int, to: int, mine: Friend, incoming: Application, a: int, b: int)
    ensures Spoken(Connect(t, from, to, mine, incoming).messages, a, b)
         == Spoken(t.messages, a, b)
            + (if Among(Message(0, 0, from, to, ""), a, b)
               then Lines(to, from, incoming.description) + [Line(from, to, GREETING)] else [])
  {
    var linked := t.(friends := Linked(t.friends, from, to, mine, Friend(incoming.remark, incoming.tags)));
    WithChatFrame(linked, from, to);
    GreetLines(WithChat(linked, from, to).0, WithChat(linked, from, to).1, from, to, incoming.description, a, b);
  }

  /** A step owes the pair its opening lines exactly if it is the accept that makes them friends. */
  lemma NewFriendsOwe(t: Tables, from: int, to: int, mine: Friend, a: int, b: int)
    requires Accept(t, from, to, mine).1 && !Mutual(t, from, to)
    ensures Owed(t, DoAccept(from, to, mine), a, b)
         == if Among(Message(0, 0, from, to, ""), a, b)
            then Lines(to, from, t.applications[Edge(to, from)].description) + [Line(from, to, GREETING)] else []
  {
    ConnectFriends(Approved(t, from, to), from, to, mine, t.applications[Edge(to, from)]);
  }

  lemma AcceptLines(t: Tables, from: int, to: int, mine: Friend, a: int, b: int)
    ensures Spoken(Accept(t, from, to, mine).0.messages, a, b)
         == Spoken(t.messages, a, b) + Owed(t, DoAccept(from, to, mine), a, b)
  {
    if Accept(t, from, to, mine).1 && !Mutual(t, from, to) {
      NewFriendsOwe(t, from, to, mine, a, b);
      ConnectLines(Approved(t, from, to), from, to, mine, t.applications[Edge(to, from)], a, b);
    } else {
      assert Accept(t, from, to, mine).0.messages == t.messages;
      assert Accept(t, from, to, mine).0.friends == t.friends;
    }
  }

  lemma StepLines(t: Tables, e: Event, t': Tables, a: int, b: int)
    requires Next(t, e, t')
    ensures Spoken(t'.messages, a, b) == Spoken(t.messages, a, b) + Owed(t, e, a, b)
  {
    if e.DoAccept? {
      AcceptLines(t, e.from, e.to, e.mine, a, b);
    }
  }

  function OwedSoFar(ts: seq<Tables>, es: seq<Event>, i: nat, a: int, b: int): seq<Line>
    requires i <= |es| <= |ts|
  {
    if i == 0 then [] else OwedSoFar(ts, es, i - 1, a, b) + Owed(ts[i - 1], es[i - 1], a, b)
  }

  /**
   The opening messages of a pair, over a whole run: exactly one greeting, after the applicant's
   words if there are any, for each time the two became friends, and nothing on a repeated accept.
   */
  lemma {:induction false} GreetedOncePerFriendship(ts: seq<Tables>, es: seq<Event>, i: nat, a: int, b: int)
    requires ContactRun(ts, es) && i < |ts|
    ensures Spoken(ts[i].messages, a, b) == OwedSoFar(ts, es, i, a, b)
  {
    if i > 0 {
      GreetedOncePerFriendship(ts, es, i - 1, a, b);
      LinesAt(ts, es, i - 1, a, b);
    }
  }

  lemma LinesAt(ts: seq<Tables>, es: seq<Event>, i: nat, a: int, b: int)
    requires ContactRun(ts, es) && i < |es|
    ensures Spoken(ts[i + 1].messages, a, b) == Spoken(ts[i].messages, a, b) + Owed(ts[i], es[i], a, b)
  {
    StepLines(ts[i], es[i], ts[i + 1], a, b);
  }

  lemma LinkedRemarks(friends: map<Edge, Friend>, from: int, to: int, mine: Friend, theirs: Friend)
    requires from != to && Edge(from, to) !in friends && Edge(to, from) !in friends
    ensures var m := Linked(friends, from, to, mine, theirs);
            && Edge(from, to) in m && m[Edge(from, to)] == mine
            && Edge(to, from) in m && m[Edge(to, from)] == theirs
  {
  }

  /**
   Accepting works exactly for a pair that is friends already or has an application in the
   accepter's direction. New friends see each other under the remark each of them chose.
   */
  lemma NewFriendsKeepTheirRemarks(ts: seq<Tables>, es: seq<Event>, i: nat, from: int, to: int, mine: Friend)
    requires ContactRun(ts, es) && i < |ts|
    ensures Accept(ts[i], from, to, mine).1 <==>
            Pair(from, to) && (Mutual(ts[i], from, to) || Edge(to, from) in ts[i].applications)
    ensures Accept(ts[i], from, to, mine).1 && !Mutual(ts[i], from, to) ==>
              var t, a := Accept(ts[i], from, to, mine).0, ts[i].applications[Edge(to, from)];
              && Mutual(t, from, to)
              && t.friends[Edge(from, to)] == mine && t.friends[Edge(to, from)] == Friend(a.remark, a.tags)
  {
    FriendshipIsMutual(ts, es, i, from, to);
    if Accept(ts[i], from, to, mine).1 && !Mutual(ts[i], from, to) {
      var a := ts[i].applications[Edge(to, from)];
      LinkedRemarks(ts[i].friends, from, to, mine, Friend(a.remark, a.tags));
      assert Connect(Approved(ts[i], from, to), from, to, mine, a).friends
          == Linked(ts[i].friends, from, to, mine, Friend(a.remark, a.tags));
    }
  }

  // ------------------------------------------------------- messages stay in their chat

  /** Every message lies in the chat of its two accounts, and ids only grow. */
  ghost predicate Filed(t: Tables) {
    && (forall m :: m in t.messages ==> Chat(m.thread, Min(m.sender, m.receiver), Max(m.sender, m.receiver)) in t.chats)
    && (forall m :: m in t.messages ==> m.id < t.nextMessage)
    && (forall i, j | 0 <= i < j < |t.messages| :: t.messages[i].id < t.messages[j].id)
  }

  ghost predicate ChatInv(t: Tables) {
    ChatsDistinct(t) && Filed(t)
  }

  lemma SayFiled(t: Tables, thread: nat, sender: int, receiver: int, content: string)
    requires Filed(t) && Chat(thread, Min(sender, receiver), Max(sender, receiver)) in t.chats
    ensures Filed(Say(t, thread, sender, receiver, content))
    ensures Say(t, thread, sender, receiver, content).chats == t.chats
    ensures Say(t, thread, sender, receiver, content).nextThread == t.nextThread
  {
    assert forall i :: 0 <= i < |t.messages| ==> t.messages[i] in t.messages;
  }

  lemma WithChatInv(t: Tables, a: int, b: int)
    requires ChatInv(t) && a != b
    ensures ChatInv(WithChat(t, a, b).0)
  {
    WithChatDistinct(t, a, b);
    WithChatFrame(t, a, b);
  }

  lemma ConnectInv(t: Tables, from: int, to: int, mine: Friend, incoming: Application)
    requires ChatInv(t) && from != to
    ensures ChatInv(Connect(t, from, to, mine, incoming))
  {
    var linked := t.(friends := Linked(t.friends, from, to, mine, Friend(incoming.remark, incoming.tags)));
    var (u, thread) := WithChat(linked, from, to);
    WithChatInv(linked, from, to);
    WithChatDistinct(linked, from, to);
    SayFiled(u, thread, to, from, incoming.description);
    SayFiled(Say(u, thread, to, from, incoming.description), thread, from, to, GREETING);
  }

  lemma ChatInvStep(t: Tables, e: Event)
    requires ChatInv(t)
    ensures ChatInv(After(t, e))
  {
    if e.DoAccept? && Accept(t, e.from, e.to, e.mine).1 && !Mutual(t, e.from, e.to) {
      ConnectInv(Approved(t, e.from, e.to), e.from, e.to, e.mine, t.applications[Edge(e.to, e.from)]);
    } else if e.DoOpenChat? && Pair(e.from, e.to) {
      WithChatInv(t, e.from, e.to);
    }
  }

  /**
   In every reachable state two chats of the same two accounts are the same chat, whichever
   operations opened them, and every opening message lies in the chat of its accounts.
   */
  lemma OneChatPerPair(ts: seq<Tables>, es: seq<Event>, i: nat, c: Chat, d: Chat)
    requires ContactRun(ts, es) && i < |ts| && c in ts[i].chats && d in ts[i].chats
    ensures c == d <==> c.user1 == d.user1 && c.user2 == d.user2
    ensures c == d <==> c.thread == d.thread
    ensures Filed(ts[i])
  {
    forall t, e, t' | ChatInv(t) && Next(t, e, t') ensures ChatInv(t') {
      ChatInvStep(t, e);
    }
    Always(Next, ChatInv, ts, es, i);
    var x :| 0 <= x < |ts[i].chats| && ts[i].chats[x] == c;
    var y :| 0 <= y < |ts[i].chats| && ts[i].chats[y] == d;
  }

  /** A new chat is the next thread, and threads are only ever used up. */
  lemma NewThreads(t: Tables, e: Event)
    ensures After(t, e).nextThread >= t.nextThread
    ensures forall c :: c in After(t, e).chats ==> c in t.chats || (!e.Reserve? && c.thread == t.nextThread)
  {
  }

  /** What a step adds to the messages. */
  function Added(t: Tables, e: Event): seq<Message> {
    var after := After(t, e).messages;
    if |t.messages| <= |after| then after[|t.messages|..] else []
  }

  lemma GreetAdds(t: Tables, thread: nat, from: int, to: int, words: string)
    ensures var u := Greet(t, thread, from, to, words);
            && t.messages <= u.messages && |u.messages| - |t.messages| <= 2
            && u.nextMessage == t.nextMessage + |u.messages| - |t.messages|
            && forall k :: |t.messages| <= k < |u.messages| ==>
                 && u.messages[k].thread == thread && u.messages[k].id == t.nextMessage + k - |t.messages|
                 && Among(u.messages[k], from, to)
  {
  }

  /** A message of a new friendship: numbered `id`, between the two who have just become friends. */
  predicate Opening(t: Tables, e: Event, m: Message, id: nat) {
    && m.id == id && e.DoAccept? && About(e, m.sender, m.receiver)
    && Pair(m.sender, m.receiver) && Mutual(After(t, e), m.sender, m.receiver)
  }

  lemma AcceptAdds(t: Tables, e: Event, k: nat)
    requires e.DoAccept? && Accept(t, e.from, e.to, e.mine).1 && !Mutual(t, e.from, e.to)
    ensures var u := After(t, e);
            && t.messages <= u.messages && u.nextMessage == t.nextMessage + |u.messages| - |t.messages|
            && (|t.messages| <= k < |u.messages| ==> Opening(t, e, u.messages[k], t.nextMessage + k - |t.messages|))
  {
    var u, a := Approved(t, e.from, e.to), t.applications[Edge(e.to, e.from)];
    var linked := u.(friends := Linked(u.friends, e.from, e.to, e.mine, Friend(a.remark, a.tags)));
    WithChatFrame(linked, e.from, e.to);
    GreetAdds(WithChat(linked, e.from, e.to).0, WithChat(linked, e.from, e.to).1, e.from, e.to, a.description);
    ConnectFriends(u, e.from, e.to, e.mine, a);
  }

  /** Messages appear only with a new friendship, numbered on, between the two new friends. */
  lemma NewMessages(t: Tables, e: Event)
    ensures t.messages <= After(t, e).messages
    ensures !e.Reserve? ==> After(t, e).nextMessage == t.nextMessage + |Added(t, e)|
    ensures forall k :: 0 <= k < |Added(t, e)| ==> Opening(t, e, Added(t, e)[k], t.nextMessage + k)
  {
    if e.DoAccept? && Accept(t, e.from, e.to, e.mine).1 && !Mutual(t, e.from, e.to) {
      AcceptAdds(t, e, 0);
      forall k | 0 <= k < |Added(t, e)| ensures Opening(t, e, Added(t, e)[k], t.nextMessage + k) {
        AcceptAdds(t, e, |t.messages| + k);
      }
    } else {
      assert After(t, e).messages == t.messages;
    }
  }

  /** Each of them lies in the chat of these two. */
  lemma OpeningsAreFiled(t: Tables, e: Event, k: nat)
    requires ChatInv(t) && k < |Added(t, e)|
    ensures var m := Added(t, e)[k];
            && Opening(t, e, m, t.nextMessage + k)
            && Chat(m.thread, Min(m.sender, m.receiver), Max(m.sender, m.receiver)) in After(t, e).chats
  {
    NewMessages(t, e);
    ChatInvStep(t, e);
    assert Added(t, e)[k] in After(t, e).messages;
  }

  // ------------------------------------------------------- the transaction bodies

  /** The tables as the statements of one transaction change them. */
  class Dao {
    var applications: map<Edge, Application>
    var friends: map<Edge, Friend>
    var chats: seq<Chat>
    var messages: seq<Message>
    var nextThread: nat
    var nextMessage: nat

    ghost function Abs(): Tables
      reads this
    {
      Tables(applications, friends, chats, messages, nextThread, nextMessage)
    }

    constructor ()
      ensures Abs() == EMPTY
    {
      applications, friends, chats, messages, nextThread, nextMessage := map[], map[], [], [], 1, 1;
    }

    /** AddFriendApply; `notify` tells the caller to inform the other side. */
    method AddFriendApply(from: int, to: int, a: Application) returns (ok: bool, notify: bool)
      modifies this`applications
      ensures (Abs(), ok, notify) == Apply(old(Abs()), from, to, a)
    {
      if !(from > 0 && to > 0 && from != to) {
        return false, false;
      }
      var first, second := Min(from, to), Max(from, to);
      if Edge(first, second) in friends && Edge(second, first) in friends {
        return true, false;
      }
      applications := applications[Edge(from, to) := a.(accepted := false)];
      return true, true;
    }

    method AuthFriendApply(from: int, to: int) returns (ok: bool)
      modifies this`applications
      ensures (Abs(), ok) == Authorize(old(Abs()), from, to)
    {
      if !(from > 0 && to > 0 && from != to) || Edge(to, from) !in applications {
        return false;
      }
      applications := applications[Edge(to, from) := applications[Edge(to, from)].(accepted := true)];
      return true;
    }

    method ApproveBoth(first: int, second: int)
      modifies this`applications
      ensures applications == Approve(Approve(old(applications), Edge(first, second)), Edge(second, first))
    {
      ghost var was := applications;
      for index := 0 to 2
        invariant applications == if index == 0 then was else if index == 1 then Approve(was, Edge(first, second))
                                  else Approve(Approve(was, Edge(first, second)), Edge(second, first))
      {
        var e := if index == 0 then Edge(first, second) else Edge(second, first);
        if e in applications {
          applications := applications[e := applications[e].(accepted := true)];
        }
      }
    }

    method InsertFriends(first: int, second: int, from: int, mine: Friend, theirs: Friend)
      modifies this`friends
      ensures friends == Befriend(Befriend(old(friends), Edge(first, second), if first == from then mine else theirs),
                                  Edge(second, first), if second == from then mine else theirs)
    {
      ghost var was := friends;
      for index := 0 to 2
        invariant var once := Befriend(was, Edge(first, second), if first == from then mine else theirs);
                  friends == if index == 0 then was else if index == 1 then once
                             else Befriend(once, Edge(second, first), if second == from then mine else theirs)
      {
        var e := if index == 0 then Edge(first, second) else Edge(second, first);
        if e !in friends {
          friends := friends[e := if e.from == from then mine else theirs];
        }
      }
    }

    /** The row lookup of a pair. */
    method FindChat(a: int, b: int) returns (thread: Option<nat>)
      ensures thread.Some? <==> HasChat(chats, a, b)
      ensures thread.Some? ==> thread.value == ChatOf(chats, a, b)
    {
      var i := 0;
      while i < |chats|
        invariant 0 <= i <= |chats|
        invariant HasChat(chats, a, b) <==> HasChat(chats[i..], a, b)
        invariant HasChat(chats, a, b) ==> ChatOf(chats, a, b) == ChatOf(chats[i..], a, b)
      {
        assert chats[i] in chats && chats[i..][0] == chats[i] && chats[i..][1..] == chats[i + 1..];
        if chats[i].user1 == Min(a, b) && chats[i].user2 == Max(a, b) {
          assert chats[i] in chats[i..];
          return Some(chats[i].thread);
        }
        assert forall c :: c in chats[i..] && c != chats[i] ==> c in chats[i + 1..];
        i := i + 1;
      }
      return None;
    }

    method EnsureChat(a: int, b: int) returns (thread: nat)
      modifies this`chats, this`nextThread
      ensures (Abs(), thread) == WithChat(old(Abs()), a, b)
    {
      var found := FindChat(a, b);
      if found.Some? {
        return found.value;
      }
      thread := nextThread;
      nextThread := nextThread + 1;
      chats := chats + [Chat(thread, Min(a, b), Max(a, b))];
    }

    method AddInitialMessage(thread: nat, sender: int, receiver: int, content: string) returns (added: seq<Message>)
      modifies this`messages, this`nextMessage
      ensures Abs() == Say(old(Abs()), thread, sender, receiver, content)
      ensures messages == old(messages) + added && |added| <= 1
    {
      if content == "" {
        return [];
      }
      added := [Message(nextMessage, thread, sender, receiver, content)];
      messages := messages + added;
      nextMessage := nextMessage + 1;
    }

    method AddOpening(thread: nat, from: int, to: int, words: string) returns (added: seq<Message>)
      modifies this`messages, this`nextMessage
      ensures Abs() == Greet(old(Abs()), thread, from, to, words)
      ensures messages == old(messages) + added && added != []
    {
      var said := AddInitialMessage(thread, to, from, words);
      var greeting := AddInitialMessage(thread, from, to, GREETING);
      added := said + greeting;
    }

    /** AddFriend; `initial` are the messages shown to the two accounts. */
    method AddFriend(from: int, to: int, mine: Friend) returns (ok: bool, initial: seq<Message>)
      modifies this
      ensures (Abs(), ok) == Accept(old(Abs()), from, to, mine)
      ensures messages == old(messages) + initial
      ensures initial != [] <==> ok && !Mutual(old(Abs()), from, to)
    {
      if !(from > 0 && to > 0 && from != to) {
        return false, [];
      }
      var first, second := Min(from, to), Max(from, to);
      var already := Edge(first, second) in friends && Edge(second, first) in friends;
      if !already && Edge(to, from) !in applications {
        return false, [];
      }
      var incoming := if Edge(to, from) in applications
                      then applications[Edge(to, from)] else Application("", "", "[]", false);
      ApproveBoth(first, second);
      assert Abs() == Approved(old(Abs()), from, to);
      if already {
        return true, [];
      }
      ghost var t := Abs();
      InsertFriends(first, second, from, mine, Friend(incoming.remark, incoming.tags));
      assert Abs() == t.(friends := Linked(t.friends, from, to, mine, Friend(incoming.remark, incoming.tags)));
      var thread := EnsureChat(from, to);
      initial := AddOpening(thread, from, to, incoming.description);
      assert Abs() == Connect(t, from, to, mine, incoming);
      ok := true;
    }

    method DeleteFriend(self: int, other: int) returns (ok: bool)
      modifies this`applications, this`friends
      ensures (Abs(), ok) == Delete(old(Abs()), self, other)
    {
      if !(self > 0 && other > 0 && self != other) {
        return false;
      }
      var first, second := Min(self, other), Max(self, other);
      applications := applications - {Edge(first, second)} - {Edge(second, first)};
      friends := friends - {Edge(first, second)} - {Edge(second, first)};
      assert applications == old(applications) - {Edge(first, second), Edge(second, first)};
      assert friends == old(friends) - {Edge(first, second), Edge(second, first)};
      return true;
    }

    method CreatePrivateChat(a: int, b: int) returns (thread: Option<nat>)
      modifies this`chats, this`nextThread
      ensures (Abs(), thread) == OpenChat(old(Abs()), a, b)
    {
      if !(a > 0 && b > 0 && a != b) || Edge(a, b) !in friends {
        return None;
      }
      var id := EnsureChat(a, b);
      return Some(id);
    }
  }

  predicate Permits(t: Tables, e: Event) {
    match e
    case DoApply(from, to, a) => Apply(t, from, to, a).1
    case DoAuthorize(from, to) => Authorize(t, from, to).1
    case DoAccept(from, to, mine) => Accept(t, from, to, mine).1
    case DoDelete(from, to) => Delete(t, from, to).1
    case DoOpenChat(from, to) => OpenChat(t, from, to).1.Some?
    case Reserve(_, _) => true
  }

  /**
   A contact operation under the retry loop is one step of the state machine, or none: the data
   it leaves is what the last attempt found, or that with the whole operation applied once.
   */
  method Perform(db: Tx.Connection<Tables>, e: Event, attempts: nat -> Tx.Attempt<Tables>) returns (ok: bool, used: nat)
    requires db.Reusable() && !db.closed && db.committed == attempts(0).start
    requires forall k: nat :: attempts(k).body.Decided? ==>
               attempts(k).body == Tx.Decided(After(attempts(k).start, e), Permits(attempts(k).start, e))
    modifies db
    ensures db.Reusable() && 1 <= used <= Tx.MAX_ATTEMPTS
    ensures ok ==> Permits(attempts(used - 1).start, e) && db.commits == old(db.commits) + 1
    ensures db.commits == old(db.commits) + 1 ==> Next(attempts(used - 1).start, e, db.committed)
    ensures db.commits != old(db.commits) + 1 ==>
              db.commits == old(db.commits) && db.committed == attempts(used - 1).start
  {
    ok, used := db.Run(attempts);
  }
}
