/**
 Group chats: creation with an idempotency key, membership and ownership changes, disbanding, and
 who may send to a group. Each request is one serializable transaction.
 */
module Groups {
  import opened Common
  import opened Runs
  import Contacts

  const MAX_MEMBERS: nat := 32
  const MAX_TEXT: nat := 64

  /** The creation request as it is stored for later comparison: the name and the sorted members. */
  datatype Spec = Spec(name: string, ids: set<int>)

  datatype Group = Group(name: string, owner: int, creator: int, key: string, spec: Spec, active: bool)

  /** `members` holds the rows of group_chat_member, by thread. */
  datatype Tables = Tables(groups: map<nat, Group>, members: map<nat, set<int>>, nextThread: nat)

  const EMPTY := Tables(map[], map[], 1)

  datatype Op =
    | Rename(name: string)
    | Add(target: int)
    | Remove(target: int)
    | Leave
    | Transfer(target: int)
    | Disband

  /** `contacts` are the contact tables as the transaction finds them. */
  datatype Request =
    | Create(uid: int, known: bool, name: string, invited: seq<int>, key: string, contacts: Contacts.Tables)
    | Change(uid: int, thread: int, op: Op, contacts: Contacts.Tables)
    | Reserve(threads: nat)              // threads given to private chats meanwhile

  datatype Code = Success | ErrorJson | UidInvalid | Forbidden | FriendNotFound | OwnerMustTransfer | Full

  // ------------------------------------------------------------ specification

  /** Some visible byte and no control byte. */
  predicate NameValid(name: string) {
    && 0 < |name| <= MAX_TEXT
    && (exists i :: 0 <= i < |name| && name[i] > 32 as char)
    && (forall i :: 0 <= i < |name| ==> name[i] >= 32 as char && name[i] != 127 as char)
  }

  predicate KeyValid(key: string) {
    0 < |key| <= MAX_TEXT &&
    forall i :: 0 <= i < |key| ==>
      'a' <= key[i] <= 'z' || 'A' <= key[i] <= 'Z' || '0' <= key[i] <= '9' || key[i] == '-'
  }

  function Invited(uid: int, invited: seq<int>): set<int> {
    {uid} + set i | 0 <= i < |invited| :: invited[i]
  }

  predicate Friend(contacts: Contacts.Tables, uid: int, other: int) {
    Contacts.Edge(uid, other) in contacts.friends
  }

  predicate AllFriends(contacts: Contacts.Tables, uid: int, ids: set<int>) {
    forall id :: id in ids && id != uid ==> Friend(contacts, uid, id)
  }

  function Members(t: Tables, thread: nat): set<int> {
    if thread in t.members then t.members[thread] else {}
  }

  predicate Wellformed(r: Request)
    requires r.Create?
  {
    && NameValid(r.name) && 0 < |r.invited| < MAX_MEMBERS && KeyValid(r.key)
    && (forall i :: 0 <= i < |r.invited| ==> r.invited[i] > 0)
    && 2 <= |Invited(r.uid, r.invited)| <= MAX_MEMBERS
  }

  predicate CreatedBy(t: Tables, thread: nat, uid: int, key: string) {
    thread in t.groups && t.groups[thread].creator == uid && t.groups[thread].key == key
  }

  ghost predicate Exists(t: Tables, uid: int, key: string) {
    exists thread :: CreatedBy(t, thread, uid, key)
  }

  function Founded(t: Tables, r: Request): Tables
    requires r.Create?
  {
    var ids := Invited(r.uid, r.invited);
    t.(groups := t.groups[t.nextThread := Group(r.name, r.uid, r.uid, r.key, Spec(r.name, ids), true)],
       members := t.members[t.nextThread := ids],
       nextThread := t.nextThread + 1)
  }

  /** A retry of a known creation, `thread` being the group it made. */
  function RetryCode(t: Tables, r: Request, thread: nat): Code
    requires r.Create? && thread in t.groups
  {
    if t.groups[thread].spec != Spec(r.name, Invited(r.uid, r.invited)) then ErrorJson
    else if !t.groups[thread].active || r.uid !in Members(t, thread) then Forbidden
    else Success
  }

  /** What a creation does: it founds a group, or repeats an earlier answer, or refuses. No thread is 0. */
  ghost predicate Creates(t: Tables, r: Request, t': Tables, code: Code, thread: nat)
    requires r.Create?
  {
    if !Wellformed(r) then t' == t && code == ErrorJson && thread == 0
    else if !r.known then t' == t && code == UidInvalid && thread == 0
    else if Exists(t, r.uid, r.key) then t' == t && Repeats(t, r, code, thread)
    else if !AllFriends(r.contacts, r.uid, Invited(r.uid, r.invited)) then
      t' == t && code == FriendNotFound && thread == 0
    else t' == Founded(t, r) && code == Success && thread == t.nextThread
  }

  /** A retry names the group its key made, unless the request is another one. */
  ghost predicate Repeats(t: Tables, r: Request, code: Code, thread: nat)
    requires r.Create?
  {
    exists first: nat :: CreatedBy(t, first, r.uid, r.key) && code == RetryCode(t, r, first)
                    && thread == if code == ErrorJson then 0 else first
  }

  /** The rows of one group after a change. */
  datatype Edit = Edit(group: Group, members: set<int>, code: Code)

  /** A change of an active group, asked by a member who is allowed to. */
  function Edited(g: Group, members: set<int>, uid: int, op: Op, contacts: Contacts.Tables): Edit {
    match op
    case Rename(name) =>
      if !NameValid(name) then Edit(g, members, ErrorJson) else Edit(g.(name := name), members, Success)
    case Disband => Edit(g.(active := false), {}, Success)
    case Leave => Edit(g, members - {uid}, Success)
    case Add(target) =>
      if target <= 0 || target == g.owner then Edit(g, members, ErrorJson)
      else if !Friend(contacts, uid, target) then Edit(g, members, FriendNotFound)
      else if target in members then Edit(g, members, Success)
      else if |members| >= MAX_MEMBERS then Edit(g, members, Full)
      else Edit(g, members + {target}, Success)
    case Transfer(target) =>
      if target <= 0 || target == g.owner then Edit(g, members, ErrorJson)
      else if target !in members then Edit(g, members, Forbidden)
      else Edit(g.(owner := target), members, Success)
    case Remove(target) =>
      if target <= 0 || target == g.owner then Edit(g, members, ErrorJson) else Edit(g, members - {target}, Success)
  }

  function Put(t: Tables, thread: nat, e: Edit): Tables {
    t.(groups := t.groups[thread := e.group], members := t.members[thread := e.members])
  }

  function Applied(t: Tables, thread: nat, uid: int, op: Op, contacts: Contacts.Tables): (Tables, Code)
    requires thread in t.groups
  {
    var e := Edited(t.groups[thread], Members(t, thread), uid, op, contacts);
    (Put(t, thread, e), e.code)
  }

  function Changed(t: Tables, uid: int, thread: int, op: Op, contacts: Contacts.Tables): (Tables, Code) {
    if thread <= 0 then (t, ErrorJson)
    else if thread !in t.groups || !t.groups[thread].active || uid !in Members(t, thread) then (t, Forbidden)
    else if !op.Leave? && uid != t.groups[thread].owner then (t, Forbidden)
    else if op.Leave? && uid == t.groups[thread].owner then (t, OwnerMustTransfer)
    else Applied(t, thread, uid, op, contacts)
  }

  /** AddChatMsg lets a group message through. */
  predicate MaySend(t: Tables, uid: int, thread: nat) {
    thread in t.groups && t.groups[thread].active && uid in Members(t, thread)
  }

  // ----------------------------------------------------------------- invariant

  predicate Sane(g: Group, members: set<int>) {
    if g.active then g.owner in members && 1 <= |members| <= MAX_MEMBERS else members == {}
  }

  ghost predicate Inv(t: Tables) {
    && (forall x :: x in t.groups ==> x < t.nextThread && Sane(t.groups[x], Members(t, x)))
    && (forall x :: x in t.members ==> x in t.groups)
    && (forall x, y, uid, key :: CreatedBy(t, x, uid, key) && CreatedBy(t, y, uid, key) ==> x == y)
  }

  ghost predicate Next(t: Tables, r: Request, t': Tables) {
    match r
    case Create(_, _, _, _, _, _) => exists code, thread :: Creates(t, r, t', code, thread)
    case Change(uid, thread, op, contacts) => t' == Changed(t, uid, thread, op, contacts).0
    case Reserve(threads) => t' == t.(nextThread := t.nextThread + threads)
  }

  lemma FoundingKeepsInv(t: Tables, r: Request)
    requires Inv(t) && r.Create? && Wellformed(r) && !Exists(t, r.uid, r.key)
    ensures Inv(Founded(t, r))
  {
    var t' := Founded(t, r);
    assert CreatedBy(t', t.nextThread, r.uid, r.key);
    forall x, uid, key | x != t.nextThread && CreatedBy(t', x, uid, key) ensures CreatedBy(t, x, uid, key) {
    }
  }

  lemma Sizes(members: set<int>, owner: int, x: int)
    requires owner in members && owner != x
    ensures 1 <= |members - {x}| <= |members|
    ensures x !in members ==> |members + {x}| == |members| + 1
  {
    assert owner in members - {x};
  }

  /** The members after a change: as before, gone, or one account more or less that is not the owner. */
  ghost predicate SmallEdit(g: Group, members: set<int>, e: Edit) {
    || (e.members == members && e.group.active && (e.group.owner == g.owner || e.group.owner in members))
    || (e.members == {} && !e.group.active)
    || (e.group == g && exists x :: x != g.owner && OneOff(members, e.members, x))
  }

  predicate OneOff(members: set<int>, members': set<int>, x: int) {
    members' == members - {x} || (x !in members && members' == members + {x} && |members| < MAX_MEMBERS)
  }

  lemma EditIsSmall(g: Group, members: set<int>, uid: int, op: Op, contacts: Contacts.Tables)
    requires g.active && (op.Leave? ==> uid != g.owner)
    ensures SmallEdit(g, members, Edited(g, members, uid, op, contacts))
  {
    if op.Leave? {
      assert OneOff(members, members - {uid}, uid);
    } else if op.Add? || op.Remove? {
      assert OneOff(members, members - {op.target}, op.target);
      assert op.target !in members && |members| < MAX_MEMBERS ==> OneOff(members, members + {op.target}, op.target);
    }
  }

  lemma SmallEditIsSane(g: Group, members: set<int>, e: Edit)
    requires g.active && Sane(g, members) && SmallEdit(g, members, e)
    ensures Sane(e.group, e.members)
  {
    if e.group == g && exists x :: x != g.owner && OneOff(members, e.members, x) {
      var x :| x != g.owner && OneOff(members, e.members, x);
      Sizes(members, g.owner, x);
    }
  }

  lemma EditIsSane(g: Group, members: set<int>, uid: int, op: Op, contacts: Contacts.Tables)
    requires g.active && Sane(g, members) && (op.Leave? ==> uid != g.owner)
    ensures Sane(Edited(g, members, uid, op, contacts).group, Edited(g, members, uid, op, contacts).members)
  {
    EditIsSmall(g, members, uid, op, contacts);
    SmallEditIsSane(g, members, Edited(g, members, uid, op, contacts));
  }

  lemma EditKeepsRecord(g: Group, members: set<int>, uid: int, op: Op, contacts: Contacts.Tables)
    ensures var g' := Edited(g, members, uid, op, contacts).group;
            g'.creator == g.creator && g'.key == g.key && g'.spec == g.spec
  {
  }

  lemma PutKeepsInv(t: Tables, thread: nat, e: Edit)
    requires Inv(t) && thread in t.groups && Sane(e.group, e.members)
    requires e.group.creator == t.groups[thread].creator && e.group.key == t.groups[thread].key
    ensures Inv(Put(t, thread, e))
  {
    var t' := Put(t, thread, e);
    forall x, u, k | CreatedBy(t', x, u, k) ensures CreatedBy(t, x, u, k) {
    }
  }

  lemma InvStep(t: Tables, r: Request, t': Tables)
    requires Inv(t) && Next(t, r, t')
    ensures Inv(t')
  {
    match r
    case Create(_, _, _, _, _, _) =>
      if t' != t {
        FoundingKeepsInv(t, r);
      }
    case Change(uid, thread, op, contacts) =>
      if t' != t {
        EditIsSane(t.groups[thread], Members(t, thread), uid, op, contacts);
        EditKeepsRecord(t.groups[thread], Members(t, thread), uid, op, contacts);
        PutKeepsInv(t, thread, Edited(t.groups[thread], Members(t, thread), uid, op, contacts));
      }
    case Reserve(_) =>
      forall x, u, k | CreatedBy(t', x, u, k) ensures CreatedBy(t, x, u, k) {
      }
  }

  ghost predicate GroupRun(ts: seq<Tables>, rs: seq<Request>) {
    IsRun(Next, ts, rs) && ts[0] == EMPTY
  }

  /** Every active group has its owner among its 1 to 32 members, every inactive one has no members. */
  lemma GroupsAreSane(ts: seq<Tables>, rs: seq<Request>, i: nat, thread: nat)
    requires GroupRun(ts, rs) && i < |ts| && thread in ts[i].groups
    ensures Sane(ts[i].groups[thread], Members(ts[i], thread))
  {
    Reachable(ts, rs, i);
  }

  lemma Reachable(ts: seq<Tables>, rs: seq<Request>, i: nat)
    requires GroupRun(ts, rs) && i < |ts|
    ensures Inv(ts[i])
  {
    forall t, r, t' | Inv(t) && Next(t, r, t') ensures Inv(t') {
      InvStep(t, r, t');
    }
    Always(Next, Inv, ts, rs, i);
  }

  /** What a group keeps for good: its creation record, and being disbanded. */
  ghost predicate Descends(t: Tables, t': Tables) {
    forall x :: x in t.groups ==>
      && x in t'.groups
      && t'.groups[x].creator == t.groups[x].creator && t'.groups[x].key == t.groups[x].key
      && t'.groups[x].spec == t.groups[x].spec
      && (!t.groups[x].active ==> t'.groups[x] == t.groups[x])
  }

  lemma DescendsStep(t: Tables, r: Request, t': Tables)
    requires Inv(t) && Next(t, r, t')
    ensures Descends(t, t')
  {
    if t' != t && r.Change? {
      EditKeepsRecord(t.groups[r.thread], Members(t, r.thread), r.uid, r.op, r.contacts);
    }
  }

  lemma History(ts: seq<Tables>, rs: seq<Request>, i: nat, j: nat)
    requires GroupRun(ts, rs) && i <= j < |ts|
    ensures Descends(ts[i], ts[j])
  {
    forall t, r, t' | Inv(t) && Next(t, r, t') ensures Inv(t') && Descends(t, t') {
      InvStep(t, r, t');
      DescendsStep(t, r, t');
    }
    Across(Next, Inv, Descends, ts, rs, i, j);
  }

  /** One creator and key yield at most one thread, over the whole run. */
  lemma CreationKeyIsSpent(ts: seq<Tables>, rs: seq<Request>, i: nat, j: nat, uid: int, key: string, x: nat, y: nat)
    requires GroupRun(ts, rs) && i <= j < |ts|
    requires CreatedBy(ts[i], x, uid, key) && CreatedBy(ts[j], y, uid, key)
    ensures x == y
  {
    History(ts, rs, i, j);
    Reachable(ts, rs, j);
    assert CreatedBy(ts[j], x, uid, key);
  }

  /**
   Sending a creation again, at any later time and with whatever friends the creator has by then,
   changes nothing and answers with the first thread, with success exactly as long as the creator
   is in the active group; another request under the same key is refused and names no thread.
   */
  lemma RetryChangesNothing(ts: seq<Tables>, rs: seq<Request>, i: nat, j: nat, r: Request, again: Request,
                            code: Code, thread: nat, t': Tables, code': Code, thread': nat)
    requires GroupRun(ts, rs) && i < j < |ts| && rs[i] == r && r.Create? && again.Create?
    requires Creates(ts[i], r, ts[i + 1], code, thread) && code == Success
    requires Creates(ts[j], again, t', code', thread') && Wellformed(again) && again.known
    requires again.uid == r.uid && again.key == r.key
    ensures t' == ts[j] && thread in ts[j].groups
    ensures thread' == if SameSpec(again, r) then thread else 0
    ensures code' == Success <==>
            SameSpec(again, r) && ts[j].groups[thread].active && r.uid in Members(ts[j], thread)
  {
    assert CreatedBy(ts[i + 1], thread, r.uid, r.key);
    History(ts, rs, i + 1, j);
    assert CreatedBy(ts[j], thread, r.uid, r.key);
    var first: nat :| CreatedBy(ts[j], first, r.uid, r.key) && code' == RetryCode(ts[j], again, first)
                 && thread' == if code' == ErrorJson then 0 else first;
    CreationKeyIsSpent(ts, rs, j, j, r.uid, r.key, thread, first);
  }

  predicate SameSpec(r: Request, s: Request)
    requires r.Create? && s.Create?
  {
    Spec(r.name, Invited(r.uid, r.invited)) == Spec(s.name, Invited(s.uid, s.invited))
  }

  /** A new group has exactly the creator and the invited accounts, all of whom may write to it. */
  lemma NewGroupHoldsTheInvited(t: Tables, r: Request, t': Tables, thread: nat, uid: int)
    requires Inv(t) && r.Create? && Creates(t, r, t', Success, thread) && t' != t
    ensures thread !in t.groups && t'.groups[thread].owner == r.uid && t'.groups[thread].name == r.name
    ensures MaySend(t', uid, thread) <==> uid == r.uid || uid in r.invited
    ensures uid in r.invited && uid != r.uid ==> Friend(r.contacts, r.uid, uid)
  {
  }

  /** A disbanded group never becomes active, gains a member or lets a message through again. */
  lemma DisbandedForever(ts: seq<Tables>, rs: seq<Request>, i: nat, j: nat, thread: nat, uid: int)
    requires GroupRun(ts, rs) && i <= j < |ts| && thread in ts[i].groups && !ts[i].groups[thread].active
    ensures thread in ts[j].groups && !ts[j].groups[thread].active && Members(ts[j], thread) == {}
    ensures !MaySend(ts[j], uid, thread)
  {
    History(ts, rs, i, j);
    GroupsAreSane(ts, rs, j, thread);
  }

  /** Membership changes only by its owner's hand or by a member leaving, and the owner never goes. */
  lemma WhoChangesMembership(t: Tables, r: Request, t': Tables, thread: nat)
    requires Inv(t) && Next(t, r, t') && thread in t.groups && Members(t', thread) != Members(t, thread)
    ensures r.Change? && r.thread == thread && t.groups[thread].active && r.uid in Members(t, thread)
    ensures r.uid == t.groups[thread].owner || Members(t', thread) == Members(t, thread) - {r.uid}
    ensures forall u :: u in Members(t', thread) && u !in Members(t, thread) ==>
              r.op == Add(u) && r.uid == t.groups[thread].owner && Friend(r.contacts, r.uid, u)
    ensures t'.groups[thread].active ==> t.groups[thread].owner in Members(t', thread)
  {
    if r.Change? && t' != t {
      EditIsSane(t.groups[r.thread], Members(t, r.thread), r.uid, r.op, r.contacts);
    }
  }

  // ------------------------------------------------ what each request does, exactly

  /** One to 64 bytes, not all of them blank, none of them a control byte. */
  predicate Legible(name: string) {
    && 1 <= |name| <= 64
    && (exists i :: 0 <= i < |name| && ' ' < name[i])
    && (forall i :: 0 <= i < |name| ==> ' ' <= name[i] && name[i] as int != 127)
  }

  lemma LegibleNames(name: string)
    ensures Legible(name) <==> NameValid(name)
  {
    if NameValid(name) {
      var i :| 0 <= i < |name| && name[i] > 32 as char;
      assert ' ' < name[i];
    }
    if Legible(name) {
      var i :| 0 <= i < |name| && ' ' < name[i];
      assert name[i] > 32 as char;
    }
  }

  /** The sender is a member of the active group. */
  predicate Belongs(t: Tables, uid: int, thread: int) {
    thread > 0 && thread in t.groups && t.groups[thread].active && thread in t.members && uid in t.members[thread]
  }

  /** Whom the change is about may be added, removed or made owner: an account, and not the owner. */
  predicate Eligible(t: Tables, thread: int, target: int)
    requires thread >= 0 && thread in t.groups
  {
    target > 0 && target != t.groups[thread].owner
  }

  /** What a change demands beyond that: the owner's hand, or for a leave the hand of somebody else. */
  predicate Granted(t: Tables, uid: int, thread: int, op: Op, contacts: Contacts.Tables)
    requires Belongs(t, uid, thread)
  {
    var members, owns := t.members[thread], uid == t.groups[thread].owner;
    match op
    case Leave => !owns
    case Rename(name) => owns && Legible(name)
    case Disband => owns
    case Remove(target) => owns && Eligible(t, thread, target)
    case Transfer(target) => owns && Eligible(t, thread, target) && target in members
    case Add(target) =>
      && owns && Eligible(t, thread, target) && Contacts.Edge(uid, target) in contacts.friends
      && (target in members || |members| < 32)
  }

  /** The members after a change that is granted. */
  function NewMembers(members: set<int>, uid: int, op: Op): set<int> {
    match op
    case Leave => members - {uid}
    case Remove(target) => members - {target}
    case Add(target) => members + {target}
    case Disband => {}
    case _ => members
  }

  /**
   A change succeeds exactly if a member of the active group asks for it and it is granted. It changes
   that group only: its members as named, its name by a rename, its owner by a transfer, its activity
   by disbanding, and never its creation record. A refused change changes nothing.
   */
  lemma ChangeSucceedsExactly(t: Tables, uid: int, thread: int, op: Op, contacts: Contacts.Tables)
    requires Inv(t)
    ensures var (t', code) := Changed(t, uid, thread, op, contacts);
            && (code == Success <==> Belongs(t, uid, thread) && Granted(t, uid, thread, op, contacts))
            && (code != Success ==> t' == t)
            && (code == Success ==>
                  && thread in t'.groups && thread in t'.members
                  && t' == t.(groups := t.groups[thread := t'.groups[thread]],
                              members := t.members[thread := t'.members[thread]])
                  && t'.members[thread] == NewMembers(t.members[thread], uid, op)
                  && var g, g' := t.groups[thread], t'.groups[thread];
                  && g'.name == (if op.Rename? then op.name else g.name)
                  && g'.owner == (if op.Transfer? then op.target else g.owner)
                  && (g'.active <==> !op.Disband?)
                  && g'.creator == g.creator && g'.key == g.key && g'.spec == g.spec)
  {
    if op.Rename? {
      LegibleNames(op.name);
    }
    if Belongs(t, uid, thread) {
      assert t.groups == t.groups[thread := t.groups[thread]] && t.members == t.members[thread := t.members[thread]];
      if op.Add? && op.target in t.members[thread] {
        assert t.members[thread] + {op.target} == t.members[thread];
      }
    }
  }

  /** Why a change is refused: every code stands for one situation. */
  lemma ChangeRefusals(t: Tables, uid: int, thread: int, op: Op, contacts: Contacts.Tables)
    requires Inv(t)
    ensures var code := Changed(t, uid, thread, op, contacts).1;
            var owns := Belongs(t, uid, thread) && uid == t.groups[thread].owner;
            var targeted := owns && (op.Add? || op.Remove? || op.Transfer?) && Eligible(t, thread, op.target);
            && (code == OwnerMustTransfer <==> owns && op.Leave?)
            && (code == FriendNotFound <==>
                  targeted && op.Add? && Contacts.Edge(uid, op.target) !in contacts.friends)
            && (code == Full <==>
                  targeted && op.Add? && Contacts.Edge(uid, op.target) in contacts.friends
                  && op.target !in t.members[thread] && |t.members[thread]| == 32)
            && (code == Forbidden <==>
                  thread > 0 && (!Belongs(t, uid, thread) || (!owns && !op.Leave?)
                                 || (targeted && op.Transfer? && op.target !in t.members[thread])))
            && (code == ErrorJson <==>
                  || thread <= 0
                  || (owns && op.Rename? && !Legible(op.name))
                  || (owns && (op.Add? || op.Remove? || op.Transfer?) && !targeted))
  {
    if op.Rename? {
      LegibleNames(op.name);
    }
    if Belongs(t, uid, thread) {
      assert Sane(t.groups[thread], Members(t, thread));
    }
  }

  /** A creation request the server takes: name, key and members within their limits, somebody else invited. */
  predicate Acceptable(r: Request)
    requires r.Create?
  {
    && Legible(r.name) && 1 <= |r.invited| <= 31 && 1 <= |r.key| <= 64
    && (forall i :: 0 <= i < |r.key| ==>
          'a' <= r.key[i] <= 'z' || 'A' <= r.key[i] <= 'Z' || '0' <= r.key[i] <= '9' || r.key[i] == '-')
    && (forall x :: x in r.invited ==> x > 0)
    && 2 <= |{r.uid} + set x | x in r.invited| <= 32
  }

  lemma AcceptableRequests(r: Request)
    requires r.Create?
    ensures Acceptable(r) <==> Wellformed(r)
    ensures Invited(r.uid, r.invited) == {r.uid} + set x | x in r.invited
  {
    LegibleNames(r.name);
    assert Invited(r.uid, r.invited) == {r.uid} + set x | x in r.invited;
    if forall x :: x in r.invited ==> x > 0 {
      assert forall i :: 0 <= i < |r.invited| ==> r.invited[i] in r.invited;
    }
  }

  /**
   Under a fresh key a creation succeeds exactly for a known account whose request is acceptable and
   all of whose invited members are friends. It adds the next thread, owned by its creator, with exactly
   these members, and changes nothing else; a refusal changes nothing.
   */
  lemma CreationSucceedsExactly(t: Tables, r: Request, t': Tables, code: Code, thread: nat)
    requires Inv(t) && r.Create? && Creates(t, r, t', code, thread)
    requires forall x :: x in t.groups ==> !(t.groups[x].creator == r.uid && t.groups[x].key == r.key)
    ensures code == Success <==>
            && Acceptable(r) && r.known
            && forall x :: x in r.invited && x != r.uid ==> Contacts.Edge(r.uid, x) in r.contacts.friends
    ensures code == Success ==>
            && thread == t.nextThread && thread !in t.groups && t'.nextThread == t.nextThread + 1
            && thread in t'.groups && t'.groups == t.groups[thread := t'.groups[thread]]
            && t'.members == t.members[thread := {r.uid} + set x | x in r.invited]
            && var g := t'.groups[thread];
            && g.name == r.name && g.owner == r.uid && g.creator == r.uid && g.key == r.key && g.active
    ensures code != Success ==> t' == t && thread == 0
  {
    AcceptableRequests(r);
    assert !Exists(t, r.uid, r.key);
    forall x | x in r.invited ensures x in Invited(r.uid, r.invited) {
    }
  }

  /**
   The other answers to a creation: an unknown account is told so whatever its key; a missing friend
   is reported only under a fresh key; nobody is ever told that a group is full or needs a new owner.
   */
  lemma CreationRefusals(t: Tables, r: Request, t': Tables, code: Code, thread: nat)
    requires Inv(t) && r.Create? && Creates(t, r, t', code, thread)
    ensures code == UidInvalid <==> Acceptable(r) && !r.known
    ensures !Acceptable(r) ==> code == ErrorJson
    ensures code == FriendNotFound <==>
            && Acceptable(r) && r.known
            && (forall x :: x in t.groups ==> !(t.groups[x].creator == r.uid && t.groups[x].key == r.key))
            && exists x :: x in r.invited && x != r.uid && Contacts.Edge(r.uid, x) !in r.contacts.friends
    ensures code in {Success, ErrorJson, UidInvalid, Forbidden, FriendNotFound}
    ensures t' != t ==> code == Success
  {
    AcceptableRequests(r);
    assert Exists(t, r.uid, r.key) <==> exists x :: x in t.groups && CreatedBy(t, x, r.uid, r.key);
    forall x | x in r.invited ensures x in Invited(r.uid, r.invited) {
    }
  }

  /** A new group is the next thread, and threads are only ever used up. */
  lemma NewThreads(t: Tables, r: Request, t': Tables)
    requires Next(t, r, t')
    ensures t'.nextThread >= t.nextThread
    ensures forall x :: x in t'.groups ==> x in t.groups || (r.Create? && x == t.nextThread)
  {
  }

  // ------------------------------------------------------------------ the class

  class Dao {
    var groups: map<nat, Group>
    var members: map<nat, set<int>>
    var nextThread: nat

    function Abs(): Tables
      reads this
    {
      Tables(groups, members, nextThread)
    }

    constructor ()
      ensures Abs() == EMPTY && Inv(Abs())
    {
      groups, members, nextThread := map[], map[], 1;
    }

    /** The member list of a request as a set, or nothing if one of them is not an account. */
    method CollectIds(uid: int, invited: seq<int>) returns (ids: Option<set<int>>)
      ensures ids.Some? <==> forall i :: 0 <= i < |invited| ==> invited[i] > 0
      ensures ids.Some? ==> ids.value == Invited(uid, invited)
    {
      var found := {uid};
      for i := 0 to |invited|
        invariant found == {uid} + set k | 0 <= k < i :: invited[k]
        invariant forall k :: 0 <= k < i ==> invited[k] > 0
      {
        if invited[i] <= 0 {
          return None;
        }
        found := found + {invited[i]};
      }
      return Some(found);
    }

    /** SELECT ... WHERE creator_uid=? AND creation_key=? */
    method FindCreation(uid: int, key: string) returns (thread: Option<nat>)
      ensures thread.Some? <==> Exists(Abs(), uid, key)
      ensures thread.Some? ==> CreatedBy(Abs(), thread.value, uid, key)
    {
      var rows := groups.Keys;
      while rows != {}
        invariant rows <= groups.Keys
        invariant forall x :: x in groups && x !in rows ==> !CreatedBy(Abs(), x, uid, key)
        decreases |rows|
      {
        var x :| x in rows;
        if groups[x].creator == uid && groups[x].key == key {
          assert CreatedBy(Abs(), x, uid, key);
          return Some(x);
        }
        rows := rows - {x};
      }
      return None;
    }

    method InsertGroup(r: Request, ids: set<int>) returns (thread: nat)
      requires r.Create? && ids == Invited(r.uid, r.invited)
      modifies this
      ensures Abs() == Founded(old(Abs()), r) && thread == old(nextThread)
    {
      thread := nextThread;
      nextThread := nextThread + 1;
      groups := groups[thread := Group(r.name, r.uid, r.uid, r.key, Spec(r.name, ids), true)];
      members := members[thread := ids];
    }

    method CreateGroup(r: Request) returns (code: Code, thread: nat)
      requires Inv(Abs()) && r.Create?
      modifies this
      ensures Inv(Abs()) && Creates(old(Abs()), r, Abs(), code, thread)
    {
      thread := 0;
      if !NameValid(r.name) || |r.invited| == 0 || |r.invited| > MAX_MEMBERS - 1 || !KeyValid(r.key) {
        return ErrorJson, 0;
      }
      var ids := CollectIds(r.uid, r.invited);
      if ids.None? || |ids.value| < 2 || |ids.value| > MAX_MEMBERS {
        return ErrorJson, 0;
      }
      if !r.known {
        return UidInvalid, 0;
      }
      var previous := FindCreation(r.uid, r.key);
      if previous.Some? {
        code := RetryCode(Abs(), r, previous.value);
        return code, if code == ErrorJson then 0 else previous.value;
      }
      if !AllFriends(r.contacts, r.uid, ids.value) {
        return FriendNotFound, 0;
      }
      FoundingKeepsInv(Abs(), r);
      thread := InsertGroup(r, ids.value);
      code := Success;
    }

    /** The statements of a permitted change; a refusal leaves the rows as they are. */
    method ApplyChange(thread: nat, uid: int, op: Op, contacts: Contacts.Tables) returns (code: Code)
      requires thread in groups && thread in members
      modifies this`groups, this`members
      ensures (Abs(), code) == Applied(old(Abs()), thread, uid, op, contacts)
    {
      var g, now := groups[thread], members[thread];
      assert groups == groups[thread := g] && members == members[thread := now];
      if op.Rename? {
        if !NameValid(op.name) {
          return ErrorJson;
        }
        groups := groups[thread := g.(name := op.name)];
        return Success;
      }
      if op.Disband? {
        groups := groups[thread := g.(active := false)];
        members := members[thread := {}];
        return Success;
      }
      if op.Leave? {
        members := members[thread := now - {uid}];
        return Success;
      }
      if op.target <= 0 || op.target == g.owner {
        return ErrorJson;
      }
      if op.Add? {
        if Contacts.Edge(uid, op.target) !in contacts.friends {
          return FriendNotFound;
        }
        if op.target !in now {
          if |now| >= MAX_MEMBERS {
            return Full;
          }
          members := members[thread := now + {op.target}];
        }
      } else if op.Transfer? {
        if op.target !in now {
          return Forbidden;
        }
        groups := groups[thread := g.(owner := op.target)];
      } else {
        members := members[thread := now - {op.target}];
      }
      return Success;
    }

    method UpdateGroup(uid: int, thread: int, op: Op, contacts: Contacts.Tables) returns (code: Code)
      requires Inv(Abs())
      modifies this`groups, this`members
      ensures Inv(Abs()) && (Abs(), code) == Changed(old(Abs()), uid, thread, op, contacts)
    {
      if thread <= 0 {
        return ErrorJson;
      }
      if thread !in groups || !groups[thread].active || thread !in members || uid !in members[thread] {
        return Forbidden;
      }
      var owner := groups[thread].owner;
      if !op.Leave? && uid != owner {
        return Forbidden;
      }
      if op.Leave? && uid == owner {
        return OwnerMustTransfer;
      }
      ghost var t := Abs();
      code := ApplyChange(thread, uid, op, contacts);
      InvStep(t, Change(uid, thread, op, contacts), Abs());
    }

    /** The group branch of AddChatMsg's authorization. */
    method AuthorizeSend(uid: int, thread: nat) returns (ok: bool)
      ensures ok == MaySend(Abs(), uid, thread)
    {
      if thread !in groups || !groups[thread].active {
        return false;
      }
      return thread in members && uid in members[thread];
    }
  }
}
