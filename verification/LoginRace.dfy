/**
 One login racing a close of the same connection, step by step, among other logins, kicks, lease
 refreshes and the passing of time. Each mutex section and each Redis script is one step.
 */
module LoginRace {
  import opened Common
  import opened Runs
  import Cred = Credentials

  // -------------------------------------------------- the local session index

  /** UserMgr flattened: which session is indexed for an account and device. */
  type Users = map<Slot, string>

  predicate Indexed(users: Users, slot: Slot, session: string) {
    slot in users && users[slot] == session
  }

  /** Some entry of the account that names the session is gone, whichever the iteration meets first. */
  ghost predicate Removed(users: Users, uid: int, session: string, users': Users) {
    || (users' == users && forall d :: !Indexed(users, Slot(uid, d), session))
    || (exists d :: Indexed(users, Slot(uid, d), session) && users' == users - {Slot(uid, d)})
  }

  /** The index as the source keeps it: one inner map per account, never an empty one. */
  class UserMgr {
    var index: map<int, map<Device, string>>
    ghost var users: Users

    ghost predicate Valid()
      reads this
    {
      && (forall u :: u in index ==> index[u] != map[])
      && (forall s :: s in users <==> s.uid in index && s.device in index[s.uid])
      && (forall s :: s in users ==> users[s] == index[s.uid][s.device])
    }

    constructor ()
      ensures Valid() && users == map[]
    {
      index, users := map[], map[];
    }

    method SetUserSession(uid: int, device: Device, session: string)
      requires Valid()
      modifies this
      ensures Valid() && users == old(users)[Slot(uid, device) := session]
    {
      var slots := if uid in index then index[uid] else map[];
      assert device in slots[device := session];
      index := index[uid := slots[device := session]];
      users := users[Slot(uid, device) := session];
    }

    /** The devices of an account are visited in no particular order. */
    method FindDevice(slots: map<Device, string>, session: string) returns (found: Option<Device>)
      ensures found.Some? ==> found.value in slots && slots[found.value] == session
      ensures found.None? ==> forall d :: d in slots ==> slots[d] != session
    {
      var rest := slots.Keys;
      while rest != {}
        invariant rest <= slots.Keys && forall d :: d in slots && d !in rest ==> slots[d] != session
        decreases |rest|
      {
        var d :| d in rest;
        if slots[d] == session {
          return Some(d);
        }
        rest := rest - {d};
      }
      return None;
    }

    method Erase(uid: int, device: Device)
      requires Valid() && uid in index && device in index[uid]
      modifies this
      ensures Valid() && users == old(users) - {Slot(uid, device)}
    {
      var slots := index[uid] - {device};
      users := users - {Slot(uid, device)};
      assert forall d :: d in slots <==> Slot(uid, d) in users;
      if slots == map[] {
        index := index - {uid};
      } else {
        index := index[uid := slots];
      }
    }

    method RmvUserSession(uid: int, session: string)
      requires Valid()
      modifies this
      ensures Valid() && Removed(old(users), uid, session, users)
    {
      if uid !in index {
        return;
      }
      var found := FindDevice(index[uid], session);
      if found.Some? {
        assert Indexed(users, Slot(uid, found.value), session);
        Erase(uid, found.value);
      }
    }

    method GetSession(uid: int, device: Device) returns (session: Option<string>)
      requires Valid()
      ensures session == if Slot(uid, device) in users then Some(users[Slot(uid, device)]) else None
    {
      assert Slot(uid, device) in users <==> uid in index && device in index[uid];
      if uid in index && device in index[uid] {
        return Some(index[uid][device]);
      }
      return None;
    }
  }

  // ---------------------------------------------------------- the two threads

  /** The login request under study. */
  datatype Attempt = Attempt(session: string, uid: int, device: Device, server: string, token: string)

  datatype LoginPc = Waiting | Checked | Locked | Rechecked | Ready | Registered | Revoke(device: Device) | Finished

  datatype CleanupPc = Off | Snapshot(uid: int) | ReleaseAt(uid: int, device: Device) | Clear | Done

  datatype World = World(
    keys: Cred.Keys,
    users: Users,
    lock: Option<string>,        // the session whose login holds the account's lock
    closed: bool, retiring: bool, cleanupStarted: bool,
    userId: int,                 // 0 until the connection is bound
    login: LoginPc,
    cleanup: CleanupPc,
    mishap: bool)                // some Redis call or cleanup submission failed

  datatype Event =
    // SessionService::Login
    | Check
    | Acquire(inTime: bool)
    | Recheck(redisOk: bool)
    | Kick(local: bool, kickOk: bool)
    | Register(redisOk: bool)
    | Bind
    | RevokeStep(redisOk: bool)
    // closing the connection
    | Retire
    | Close
    | StartCleanup
    | Unindex(accepted: bool)
    | ReleaseStep(redisOk: bool)
    | ClearSession
    // everybody else
    | Elapse(ms: int)
    | Issue(key: Cred.PendingKey, token: string)
    | OtherAcquire(session: string)
    | OtherUnlock(session: string)
    | OtherRegister(slot: Slot, session: string, server: string, credential: string)
    | OtherRelease(slot: Slot, session: string)
    | Refresh(slot: Slot, session: string)
    | OtherBind(slot: Slot, session: string)
    | RemoveIndex(uid: int, session: string)

  function Target(a: Attempt): Slot {
    Slot(a.uid, a.device)
  }

  /** Leaving Login releases the account's lock. */
  function Leave(w: World): World {
    w.(login := Finished, lock := None)
  }

  function AfterRevoke(a: Attempt, w: World, redisOk: bool): World
    requires w.login.Revoke?
  {
    if !redisOk then Leave(w).(mishap := true)
    else
      var u := w.(keys := Cred.ReleaseSlot(w.keys, Slot(a.uid, w.login.device), a.session));
      if w.login.device.Desktop? then u.(login := Revoke(Android)) else Leave(u)
  }

  function AfterRelease(a: Attempt, w: World, redisOk: bool): World
    requires w.cleanup.ReleaseAt?
  {
    if !redisOk then w.(cleanup := Clear, mishap := true)
    else w.(keys := Cred.ReleaseSlot(w.keys, Slot(w.cleanup.uid, w.cleanup.device), a.session),
            cleanup := if w.cleanup.device.Desktop? then ReleaseAt(w.cleanup.uid, Android) else Clear)
  }

  /** BindAuthenticatedUser, under the login mutex. */
  function AfterBind(a: Attempt, w: World): World {
    if a.uid <= 0 || w.closed || w.retiring || w.cleanupStarted || w.userId != 0 then w.(login := Revoke(Desktop))
    else Leave(w.(userId := a.uid, users := w.users[Target(a) := a.session]))
  }

  /** Another session is indexed for the device, on this server. */
  predicate Replaces(a: Attempt, w: World) {
    Target(a) in w.users && w.users[Target(a)] != a.session
  }

  /** Up to the recheck under the lock the login only moves on its own. */
  predicate EntryNext(a: Attempt, w: World, e: Event, w': World) {
    match e
    case Check =>
      && w.login.Waiting?
      && var refused := !ValidDevice(a.device) || w.closed || w.retiring || w.userId > 0;
      w' == w.(login := if refused then Finished else Checked)
    case Acquire(inTime) =>
      && w.login.Checked?
      && if inTime then w.lock.None? && w' == w.(lock := Some(a.session), login := Locked)
         else w' == w.(login := Finished)
    case Recheck(redisOk) =>
      && w.login.Locked?
      && w' == if redisOk && Cred.Acceptable(w.keys, Target(a), a.token) then w.(login := Rechecked) else Leave(w)
    case _ => false
  }

  /** The older session is told to go and dropped from the index; elsewhere a remote call does that. */
  ghost predicate KickNext(a: Attempt, w: World, e: Event, w': World) {
    e.Kick? && w.login.Rechecked? &&
    if !e.kickOk then w' == Leave(w)
    else if e.local && Replaces(a, w) then
      Removed(w.users, a.uid, w.users[Target(a)], w'.users) && w' == w.(users := w'.users, login := Ready)
    else w' == w.(login := Ready)
  }

  function AfterRegister(a: Attempt, w: World, redisOk: bool): World {
    if redisOk && Cred.RegisterOk(w.keys, Target(a), a.token)
    then w.(keys := Cred.Register(w.keys, Target(a), a.session, a.server, a.token), login := Registered)
    else Leave(w)
  }

  predicate CommitNext(a: Attempt, w: World, e: Event, w': World) {
    match e
    case Register(redisOk) => w.login.Ready? && w' == AfterRegister(a, w, redisOk)
    case Bind => w.login.Registered? && w' == AfterBind(a, w)
    case RevokeStep(redisOk) => w.login.Revoke? && w' == AfterRevoke(a, w, redisOk)
    case _ => false
  }

  ghost predicate LoginNext(a: Attempt, w: World, e: Event, w': World) {
    EntryNext(a, w, e, w') || KickNext(a, w, e, w') || CommitNext(a, w, e, w')
  }

  ghost predicate CloseNext(a: Attempt, w: World, e: Event, w': World) {
    match e
    case Retire => w' == w.(retiring := true)
    case Close => w' == w.(closed := true)
    case StartCleanup =>
      // DealExceptionSession, under the login mutex, after the physical close.
      w.closed && w.cleanup.Off? && w' == w.(cleanupStarted := true, cleanup := Snapshot(w.userId))
    case Unindex(accepted) =>
      && w.cleanup.Snapshot?
      && var uid := w.cleanup.uid;
      if uid <= 0 then w' == w.(cleanup := Clear)
      else
        && Removed(w.users, uid, a.session, w'.users)
        && w' == if accepted then w.(users := w'.users, cleanup := ReleaseAt(uid, Desktop))
                 else w.(users := w'.users, cleanup := Clear, mishap := true)
    case ReleaseStep(redisOk) => w.cleanup.ReleaseAt? && w' == AfterRelease(a, w, redisOk)
    case ClearSession =>
      && w.cleanup.Clear?
      && (if w.userId > 0 then Removed(w.users, w.userId, a.session, w'.users) else w'.users == w.users)
      && w' == w.(users := w'.users, cleanup := Done)
    case _ => false
  }

  /** Other logins of the account run under its lock; their cleanups, and other accounts, do not. */
  ghost predicate OtherNext(a: Attempt, w: World, e: Event, w': World) {
    match e
    case Elapse(ms) => ms >= 0 && w' == w.(keys := w.keys.(now := w.keys.now + ms))
    case Issue(key, token) =>
      w' == w.(keys := w.keys.(pending := w.keys.pending[key := Cred.Entry(token, w.keys.now + Cred.PENDING_MS)]))
    case OtherAcquire(session) => session != a.session && w.lock.None? && w' == w.(lock := Some(session))
    case OtherUnlock(session) => session != a.session && w.lock == Some(session) && w' == w.(lock := None)
    case OtherRegister(slot, session, server, credential) =>
      && session != a.session && (slot.uid == a.uid ==> w.lock == Some(session))
      && w' == w.(keys := Cred.Register(w.keys, slot, session, server, credential))
    case OtherRelease(slot, session) =>
      session != a.session && w' == w.(keys := Cred.ReleaseSlot(w.keys, slot, session))
    case Refresh(slot, session) => w' == w.(keys := Cred.RefreshSlot(w.keys, slot, session))
    case OtherBind(slot, session) =>
      && session != a.session && (slot.uid == a.uid ==> w.lock == Some(session))
      && w' == w.(users := w.users[slot := session])
    // A newer login of the same device drops the entry it replaces; a cleanup drops its own.
    case RemoveIndex(uid, session) => Removed(w.users, uid, session, w'.users) && w' == w.(users := w'.users)
    case _ => false
  }

  ghost predicate Next(a: Attempt, w: World, e: Event, w': World) {
    LoginNext(a, w, e, w') || CloseNext(a, w, e, w') || OtherNext(a, w, e, w')
  }

  /** A live Redis slot names the session. */
  predicate Named(keys: Cred.Keys, slot: Slot, session: string) {
    Cred.Holds(keys.sessions, slot, session, keys.now)
  }

  ghost predicate Initial(a: Attempt, w: World) {
    && (forall s :: !Named(w.keys, s, a.session))
    && (forall s :: !Indexed(w.users, s, a.session))
    && w.lock != Some(a.session)
    && !w.closed && !w.retiring && !w.cleanupStarted && w.userId == 0
    && w.login.Waiting? && w.cleanup.Off? && !w.mishap
  }

  // --------------------------------------------------------------- invariant

  predicate Unregistered(pc: LoginPc) {
    pc.Waiting? || pc.Checked? || pc.Locked? || pc.Rechecked? || pc.Ready?
  }

  /** A slot that login or cleanup has already released, or that was never written. */
  predicate Swept(a: Attempt, w: World, device: Device) {
    || Unregistered(w.login)
    || (!w.mishap && w.login == Revoke(Android) && device.Desktop?)
    || (!w.mishap && w.login.Finished? && w.userId == 0)
    || (!w.mishap && w.userId != 0 && w.cleanup.ReleaseAt? && w.cleanup.device.Android? && device.Desktop?)
    || (!w.mishap && w.userId != 0 && (w.cleanup.Clear? || w.cleanup.Done?))
  }

  /** Only the login's own slot can name the session, and only while nobody swept it. */
  ghost predicate KeysInv(a: Attempt, w: World) {
    forall s :: Named(w.keys, s, a.session) ==> s == Target(a) && !Swept(a, w, s.device)
  }

  /** Only a bound connection is indexed, and not once its cleanup has passed that point. */
  ghost predicate UsersInv(a: Attempt, w: World) {
    && (forall s :: Indexed(w.users, s, a.session) ==> s == Target(a) && w.userId != 0)
    && (w.cleanup.ReleaseAt? || w.cleanup.Clear? || w.cleanup.Done? ==> !Indexed(w.users, Target(a), a.session))
  }

  /** The uid snapshot taken by the cleanup is the final one: a later bind is refused. */
  predicate PcInv(a: Attempt, w: World) {
    && (w.userId != 0 ==> w.userId == a.uid > 0 && w.login.Finished? && ValidDevice(a.device))
    && (w.login.Registered? || w.login.Revoke? ==> ValidDevice(a.device) && w.userId == 0)
    && (Unregistered(w.login) && !w.login.Waiting? ==> ValidDevice(a.device))
    && (w.login.Revoke? ==> ValidDevice(w.login.device))
    && (w.cleanupStarted <==> !w.cleanup.Off?)
    && (w.cleanup.Snapshot? ==> w.cleanup.uid == w.userId)
    && (w.cleanup.ReleaseAt? ==> w.cleanup.uid == w.userId > 0 && ValidDevice(w.cleanup.device))
  }

  predicate UnderLock(pc: LoginPc) {
    pc.Locked? || pc.Rechecked? || pc.Ready? || pc.Registered? || pc.Revoke?
  }

  /** The login holds the account's lock from taking it to its end, and at no other time. */
  predicate LockInv(a: Attempt, w: World) {
    UnderLock(w.login) <==> w.lock == Some(a.session)
  }

  ghost predicate Inv(a: Attempt, w: World) {
    KeysInv(a, w) && UsersInv(a, w) && PcInv(a, w) && LockInv(a, w)
  }

  /** What a removal leaves was there before; a session indexed once is gone. */
  lemma Removal(users: Users, uid: int, session: string, users': Users)
    requires Removed(users, uid, session, users')
    ensures forall s, x :: Indexed(users', s, x) ==> Indexed(users, s, x)
    ensures forall s, x :: Indexed(users, s, x) && x != session ==> Indexed(users', s, x)
    ensures forall d | (forall t :: Indexed(users, t, session) ==> t == Slot(uid, d)) ::
              !Indexed(users', Slot(uid, d), session)
  {
  }

  /** Releasing a slot never makes a session appear, and takes it off that slot. */
  lemma Released(keys: Cred.Keys, slot: Slot, session: string)
    ensures forall s, x :: Named(Cred.ReleaseSlot(keys, slot, session), s, x) ==> Named(keys, s, x)
    ensures !Named(Cred.ReleaseSlot(keys, slot, session), slot, session)
  {
  }

  lemma EntryKeepsPc(a: Attempt, w: World, e: Event, w': World)
    requires PcInv(a, w) && EntryNext(a, w, e, w')
    ensures PcInv(a, w') && Unregistered(w.login) && w' == w.(login := w'.login, lock := w'.lock)
  {
  }

  lemma KickKeepsPc(a: Attempt, w: World, e: Event, w': World)
    requires PcInv(a, w) && KickNext(a, w, e, w')
    ensures PcInv(a, w') && w'.keys == w.keys && w'.userId == w.userId
  {
  }

  lemma CommitKeepsPc(a: Attempt, w: World, e: Event, w': World)
    requires PcInv(a, w) && CommitNext(a, w, e, w')
    ensures PcInv(a, w')
  {
  }

  lemma CloseKeepsPc(a: Attempt, w: World, e: Event, w': World)
    requires PcInv(a, w) && CloseNext(a, w, e, w')
    ensures PcInv(a, w')
  {
  }

  lemma EntryKeepsLock(a: Attempt, w: World, e: Event, w': World)
    requires LockInv(a, w) && EntryNext(a, w, e, w')
    ensures LockInv(a, w')
  {
  }

  lemma KickKeepsLock(a: Attempt, w: World, e: Event, w': World)
    requires LockInv(a, w) && KickNext(a, w, e, w')
    ensures LockInv(a, w')
  {
  }

  lemma CommitKeepsLock(a: Attempt, w: World, e: Event, w': World)
    requires LockInv(a, w) && CommitNext(a, w, e, w')
    ensures LockInv(a, w')
  {
  }

  lemma OthersKeepLock(a: Attempt, w: World, e: Event, w': World)
    requires LockInv(a, w) && (CloseNext(a, w, e, w') || OtherNext(a, w, e, w'))
    ensures LockInv(a, w')
  {
  }

  /** Registering names the session on one slot only, the login's own. */
  lemma Registers(a: Attempt, keys: Cred.Keys, s: Slot)
    requires ValidDevice(a.device)
    ensures Named(Cred.Register(keys, Target(a), a.session, a.server, a.token), s, a.session) ==>
              Named(keys, s, a.session) || s == Target(a)
  {
  }

  lemma RegisterKeepsKeys(a: Attempt, w: World, redisOk: bool)
    requires KeysInv(a, w) && PcInv(a, w) && w.login.Ready?
    ensures KeysInv(a, AfterRegister(a, w, redisOk))
  {
    var w' := AfterRegister(a, w, redisOk);
    forall s | Named(w'.keys, s, a.session) ensures s == Target(a) && !Swept(a, w', s.device) {
      Registers(a, w.keys, s);
    }
  }

  lemma RevokeKeepsKeys(a: Attempt, w: World, redisOk: bool)
    requires KeysInv(a, w) && PcInv(a, w) && w.login.Revoke?
    ensures KeysInv(a, AfterRevoke(a, w, redisOk))
  {
    Released(w.keys, Slot(a.uid, w.login.device), a.session);
  }

  lemma BindKeepsKeys(a: Attempt, w: World)
    requires KeysInv(a, w) && PcInv(a, w) && w.login.Registered?
    ensures KeysInv(a, AfterBind(a, w))
  {
  }

  lemma CommitKeepsKeys(a: Attempt, w: World, e: Event, w': World)
    requires KeysInv(a, w) && PcInv(a, w) && CommitNext(a, w, e, w')
    ensures KeysInv(a, w')
  {
    match e
    case Register(redisOk) => RegisterKeepsKeys(a, w, redisOk);
    case Bind => BindKeepsKeys(a, w);
    case RevokeStep(redisOk) => RevokeKeepsKeys(a, w, redisOk);
  }

  lemma KickKeepsUsers(a: Attempt, w: World, e: Event, w': World)
    requires UsersInv(a, w) && KickNext(a, w, e, w')
    ensures UsersInv(a, w')
  {
    if w'.users != w.users {
      Removal(w.users, a.uid, w.users[Target(a)], w'.users);
    }
  }

  lemma CommitKeepsUsers(a: Attempt, w: World, e: Event, w': World)
    requires UsersInv(a, w) && PcInv(a, w) && CommitNext(a, w, e, w')
    ensures UsersInv(a, w')
  {
    forall s | Indexed(w'.users, s, a.session) ensures Indexed(w.users, s, a.session) || (e.Bind? && s == Target(a)) {
    }
  }

  lemma CloseKeepsKeys(a: Attempt, w: World, e: Event, w': World)
    requires KeysInv(a, w) && PcInv(a, w) && CloseNext(a, w, e, w')
    ensures KeysInv(a, w')
  {
    if e.ReleaseStep? {
      Released(w.keys, Slot(w.cleanup.uid, w.cleanup.device), a.session);
    }
  }

  lemma CloseKeepsUsers(a: Attempt, w: World, e: Event, w': World)
    requires UsersInv(a, w) && PcInv(a, w) && CloseNext(a, w, e, w')
    ensures UsersInv(a, w')
  {
    if e.Unindex? && w.cleanup.uid > 0 {
      Removal(w.users, w.cleanup.uid, a.session, w'.users);
    } else if e.ClearSession? && w.userId > 0 {
      Removal(w.users, w.userId, a.session, w'.users);
    }
  }

  lemma OthersKeepKeys(a: Attempt, w: World, e: Event, w': World)
    requires KeysInv(a, w) && OtherNext(a, w, e, w')
    ensures KeysInv(a, w')
  {
    forall s | Named(w'.keys, s, a.session) ensures Named(w.keys, s, a.session) {
    }
  }

  lemma OthersKeepUsers(a: Attempt, w: World, e: Event, w': World)
    requires UsersInv(a, w) && OtherNext(a, w, e, w')
    ensures UsersInv(a, w')
  {
    if e.RemoveIndex? {
      Removal(w.users, e.uid, e.session, w'.users);
    }
    forall s | Indexed(w'.users, s, a.session) ensures Indexed(w.users, s, a.session) {
    }
  }

  lemma InvStep(a: Attempt, w: World, e: Event, w': World)
    requires Inv(a, w) && Next(a, w, e, w')
    ensures Inv(a, w')
  {
    if EntryNext(a, w, e, w') {
      EntryKeepsLock(a, w, e, w');
      EntryKeepsPc(a, w, e, w');
    } else if KickNext(a, w, e, w') {
      KickKeepsLock(a, w, e, w');
      KickKeepsPc(a, w, e, w');
      KickKeepsUsers(a, w, e, w');
    } else if CommitNext(a, w, e, w') {
      CommitKeepsLock(a, w, e, w');
      CommitKeepsPc(a, w, e, w');
      CommitKeepsKeys(a, w, e, w');
      CommitKeepsUsers(a, w, e, w');
    } else if CloseNext(a, w, e, w') {
      OthersKeepLock(a, w, e, w');
      CloseKeepsPc(a, w, e, w');
      CloseKeepsKeys(a, w, e, w');
      CloseKeepsUsers(a, w, e, w');
    } else {
      OthersKeepLock(a, w, e, w');
      OthersKeepKeys(a, w, e, w');
      OthersKeepUsers(a, w, e, w');
    }
  }

  ghost function Steps(a: Attempt): (World, Event, World) -> bool {
    (w: World, e: Event, w': World) => Next(a, w, e, w')
  }

  ghost predicate RaceRun(a: Attempt, ws: seq<World>, es: seq<Event>) {
    IsRun(Steps(a), ws, es) && Initial(a, ws[0])
  }

  lemma Reachable(a: Attempt, ws: seq<World>, es: seq<Event>, i: nat)
    requires RaceRun(a, ws, es) && i < |ws|
    ensures Inv(a, ws[i])
  {
    var next := Steps(a);
    var inv := (w: World) => Inv(a, w);
    forall w: World, e: Event, w': World | inv(w) && next(w, e, w') ensures inv(w') {
      InvStep(a, w, e, w');
    }
    Always(next, inv, ws, es, i);
  }

  // ---------------------------------------------------------------- theorems

  /**
   In every interleaving of a login with a close of its connection, once both are finished, no entry
   of the local index names the session, and, if nothing failed on the way, no Redis slot either.
   */
  lemma ClosedLoginLeavesNoTrace(a: Attempt, ws: seq<World>, es: seq<Event>, i: nat, slot: Slot)
    requires RaceRun(a, ws, es) && i < |ws|
    requires (ws[i].login.Finished? || ws[i].login.Waiting?) && ws[i].cleanup.Done?
    ensures !ws[i].mishap ==> !Named(ws[i].keys, slot, a.session)
    ensures !Indexed(ws[i].users, slot, a.session)
  {
    Reachable(a, ws, es, i);
  }

  /** However it goes, a login holds the account's lock exactly while it works under it. */
  lemma LockHeldExactly(a: Attempt, ws: seq<World>, es: seq<Event>, i: nat)
    requires RaceRun(a, ws, es) && i < |ws|
    ensures ws[i].lock == Some(a.session) <==> UnderLock(ws[i].login)
  {
    Reachable(a, ws, es, i);
  }

  /** A held lock passes to nobody: only its holder frees it, this login by finishing. */
  lemma LockIsExclusive(a: Attempt, ws: seq<World>, es: seq<Event>, i: nat)
    requires RaceRun(a, ws, es) && i < |es| && ws[i].lock.Some? && ws[i + 1].lock != ws[i].lock
    ensures ws[i + 1].lock.None?
    ensures if ws[i].lock.value == a.session then ws[i + 1].login.Finished?
            else es[i] == OtherUnlock(ws[i].lock.value)
  {
    Reachable(a, ws, es, i);
    assert Steps(a)(ws[i], es[i], ws[i + 1]);
    if LoginNext(a, ws[i], es[i], ws[i + 1]) {
      LoginFreesLock(a, ws[i], es[i], ws[i + 1]);
    } else {
      OthersFreeLock(a, ws[i], es[i], ws[i + 1]);
    }
  }

  lemma LoginFreesLock(a: Attempt, w: World, e: Event, w': World)
    requires LockInv(a, w) && LoginNext(a, w, e, w') && w.lock.Some? && w'.lock != w.lock
    ensures w'.lock.None? && w.lock == Some(a.session) && w'.login.Finished?
  {
  }

  lemma OthersFreeLock(a: Attempt, w: World, e: Event, w': World)
    requires (CloseNext(a, w, e, w') || OtherNext(a, w, e, w')) && w.lock.Some? && w'.lock != w.lock
    ensures w'.lock.None? && e == OtherUnlock(w.lock.value) && w.lock != Some(a.session)
  {
  }

  // ------------------------------------------------------------ who gets bound

  /** How far the login has come: checked, credential accepted, older session told to go, registered, bound. */
  function Stage(w: World): nat {
    if w.userId != 0 then 5
    else match w.login
      case Checked => 1
      case Locked => 1
      case Rechecked => 2
      case Ready => 3
      case Registered => 4
      case Revoke(_) => 4
      case _ => 0
  }

  /** The credential is usable in one of its three places. */
  predicate Presents(a: Attempt, keys: Cred.Keys) {
    || Cred.Usable(keys.pending, Cred.Legacy(a.uid), a.token, keys.now)
    || Cred.Usable(keys.pending, Cred.Pending(a.uid, a.token), a.token, keys.now)
    || Cred.Usable(keys.tokens, Target(a), a.token, keys.now)
  }

  /** What lets a login on to its next stage. */
  predicate Gate(a: Attempt, w: World, e: Event, stage: nat) {
    match stage
    case 1 => e.Check? && ValidDevice(a.device) && !w.closed && !w.retiring && w.userId == 0
    case 2 => e == Recheck(true) && Presents(a, w.keys)
    case 3 => e.Kick? && e.kickOk
    case 4 => e == Register(true) && Presents(a, w.keys)
    case 5 => e.Bind? && a.uid > 0 && !w.closed && !w.retiring && !w.cleanupStarted
    case _ => false
  }

  /** The login's own decisions. */
  predicate Decides(e: Event) {
    e.Check? || e.Recheck? || e.Kick? || e.Register? || e.Bind?
  }

  predicate Climbs(a: Attempt, w: World, e: Event, w': World) {
    && (Stage(w') <= Stage(w) || (Stage(w') == Stage(w) + 1 && Gate(a, w, e, Stage(w'))))
    && (Decides(e) ==> (Stage(w') > Stage(w) <==> Gate(a, w, e, Stage(w) + 1)))
  }

  lemma EntryClimbs(a: Attempt, w: World, e: Event, w': World)
    requires PcInv(a, w) && EntryNext(a, w, e, w')
    ensures Climbs(a, w, e, w')
  {
  }

  lemma KickClimbs(a: Attempt, w: World, e: Event, w': World)
    requires PcInv(a, w) && KickNext(a, w, e, w')
    ensures Climbs(a, w, e, w')
  {
  }

  lemma CommitClimbs(a: Attempt, w: World, e: Event, w': World)
    requires PcInv(a, w) && CommitNext(a, w, e, w')
    ensures Climbs(a, w, e, w')
  {
  }

  lemma OthersStay(a: Attempt, w: World, e: Event, w': World)
    requires CloseNext(a, w, e, w') || OtherNext(a, w, e, w')
    ensures Stage(w') == Stage(w) && !Decides(e)
  {
  }

  /**
   The login passes each of its decisions exactly if its guard holds: the check on a valid device of an
   open connection that is not retiring or bound; recheck and registration with a usable credential; the
   kick unless the other server fails to carry it out; the bind while the connection is neither closed,
   nor retiring, nor being cleaned up.
   */
  lemma PassesExactly(a: Attempt, ws: seq<World>, es: seq<Event>, i: nat)
    requires RaceRun(a, ws, es) && i < |es|
    ensures Climbs(a, ws[i], es[i], ws[i + 1])
  {
    Reachable(a, ws, es, i);
    assert Steps(a)(ws[i], es[i], ws[i + 1]);
    if EntryNext(a, ws[i], es[i], ws[i + 1]) {
      EntryClimbs(a, ws[i], es[i], ws[i + 1]);
    } else if KickNext(a, ws[i], es[i], ws[i + 1]) {
      KickClimbs(a, ws[i], es[i], ws[i + 1]);
    } else if CommitNext(a, ws[i], es[i], ws[i + 1]) {
      CommitClimbs(a, ws[i], es[i], ws[i + 1]);
    } else {
      OthersStay(a, ws[i], es[i], ws[i + 1]);
    }
  }

  lemma {:induction false} Passed(a: Attempt, ws: seq<World>, es: seq<Event>, j: nat, stage: nat) returns (i: nat)
    requires RaceRun(a, ws, es) && j < |ws| && 0 < stage <= Stage(ws[j])
    ensures i < j && Stage(ws[i]) == stage - 1 && Gate(a, ws[i], es[i], stage)
    decreases j
  {
    if j > 0 {
      PassesExactly(a, ws, es, j - 1);
      if stage <= Stage(ws[j - 1]) {
        i := Passed(a, ws, es, j - 1, stage);
      } else {
        i := j - 1;
      }
    }
  }

  /**
   A bound connection went through everything, in this order: the check, with the connection open and
   not retiring; the recheck under the lock and, once an older session was told to go, the registration,
   each with a usable credential; and the bind, again before any close, retirement or cleanup.
   */
  lemma BoundLoginWasEntitled(a: Attempt, ws: seq<World>, es: seq<Event>, j: nat)
    returns (c: nat, k: nat, o: nat, r: nat, b: nat)
    requires RaceRun(a, ws, es) && j < |ws| && ws[j].userId != 0
    ensures c < k < o < r < b < j && ws[j].userId == a.uid > 0 && ValidDevice(a.device)
    ensures es[c].Check? && !ws[c].closed && !ws[c].retiring
    ensures es[k].Recheck? && Presents(a, ws[k].keys)
    ensures es[o].Kick? && es[o].kickOk
    ensures es[r].Register? && Presents(a, ws[r].keys)
    ensures es[b].Bind? && !ws[b].closed && !ws[b].retiring && !ws[b].cleanupStarted
  {
    Reachable(a, ws, es, j);
    b := Passed(a, ws, es, j, 5);
    r := Passed(a, ws, es, b, 4);
    o := Passed(a, ws, es, r, 3);
    k := Passed(a, ws, es, o, 2);
    c := Passed(a, ws, es, k, 1);
  }

  /** A Redis slot keeps its session, token and route. */
  predicate SlotKept(keys: Cred.Keys, keys': Cred.Keys, slot: Slot) {
    && slot in keys.sessions && slot in keys'.sessions && keys'.sessions[slot] == keys.sessions[slot]
    && (slot in keys.tokens ==> slot in keys'.tokens && keys'.tokens[slot] == keys.tokens[slot])
    && (slot in keys.routes ==> slot in keys'.routes && keys'.routes[slot] == keys.routes[slot])
  }

  lemma ReleaseKeepsOthers(keys: Cred.Keys, released: Slot, session: string, slot: Slot)
    requires slot in keys.sessions && keys.sessions[slot].value != session
    ensures SlotKept(keys, Cred.ReleaseSlot(keys, released, session), slot)
  {
  }

  /** Closing never changes a Redis slot of another session. */
  lemma CloseKeepsSlots(a: Attempt, w: World, e: Event, w': World, slot: Slot)
    requires CloseNext(a, w, e, w') && slot in w.keys.sessions && w.keys.sessions[slot].value != a.session
    ensures SlotKept(w.keys, w'.keys, slot)
  {
    if e.ReleaseStep? {
      ReleaseKeepsOthers(w.keys, Slot(w.cleanup.uid, w.cleanup.device), a.session, slot);
    } else {
      assert w'.keys == w.keys;
    }
  }

  /** Nor an index entry of another session. */
  lemma CloseKeepsEntries(a: Attempt, w: World, e: Event, w': World, slot: Slot, x: string)
    requires CloseNext(a, w, e, w') && Indexed(w.users, slot, x) && x != a.session
    ensures Indexed(w'.users, slot, x)
  {
    if e.Unindex? && w.cleanup.uid > 0 {
      Removal(w.users, w.cleanup.uid, a.session, w'.users);
    } else if e.ClearSession? && w.userId > 0 {
      Removal(w.users, w.userId, a.session, w'.users);
    } else {
      assert w'.users == w.users;
    }
  }

  function Rank(pc: LoginPc): nat {
    match pc
    case Waiting => 0
    case Checked => 1
    case Locked => 2
    case Rechecked => 3
    case Ready => 4
    case Registered => 5
    case Revoke(_) => 6
    case Finished => 7
  }

  predicate NoEarlier(w: World, w': World) {
    Rank(w.login) <= Rank(w'.login)
  }

  lemma EntryAdvances(a: Attempt, w: World, e: Event, w': World)
    requires EntryNext(a, w, e, w') || KickNext(a, w, e, w')
    ensures NoEarlier(w, w')
  {
  }

  lemma CommitAdvances(a: Attempt, w: World, e: Event, w': World)
    requires CommitNext(a, w, e, w')
    ensures NoEarlier(w, w')
  {
  }

  lemma OthersWait(a: Attempt, w: World, e: Event, w': World)
    requires CloseNext(a, w, e, w') || OtherNext(a, w, e, w')
    ensures w'.login == w.login
  {
  }

  /** A login never goes back. */
  lemma LoginOnlyAdvances(a: Attempt, ws: seq<World>, es: seq<Event>, i: nat, j: nat)
    requires RaceRun(a, ws, es) && i <= j < |ws|
    ensures NoEarlier(ws[i], ws[j])
  {
    var next := Steps(a);
    forall w0: World, w: World, e: Event, w': World | NoEarlier(w0, w) && next(w, e, w') ensures NoEarlier(w0, w') {
      if EntryNext(a, w, e, w') || KickNext(a, w, e, w') {
        EntryAdvances(a, w, e, w');
      } else if CommitNext(a, w, e, w') {
        CommitAdvances(a, w, e, w');
      } else {
        OthersWait(a, w, e, w');
      }
    }
    Across(next, (w: World) => true, NoEarlier, ws, es, i, j);
  }

  /** Other sessions of the account register and bind only while this login does not hold the lock. */
  lemma LockExcludes(a: Attempt, w: World, e: Event, w': World)
    requires LockInv(a, w) && Next(a, w, e, w') && UnderLock(w.login)
    ensures (e.OtherBind? || e.OtherRegister?) ==> e.slot.uid != a.uid
  {
  }

  /** Once another session of the account has registered after this one, this login is over. */
  lemma OverByThen(a: Attempt, ws: seq<World>, es: seq<Event>, i: nat, m: nat, j: nat)
    requires RaceRun(a, ws, es) && i < m < j < |ws| && es[i].Register? && ws[i + 1].login.Registered?
    requires es[m].OtherRegister? && es[m].slot.uid == a.uid
    ensures ws[j].login.Finished?
  {
    LoginOnlyAdvances(a, ws, es, i + 1, m);
    LoginOnlyAdvances(a, ws, es, m, j);
    Reachable(a, ws, es, m);
    assert Steps(a)(ws[m], es[m], ws[m + 1]);
    if UnderLock(ws[m].login) {
      LockExcludes(a, ws[m], es[m], ws[m + 1]);
    }
  }

  /**
   No newer login is disturbed. Step `i` registers this login; step `m`, later, another session of
   the account. From then on nothing the login or the cleanup of this connection does changes a
   Redis slot or an index entry of any other session: the bind, which would overwrite an entry,
   is over by then, because it shares one hold of the account's lock with the registration.
   */
  lemma NewerLoginUntouched(a: Attempt, ws: seq<World>, es: seq<Event>, i: nat, m: nat, j: nat, slot: Slot, x: string)
    requires RaceRun(a, ws, es) && i < m < j < |es| && x != a.session
    requires es[i].Register? && ws[i + 1].login.Registered?
    requires es[m].OtherRegister? && es[m].slot.uid == a.uid
    requires LoginNext(a, ws[j], es[j], ws[j + 1]) || CloseNext(a, ws[j], es[j], ws[j + 1])
    ensures slot in ws[j].keys.sessions && ws[j].keys.sessions[slot].value == x ==>
              SlotKept(ws[j].keys, ws[j + 1].keys, slot)
    ensures Indexed(ws[j].users, slot, x) ==> Indexed(ws[j + 1].users, slot, x)
  {
    OverByThen(a, ws, es, i, m, j);
    if slot in ws[j].keys.sessions && ws[j].keys.sessions[slot].value == x {
      CloseKeepsSlots(a, ws[j], es[j], ws[j + 1], slot);
    }
    if Indexed(ws[j].users, slot, x) {
      CloseKeepsEntries(a, ws[j], es[j], ws[j + 1], slot, x);
    }
  }

  /**
   The bind replaces only an older entry: between taking the lock and binding, no other session is
   bound for the account or registered in one of its slots.
   */
  lemma BindReplacesOnlyOlder(a: Attempt, ws: seq<World>, es: seq<Event>, i: nat, k: nat, j: nat)
    requires RaceRun(a, ws, es) && i < k < j < |es| && es[i].Acquire? && ws[i + 1].login.Locked?
    requires es[j].Bind? && LoginNext(a, ws[j], es[j], ws[j + 1])
    ensures (es[k].OtherBind? || es[k].OtherRegister?) ==> es[k].slot.uid != a.uid
  {
    LoginOnlyAdvances(a, ws, es, i + 1, k);
    LoginOnlyAdvances(a, ws, es, k, j);
    Reachable(a, ws, es, k);
    assert Steps(a)(ws[k], es[k], ws[k + 1]);
    LockExcludes(a, ws[k], es[k], ws[k + 1]);
  }

  /** A login that nobody disturbs goes through: it ends bound, registered and indexed, with the lock free. */
  lemma UndisturbedLogin(a: Attempt, w: World) returns (ws: seq<World>, es: seq<Event>)
    requires Initial(a, w) && w.lock.None? && ValidDevice(a.device) && a.uid > 0
    requires Cred.Acceptable(w.keys, Target(a), a.token)
    ensures RaceRun(a, ws, es) && ws[0] == w
    ensures var end := ws[|es|];
            && end.login.Finished? && end.userId == a.uid && end.lock.None?
            && Named(end.keys, Target(a), a.session) && Indexed(end.users, Target(a), a.session)
  {
    var kicked := if Replaces(a, w) then w.users - {Target(a)} else w.users;
    var w1 := w.(login := Checked);
    var w2 := w1.(lock := Some(a.session), login := Locked);
    var w3 := w2.(login := Rechecked);
    var w4 := w3.(users := kicked, login := Ready);
    var w5 := AfterRegister(a, w4, true);
    ws := [w, w1, w2, w3, w4, w5, AfterBind(a, w5)];
    es := [Check, Acquire(true), Recheck(true), Kick(true, true), Register(true), Bind];
    if Replaces(a, w) {
      assert Indexed(w3.users, Target(a), w.users[Target(a)]);
    }
    assert KickNext(a, w3, es[3], w4);
    forall i {:trigger es[i]} | 0 <= i < |es| ensures Steps(a)(ws[i], es[i], ws[i + 1]) {
    }
  }
}
