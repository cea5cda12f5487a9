/**
 Login credentials in Redis. StatusServer issues a token as a pending key; RegisterSession consumes
 it and publishes the token, session and route keys of one device slot; RefreshSession and
 ReleaseSession compare the session id first. Times are milliseconds.
 */
module Credentials {
  import opened Common
  import opened Runs

  const PENDING_MS: int := 300000
  const ACTIVE_MS: int := 3600000

  datatype Entry = Entry(value: string, expires: int)

  /** The key under which StatusServer stores a token; older servers used one key per account. */
  datatype PendingKey = Pending(uid: int, token: string) | Legacy(uid: int)

  datatype Keys = Keys(
    now: int,
    pending: map<PendingKey, Entry>,
    tokens: map<Slot, Entry>,
    sessions: map<Slot, Entry>,
    routes: map<Slot, Entry>)

  // ------------------------------------------------------------ specification

  /** GET finds the key. */
  predicate Alive<K>(m: map<K, Entry>, k: K, now: int) {
    k in m && now < m[k].expires
  }

  /** TTL in whole seconds, rounded to the nearest as Redis does. */
  function Ttl(e: Entry, now: int): int {
    (e.expires - now + 500) / 1000
  }

  /** GET returns `value` and TTL is positive. */
  predicate Usable<K>(m: map<K, Entry>, k: K, value: string, now: int) {
    Alive(m, k, now) && m[k].value == value && Ttl(m[k], now) > 0
  }

  predicate Holds<K>(m: map<K, Entry>, k: K, value: string, now: int) {
    Alive(m, k, now) && m[k].value == value
  }

  predicate Acceptable(r: Keys, slot: Slot, token: string) {
    || Usable(r.pending, Legacy(slot.uid), token, r.now)
    || Usable(r.pending, Pending(slot.uid, token), token, r.now)
    || Usable(r.tokens, slot, token, r.now)
  }

  /** The pending keys a registration deletes. */
  function Spends(r: Keys, uid: int, token: string): set<PendingKey> {
    {Pending(uid, token)} + (if Holds(r.pending, Legacy(uid), token, r.now) then {Legacy(uid)} else {})
  }

  function Published(r: Keys, slot: Slot, session: string, server: string, token: string): Keys {
    var expires := r.now + ACTIVE_MS;
    r.(tokens := r.tokens[slot := Entry(token, expires)],
       sessions := r.sessions[slot := Entry(session, expires)],
       routes := r.routes[slot := Entry(server, expires)],
       pending := r.pending - Spends(r, slot.uid, token))
  }

  predicate RegisterOk(r: Keys, slot: Slot, token: string) {
    ValidDevice(slot.device) && Acceptable(r, slot, token)
  }

  function Register(r: Keys, slot: Slot, session: string, server: string, token: string): Keys {
    if RegisterOk(r, slot, token) then Published(r, slot, session, server, token) else r
  }

  function Touch<K>(m: map<K, Entry>, k: K, now: int): map<K, Entry> {
    if Alive(m, k, now) then m[k := m[k].(expires := now + ACTIVE_MS)] else m
  }

  predicate RefreshOk(r: Keys, slot: Slot, session: string) {
    Holds(r.sessions, slot, session, r.now) && Alive(r.tokens, slot, r.now)
  }

  /** The refresh script of one device slot. */
  function RefreshSlot(r: Keys, slot: Slot, session: string): Keys {
    if !RefreshOk(r, slot, session) then r
    else r.(sessions := Touch(r.sessions, slot, r.now),
            tokens := Touch(r.tokens, slot, r.now),
            routes := Touch(r.routes, slot, r.now))
  }

  /** The release script of one device slot. */
  function ReleaseSlot(r: Keys, slot: Slot, session: string): Keys {
    if !Holds(r.sessions, slot, session, r.now) then r
    else r.(sessions := r.sessions - {slot}, tokens := r.tokens - {slot}, routes := r.routes - {slot})
  }

  /** RefreshSession: the second slot is tried only if the first does not belong to the session. */
  function Refresh(r: Keys, uid: int, session: string): Keys {
    if RefreshOk(r, Slot(uid, Desktop), session) then RefreshSlot(r, Slot(uid, Desktop), session)
    else RefreshSlot(r, Slot(uid, Android), session)
  }

  function Release(r: Keys, uid: int, session: string): Keys {
    ReleaseSlot(ReleaseSlot(r, Slot(uid, Desktop), session), Slot(uid, Android), session)
  }

  /** StatusServiceImpl::Login: the token is known in one of the account's four places. */
  predicate StatusKnows(r: Keys, uid: int, token: string) {
    || Usable(r.pending, Pending(uid, token), token, r.now)
    || Usable(r.pending, Legacy(uid), token, r.now)
    || Usable(r.tokens, Slot(uid, Desktop), token, r.now)
    || Usable(r.tokens, Slot(uid, Android), token, r.now)
  }

  // -------------------------------------------------------------------- runs

  /** `issued` and `registered` remember tokens and session ids: both are UUIDs and never repeat. */
  datatype World = World(keys: Keys, issued: set<string>, registered: set<string>)

  datatype Event =
    | Elapse(ms: int)
    | Issue(key: PendingKey, token: string)
    | RegisterSession(slot: Slot, session: string, server: string, token: string)
    | RefreshDevice(slot: Slot, session: string)
    | ReleaseDevice(slot: Slot, session: string)

  predicate Next(w: World, e: Event, w': World) {
    match e
    case Elapse(ms) => ms >= 0 && w' == w.(keys := w.keys.(now := w.keys.now + ms))
    case Issue(key, token) =>
      && token !in w.issued && (key.Pending? ==> key.token == token)
      && w' == w.(keys := w.keys.(pending := w.keys.pending[key := Entry(token, w.keys.now + PENDING_MS)]),
                  issued := w.issued + {token})
    // One connection is registered at most once: afterwards Login refuses it.
    case RegisterSession(slot, session, server, token) =>
      && session !in w.registered
      && w' == w.(keys := Register(w.keys, slot, session, server, token),
                  registered := if RegisterOk(w.keys, slot, token) then w.registered + {session} else w.registered)
    case RefreshDevice(slot, session) => w' == w.(keys := RefreshSlot(w.keys, slot, session))
    case ReleaseDevice(slot, session) => w' == w.(keys := ReleaseSlot(w.keys, slot, session))
  }

  predicate Initial(w: World) {
    w.keys.pending == map[] && w.keys.tokens == map[] && w.keys.sessions == map[] && w.keys.routes == map[]
  }

  ghost predicate CredentialRun(ws: seq<World>, es: seq<Event>) {
    IsRun(Next, ws, es) && Initial(ws[0])
  }

  // ------------------------------------------------------ slots stay aligned

  /** The three keys of every slot are written, extended, deleted and expire together. */
  ghost predicate Aligned(r: Keys) {
    && r.tokens.Keys == r.sessions.Keys == r.routes.Keys
    && forall s :: s in r.sessions ==> r.tokens[s].expires == r.sessions[s].expires == r.routes[s].expires
  }

  ghost predicate WorldAligned(w: World) {
    Aligned(w.keys)
  }

  lemma AlignedStep(w: World, e: Event, w': World)
    requires Aligned(w.keys) && Next(w, e, w')
    ensures Aligned(w'.keys)
  {
  }

  /** In every reachable state a slot has all three keys, with one expiry, or none. */
  lemma SlotKeysLiveTogether(ws: seq<World>, es: seq<Event>, i: nat, slot: Slot)
    requires CredentialRun(ws, es) && i < |ws|
    ensures var r := ws[i].keys;
            && (Alive(r.tokens, slot, r.now) <==> Alive(r.sessions, slot, r.now))
            && (Alive(r.routes, slot, r.now) <==> Alive(r.sessions, slot, r.now))
            && (Alive(r.sessions, slot, r.now) ==>
                  r.tokens[slot].expires == r.sessions[slot].expires == r.routes[slot].expires)
  {
    forall w: World, e: Event, w': World | WorldAligned(w) && Next(w, e, w') ensures WorldAligned(w') {
      AlignedStep(w, e, w');
    }
    Always(Next, WorldAligned, ws, es, i);
  }

  // ----------------------------------------------------- credentials are linear

  datatype Place = AtKey(key: PendingKey) | AtSlot(slot: Slot)

  predicate TokenAt(r: Keys, p: Place, token: string) {
    match p
    case AtKey(key) => Holds(r.pending, key, token, r.now)
    case AtSlot(slot) => Holds(r.tokens, slot, token, r.now)
  }

  ghost predicate Linear(w: World) {
    && (forall token, p, q :: TokenAt(w.keys, p, token) && TokenAt(w.keys, q, token) ==> p == q)
    && (forall token, p :: TokenAt(w.keys, p, token) ==> token in w.issued)
    && (forall uid, t, token :: TokenAt(w.keys, AtKey(Pending(uid, t)), token) ==> t == token)
  }

  /** A step shows a token only where it was, where it is issued, or in the slot that registers it. */
  lemma TokenMoves(w: World, e: Event, w': World, p: Place, token: string)
    requires Next(w, e, w') && TokenAt(w'.keys, p, token)
    ensures || TokenAt(w.keys, p, token)
            || (e.Issue? && p == AtKey(e.key) && token == e.token)
            || (e.RegisterSession? && p == AtSlot(e.slot) && token == e.token && RegisterOk(w.keys, e.slot, token))
  {
  }

  /** A token that may register a slot is held at one of the keys the script looks at. */
  lemma AcceptedTokenIsHeld(r: Keys, slot: Slot, token: string) returns (p: Place)
    requires RegisterOk(r, slot, token)
    ensures p in {AtKey(Legacy(slot.uid)), AtKey(Pending(slot.uid, token)), AtSlot(slot)}
    ensures TokenAt(r, p, token)
  {
    if Usable(r.pending, Legacy(slot.uid), token, r.now) {
      p := AtKey(Legacy(slot.uid));
    } else if Usable(r.pending, Pending(slot.uid, token), token, r.now) {
      p := AtKey(Pending(slot.uid, token));
    } else {
      p := AtSlot(slot);
    }
  }

  /** A successful registration leaves its token in the slot only. */
  lemma RegisterConsumes(w: World, e: Event, w': World, p: Place)
    requires Linear(w) && Next(w, e, w') && e.RegisterSession? && RegisterOk(w.keys, e.slot, e.token)
    requires TokenAt(w'.keys, p, e.token)
    ensures p == AtSlot(e.slot)
  {
    var slot, token := e.slot, e.token;
    TokenMoves(w, e, w', p, token);
    var q := AcceptedTokenIsHeld(w.keys, slot, token);
  }

  lemma LinearStep(w: World, e: Event, w': World)
    requires Linear(w) && Next(w, e, w')
    ensures Linear(w')
  {
    forall token, p, q | TokenAt(w'.keys, p, token) && TokenAt(w'.keys, q, token) ensures p == q {
      TokenMoves(w, e, w', p, token);
      TokenMoves(w, e, w', q, token);
      if e.RegisterSession? && token == e.token && RegisterOk(w.keys, e.slot, token) {
        RegisterConsumes(w, e, w', p);
        RegisterConsumes(w, e, w', q);
      }
    }
    forall token, p | TokenAt(w'.keys, p, token) ensures token in w'.issued {
      TokenMoves(w, e, w', p, token);
      if e.RegisterSession? && token == e.token && RegisterOk(w.keys, e.slot, token) {
        var q := AcceptedTokenIsHeld(w.keys, e.slot, token);
      }
    }
    forall uid, t, token | TokenAt(w'.keys, AtKey(Pending(uid, t)), token) ensures t == token {
      TokenMoves(w, e, w', AtKey(Pending(uid, t)), token);
    }
  }

  lemma LinearPreserved()
    ensures Preserved(Next, Linear)
  {
    forall w: World, e: Event, w': World | Linear(w) && Next(w, e, w') ensures Linear(w') {
      LinearStep(w, e, w');
    }
  }

  /** A token is at any time in at most one place: one pending key or one device slot. */
  lemma TokenInOnePlace(ws: seq<World>, es: seq<Event>, i: nat, token: string, p: Place, q: Place)
    requires CredentialRun(ws, es) && i < |ws|
    requires TokenAt(ws[i].keys, p, token) && TokenAt(ws[i].keys, q, token)
    ensures p == q
  {
    LinearPreserved();
    Always(Next, Linear, ws, es, i);
  }

  /** The token can be found, if anywhere, in this slot. */
  ghost predicate OnlyAt(w: World, slot: Slot, token: string) {
    token in w.issued && forall p :: TokenAt(w.keys, p, token) ==> p == AtSlot(slot)
  }

  lemma OnlyAtStep(w: World, e: Event, w': World, slot: Slot, token: string)
    requires OnlyAt(w, slot, token) && Next(w, e, w')
    ensures OnlyAt(w', slot, token)
  {
    forall p | TokenAt(w'.keys, p, token) ensures p == AtSlot(slot) {
      TokenMoves(w, e, w', p, token);
      if e.RegisterSession? && token == e.token && RegisterOk(w.keys, e.slot, token) {
        var q := AcceptedTokenIsHeld(w.keys, e.slot, token);
      }
    }
  }

  lemma {:induction false} OnlyAtFrom(ws: seq<World>, es: seq<Event>, i: nat, j: nat, slot: Slot, token: string)
    requires IsRun(Next, ws, es) && i <= j < |ws| && OnlyAt(ws[i], slot, token)
    ensures OnlyAt(ws[j], slot, token)
    decreases j
  {
    if i < j {
      OnlyAtFrom(ws, es, i, j - 1, slot, token);
      assert Next(ws[j - 1], es[j - 1], ws[j]);
      OnlyAtStep(ws[j - 1], es[j - 1], ws[j], slot, token);
    }
  }

  /**
   A credential consumed on one device can never register another slot, in any continuation of
   the run: not the account's other device and not another account.
   */
  lemma ConsumedTokenIsBound(ws: seq<World>, es: seq<Event>, i: nat, j: nat, other: Slot)
    requires CredentialRun(ws, es) && i < j < |ws|
    requires es[i].RegisterSession? && RegisterOk(ws[i].keys, es[i].slot, es[i].token) && other != es[i].slot
    ensures !RegisterOk(ws[j].keys, other, es[i].token)
  {
    var slot, token := es[i].slot, es[i].token;
    LinearPreserved();
    Always(Next, Linear, ws, es, i);
    assert Next(ws[i], es[i], ws[i + 1]);
    LinearStep(ws[i], es[i], ws[i + 1]);
    assert TokenAt(ws[i + 1].keys, AtSlot(slot), token);
    OnlyAtFrom(ws, es, i + 1, j, slot, token);
    if RegisterOk(ws[j].keys, other, token) {
      var q := AcceptedTokenIsHeld(ws[j].keys, other, token);
    }
  }

  /** An issued token that is held nowhere. */
  ghost predicate Spent(w: World, token: string) {
    token in w.issued && forall p :: !TokenAt(w.keys, p, token)
  }

  /** Once a token has expired, or was replaced or released with its slot, it never works again. */
  lemma {:induction false} SpentForever(ws: seq<World>, es: seq<Event>, i: nat, j: nat, token: string, slot: Slot)
    requires CredentialRun(ws, es) && i <= j < |ws| && Spent(ws[i], token)
    ensures Spent(ws[j], token)
    ensures !RegisterOk(ws[j].keys, slot, token)
  {
    var elsewhere := Slot(slot.uid, if slot.device.Desktop? then Android else Desktop);
    OnlyAtFrom(ws, es, i, j, slot, token);
    OnlyAtFrom(ws, es, i, j, elsewhere, token);
    if RegisterOk(ws[j].keys, slot, token) {
      var q := AcceptedTokenIsHeld(ws[j].keys, slot, token);
    }
  }

  // -------------------------------------------- sessions own at most one slot

  ghost predicate OneSlotEach(w: World) {
    && (forall s, t | s in w.keys.sessions && t in w.keys.sessions ::
          w.keys.sessions[s].value == w.keys.sessions[t].value ==> s == t)
    && (forall s :: s in w.keys.sessions ==> w.keys.sessions[s].value in w.registered)
  }

  lemma OneSlotStep(w: World, e: Event, w': World)
    requires OneSlotEach(w) && Next(w, e, w')
    ensures OneSlotEach(w')
  {
  }

  /** A session id never owns two slots, so refreshing both devices in turn touches one slot at most. */
  lemma SessionOwnsOneSlot(ws: seq<World>, es: seq<Event>, i: nat, s: Slot, t: Slot, session: string)
    requires CredentialRun(ws, es) && i < |ws|
    requires Holds(ws[i].keys.sessions, s, session, ws[i].keys.now)
    requires Holds(ws[i].keys.sessions, t, session, ws[i].keys.now)
    ensures s == t
  {
    forall w: World, e: Event, w': World | OneSlotEach(w) && Next(w, e, w') ensures OneSlotEach(w') {
      OneSlotStep(w, e, w');
    }
    Always(Next, OneSlotEach, ws, es, i);
  }

  // ------------------------------------------------ what each script does, exactly

  /** The key holds the value for at least half a second more, which is when TTL still says one second. */
  predicate Lasting<K>(m: map<K, Entry>, k: K, value: string, now: int) {
    k in m && m[k].value == value && m[k].expires - now >= 500
  }

  /** The same keys and values; only key `k`, if alive, expires at another time. */
  predicate OnlyExtended<K>(m: map<K, Entry>, m': map<K, Entry>, k: K, now: int) {
    && m'.Keys == m.Keys
    && forall x :: x in m ==>
         && m'[x].value == m[x].value
         && m'[x].expires == if x == k && now < m[k].expires then now + 3600000 else m[x].expires
  }

  /** The three keys of one slot have a new lease of an hour; nothing else has changed. */
  predicate Prolonged(r: Keys, r': Keys, slot: Slot) {
    && r'.now == r.now && r'.pending == r.pending
    && OnlyExtended(r.sessions, r'.sessions, slot, r.now)
    && OnlyExtended(r.tokens, r'.tokens, slot, r.now)
    && OnlyExtended(r.routes, r'.routes, slot, r.now)
  }

  /**
   A registration succeeds exactly for a desktop or Android slot and a token that lasts under the
   account's legacy key, its own pending key, or the slot itself. It then publishes token, session
   and route of that slot for an hour, and spends the pending keys that hold the token.
   */
  lemma RegistrationPublishes(ws: seq<World>, es: seq<Event>, i: nat)
    requires CredentialRun(ws, es) && i < |es| && es[i].RegisterSession?
    ensures var r, r', slot, token := ws[i].keys, ws[i + 1].keys, es[i].slot, es[i].token;
            if && (slot.device.Desktop? || slot.device.Android?)
               && (|| Lasting(r.pending, Legacy(slot.uid), token, r.now)
                   || Lasting(r.pending, Pending(slot.uid, token), token, r.now)
                   || Lasting(r.tokens, slot, token, r.now))
            then
              && r' == r.(pending := r'.pending,
                          tokens := r.tokens[slot := Entry(token, r.now + 3600000)],
                          sessions := r.sessions[slot := Entry(es[i].session, r.now + 3600000)],
                          routes := r.routes[slot := Entry(es[i].server, r.now + 3600000)])
              && (forall k :: k in r'.pending <==>
                    && k in r.pending && k != Pending(slot.uid, token)
                    && !(k == Legacy(slot.uid) && r.pending[k].value == token && r.now < r.pending[k].expires))
              && (forall k :: k in r'.pending ==> r'.pending[k] == r.pending[k])
              && ws[i + 1].registered == ws[i].registered + {es[i].session}
            else ws[i + 1] == ws[i]
  {
    assert Next(ws[i], es[i], ws[i + 1]);
  }

  /**
   A refresh of a slot the session holds keeps it alive for an hour: at any later time within it the
   session still holds the slot, with token and route, and after it no longer. Nothing else changes,
   and the refresh of a slot held by anybody else changes nothing at all.
   */
  lemma RefreshExtends(ws: seq<World>, es: seq<Event>, i: nat, later: int)
    requires CredentialRun(ws, es) && i < |es| && es[i].RefreshDevice? && ws[i].keys.now <= later
    ensures var r, r', slot, session := ws[i].keys, ws[i + 1].keys, es[i].slot, es[i].session;
            if Holds(r.sessions, slot, session, r.now) then
              && Prolonged(r, r', slot)
              && (Holds(r'.sessions, slot, session, later) <==> later < r.now + 3600000)
              && (Alive(r'.tokens, slot, later) <==> later < r.now + 3600000)
              && (Alive(r'.routes, slot, later) <==> later < r.now + 3600000)
            else r' == r
  {
    SlotKeysLiveTogether(ws, es, i, es[i].slot);
    assert Next(ws[i], es[i], ws[i + 1]);
  }

  /** A release removes the three keys of a slot the session holds, and otherwise nothing. */
  lemma ReleaseRemoves(ws: seq<World>, es: seq<Event>, i: nat)
    requires CredentialRun(ws, es) && i < |es| && es[i].ReleaseDevice?
    ensures var r, r', slot := ws[i].keys, ws[i + 1].keys, es[i].slot;
            if slot in r.sessions && r.sessions[slot].value == es[i].session && r.now < r.sessions[slot].expires then
              && !Alive(r'.sessions, slot, r.now) && !Alive(r'.tokens, slot, r.now) && !Alive(r'.routes, slot, r.now)
              && r' == r.(sessions := r'.sessions, tokens := r'.tokens, routes := r'.routes)
              && r'.sessions == r.sessions - {slot} && r'.tokens == r.tokens - {slot} && r'.routes == r.routes - {slot}
            else r' == r
  {
    assert Next(ws[i], es[i], ws[i + 1]);
  }

  /** The step takes the slot from its session: a registration on it, or the session's own release. */
  predicate TakesSlot(w: World, e: Event, slot: Slot, session: string) {
    || (e.RegisterSession? && e.slot == slot && RegisterOk(w.keys, slot, e.token))
    || (e.ReleaseDevice? && e.slot == slot && e.session == session)
  }

  /** The slot is held until `until` at least, with this token and route. */
  predicate HeldUntil(r: Keys, slot: Slot, session: string, server: string, token: string, until: int) {
    && slot in r.sessions && r.sessions[slot].value == session && r.sessions[slot].expires >= until
    && slot in r.tokens && r.tokens[slot].value == token && r.tokens[slot].expires >= until
    && slot in r.routes && r.routes[slot].value == server && r.routes[slot].expires >= until
  }

  /**
   A login lasts: for an hour after its registration the session holds its slot, with token and route,
   unless somebody registers on the slot or the session releases it.
   */
  lemma LoginLasts(ws: seq<World>, es: seq<Event>, i: nat, j: nat)
    requires CredentialRun(ws, es) && i < j < |ws| && es[i].RegisterSession? && ws[i + 1] != ws[i]
    requires forall k :: i < k < j ==> !TakesSlot(ws[k], es[k], es[i].slot, es[i].session)
    ensures HeldUntil(ws[j].keys, es[i].slot, es[i].session, es[i].server, es[i].token, ws[i].keys.now + 3600000)
  {
    JustRegistered(ws, es, i);
    StaysHeld(ws, es, i + 1, j, es[i].slot, es[i].session, es[i].server, es[i].token, ws[i].keys.now + 3600000);
  }

  /** And so for an hour after each refresh of the slot it holds. */
  lemma RefreshLasts(ws: seq<World>, es: seq<Event>, i: nat, j: nat)
    requires CredentialRun(ws, es) && i < j < |ws| && es[i].RefreshDevice?
    requires Holds(ws[i].keys.sessions, es[i].slot, es[i].session, ws[i].keys.now)
    requires forall k :: i < k < j ==> !TakesSlot(ws[k], es[k], es[i].slot, es[i].session)
    ensures var r, slot := ws[i].keys, es[i].slot;
            && slot in r.tokens && slot in r.routes
            && HeldUntil(ws[j].keys, slot, es[i].session, r.routes[slot].value, r.tokens[slot].value, r.now + 3600000)
  {
    JustRefreshed(ws, es, i);
    var r, slot := ws[i].keys, es[i].slot;
    StaysHeld(ws, es, i + 1, j, slot, es[i].session, r.routes[slot].value, r.tokens[slot].value, r.now + 3600000);
  }

  lemma JustRefreshed(ws: seq<World>, es: seq<Event>, i: nat)
    requires CredentialRun(ws, es) && i < |es| && es[i].RefreshDevice?
    requires Holds(ws[i].keys.sessions, es[i].slot, es[i].session, ws[i].keys.now)
    ensures var r, slot := ws[i].keys, es[i].slot;
            && ws[i + 1].keys.now == r.now && slot in r.tokens && slot in r.routes
            && HeldUntil(ws[i + 1].keys, slot, es[i].session, r.routes[slot].value, r.tokens[slot].value, r.now + 3600000)
  {
    RefreshExtends(ws, es, i, ws[i].keys.now + 3599999);
  }

  lemma StaysHeld(ws: seq<World>, es: seq<Event>, i: nat, j: nat,
                  slot: Slot, session: string, server: string, token: string, until: int)
    requires CredentialRun(ws, es) && i <= j < |ws| && until <= ws[i].keys.now + 3600000
    requires HeldUntil(ws[i].keys, slot, session, server, token, until)
    requires forall k :: i <= k < j ==> !TakesSlot(ws[k], es[k], slot, session)
    ensures HeldUntil(ws[j].keys, slot, session, server, token, until)
  {
    var next := (w: World, e: Event, w': World) => Next(w, e, w') && !TakesSlot(w, e, slot, session);
    var held := (w: World) =>
      until <= w.keys.now + 3600000 && HeldUntil(w.keys, slot, session, server, token, until);
    forall w: World, e: Event, w': World | held(w) && next(w, e, w') ensures held(w') {
      KeptHeld(w, e, w', slot, session, server, token, until);
    }
    AlwaysFrom(next, held, ws, es, i, j);
  }

  lemma JustRegistered(ws: seq<World>, es: seq<Event>, i: nat)
    requires CredentialRun(ws, es) && i < |es| && es[i].RegisterSession? && ws[i + 1] != ws[i]
    ensures HeldUntil(ws[i + 1].keys, es[i].slot, es[i].session, es[i].server, es[i].token, ws[i].keys.now + 3600000)
    ensures ws[i + 1].keys.now == ws[i].keys.now
  {
    RegistrationPublishes(ws, es, i);
  }

  lemma KeptHeld(w: World, e: Event, w': World, slot: Slot, session: string, server: string, token: string, until: int)
    requires Next(w, e, w') && HeldUntil(w.keys, slot, session, server, token, until)
    requires !TakesSlot(w, e, slot, session) && until <= w.keys.now + 3600000
    ensures HeldUntil(w'.keys, slot, session, server, token, until) && until <= w'.keys.now + 3600000
  {
  }

  /** The step uses the token up, or issues another one under the same legacy key. */
  predicate TakesToken(w: World, e: Event, key: PendingKey, token: string) {
    || (e.RegisterSession? && e.token == token && RegisterOk(w.keys, e.slot, token))
    || (e.Issue? && e.key == key)
  }

  /**
   An issued token works: for five minutes it stays under its key, until it is used or replaced there,
   and as long as half a second of that is left it registers either device of its account.
   */
  lemma {:induction false} IssuedTokenWorks(ws: seq<World>, es: seq<Event>, i: nat, j: nat, device: Device)
    requires CredentialRun(ws, es) && i < j < |ws| && es[i].Issue?
    requires forall k :: i < k < j ==> !TakesToken(ws[k], es[k], es[i].key, es[i].token)
    ensures var r, key := ws[j].keys, es[i].key;
            && key in r.pending && r.pending[key] == Entry(es[i].token, ws[i].keys.now + 300000)
            && ((device.Desktop? || device.Android?) && r.now + 500 <= ws[i].keys.now + 300000 ==>
                  RegisterOk(r, Slot(key.uid, device), es[i].token) && StatusKnows(r, key.uid, es[i].token))
    decreases j
  {
    assert Next(ws[j - 1], es[j - 1], ws[j]);
    if i + 1 < j {
      IssuedTokenWorks(ws, es, i, j - 1, device);
    }
    assert Next(ws[i], es[i], ws[i + 1]);
  }

  /**
   StatusServer accepts every token that RegisterSession accepts, and one more case: a token that is
   only active on the account's other device. Login's own recheck of the token, which looks at the
   same keys as RegisterSession, refuses that one.
   */
  lemma StatusVersusRegister(ws: seq<World>, es: seq<Event>, i: nat, uid: int, device: Device, token: string)
    requires CredentialRun(ws, es) && i < |ws| && ValidDevice(device)
    ensures var r, other := ws[i].keys, Slot(uid, if device.Desktop? then Android else Desktop);
            && (RegisterOk(r, Slot(uid, device), token) ==> StatusKnows(r, uid, token))
            && (StatusKnows(r, uid, token) && !RegisterOk(r, Slot(uid, device), token)
                <==> Usable(r.tokens, other, token, r.now))
  {
    var r, slot := ws[i].keys, Slot(uid, device);
    var other := Slot(uid, if device.Desktop? then Android else Desktop);
    if Usable(r.tokens, other, token, r.now) && RegisterOk(r, slot, token) {
      var p := AcceptedTokenIsHeld(r, slot, token);
      TokenInOnePlace(ws, es, i, token, AtSlot(other), p);
    }
  }

  /** And that case is reached: issue a token, register it on Android, ask for the desktop. */
  lemma StatusKnowsTooMuch(now: int, uid: int, token: string, session: string, server: string)
    returns (ws: seq<World>, es: seq<Event>)
    ensures CredentialRun(ws, es) && |es| == 2
    ensures StatusKnows(ws[2].keys, uid, token) && !RegisterOk(ws[2].keys, Slot(uid, Desktop), token)
  {
    var w := World(Keys(now, map[], map[], map[], map[]), {}, {});
    var pending := map[Pending(uid, token) := Entry(token, now + PENDING_MS)];
    var w1 := World(w.keys.(pending := pending), {token}, {});
    var slot := Slot(uid, Android);
    var w2 := World(Register(w1.keys, slot, session, server, token), {token}, {session});
    ws, es := [w, w1, w2], [Issue(Pending(uid, token), token), RegisterSession(slot, session, server, token)];
    assert RegisterOk(w1.keys, slot, token);
    assert Next(w, es[0], w1) && Next(w1, es[1], w2);
  }

  // ----------------------------------------------------------- implementation

  class SessionKeys {
    var now: int
    var pending: map<PendingKey, Entry>
    var tokens: map<Slot, Entry>
    var sessions: map<Slot, Entry>
    var routes: map<Slot, Entry>
    ghost var issued: set<string>
    ghost var registered: set<string>

    ghost function Abs(): World
      reads this
    {
      World(State(), issued, registered)
    }

    ghost function State(): Keys
      reads this
    {
      Keys(now, pending, tokens, sessions, routes)
    }

    constructor ()
      ensures Initial(Abs())
    {
      now, pending, tokens, sessions, routes := 0, map[], map[], map[], map[];
      issued, registered := {}, {};
    }

    /** StatusServiceImpl::GetChatServer stores the new token; for a fresh UUID that is the Issue event. */
    method IssueToken(uid: int, token: string)
      modifies this`pending, this`issued
      ensures token !in old(issued) ==> Next(old(Abs()), Issue(Pending(uid, token), token), Abs())
      ensures State() == old(State()).(pending := old(pending)[Pending(uid, token) := Entry(token, now + PENDING_MS)])
    {
      pending := pending[Pending(uid, token) := Entry(token, now + PENDING_MS)];
      issued := issued + {token};
    }

    method RegisterSession(slot: Slot, session: string, server: string, token: string) returns (ok: bool)
      modifies this`pending, this`tokens, this`sessions, this`routes, this`registered
      ensures ok == RegisterOk(old(State()), slot, token)
      ensures registered == if ok then old(registered) + {session} else old(registered)
      ensures State() == Register(old(State()), slot, session, server, token)
    {
      if !ValidDevice(slot.device) {
        return false;
      }
      var legacy, own := Legacy(slot.uid), Pending(slot.uid, token);
      var waiting := Usable(pending, legacy, token, now) || Usable(pending, own, token, now);
      if !waiting && !Usable(tokens, slot, token, now) {
        return false;
      }
      tokens := tokens[slot := Entry(token, now + ACTIVE_MS)];
      sessions := sessions[slot := Entry(session, now + ACTIVE_MS)];
      routes := routes[slot := Entry(server, now + ACTIVE_MS)];
      SpendPending(slot.uid, token);
      registered := registered + {session};
      return true;
    }

    method SpendPending(uid: int, token: string)
      modifies this`pending
      ensures pending == old(pending) - Spends(old(State()), uid, token)
    {
      if Holds(pending, Legacy(uid), token, now) {
        pending := pending - {Legacy(uid)};
      }
      pending := pending - {Pending(uid, token)};
    }

    method RefreshSession(uid: int, session: string) returns (found: bool)
      modifies this`tokens, this`sessions, this`routes
      ensures State() == Refresh(old(State()), uid, session)
      ensures found ==> exists device: Device ::
                (device.Desktop? || device.Android?) && Holds(old(sessions), Slot(uid, device), session, now)
                && Prolonged(old(State()), State(), Slot(uid, device))
      ensures !found ==> State() == old(State()) && forall device: Device :: device.Desktop? || device.Android? ==>
                !(Holds(sessions, Slot(uid, device), session, now) && Alive(tokens, Slot(uid, device), now))
      ensures found <==> RefreshOk(old(State()), Slot(uid, Desktop), session)
                         || RefreshOk(old(State()), Slot(uid, Android), session)
    {
      var devices := [Desktop, Android];
      for i := 0 to 2
        invariant State() == old(State())
        invariant forall k :: 0 <= k < i ==> !RefreshOk(old(State()), Slot(uid, devices[k]), session)
      {
        var slot := Slot(uid, devices[i]);
        if Holds(sessions, slot, session, now) && Alive(tokens, slot, now) {
          sessions := Touch(sessions, slot, now);
          tokens := Touch(tokens, slot, now);
          routes := Touch(routes, slot, now);
          assert i == 1 ==> !RefreshOk(old(State()), Slot(uid, devices[0]), session);
          assert Prolonged(old(State()), State(), Slot(uid, devices[i]));
          return true;
        }
      }
      assert !RefreshOk(old(State()), Slot(uid, devices[0]), session);
      assert !RefreshOk(old(State()), Slot(uid, devices[1]), session);
      return false;
    }

    method ReleaseSession(uid: int, session: string)
      modifies this`tokens, this`sessions, this`routes
      ensures State() == Release(old(State()), uid, session)
      ensures forall device: Device :: device.Desktop? || device.Android? ==>
                !Holds(sessions, Slot(uid, device), session, now)
      ensures forall slot :: slot in old(sessions) && slot !in sessions ==>
                slot.uid == uid && slot !in tokens && slot !in routes && old(sessions)[slot].value == session
    {
      var devices := [Desktop, Android];
      for i := 0 to 2
        invariant i == 0 ==> State() == old(State())
        invariant i == 1 ==> State() == ReleaseSlot(old(State()), Slot(uid, Desktop), session)
        invariant i == 2 ==> State() == Release(old(State()), uid, session)
      {
        var slot := Slot(uid, devices[i]);
        if Holds(sessions, slot, session, now) {
          sessions := sessions - {slot};
          tokens := tokens - {slot};
          routes := routes - {slot};
        }
      }
    }
  }
}
