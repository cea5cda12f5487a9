/**
 The two-party call state machine that RedisMgr::VoiceTransition runs as one Lua script.
 A call record is stored under the keys of both accounts with a time to live; it is bound
 to the two login sessions that were current when it was created.
 Times are milliseconds; Lua numbers are reals.
 */
module VoiceCall {
  import opened Common

  const RING_MS: real := 40000.0        // TTL of a ringing call
  const INVITE_GAP_MS: real := 3000.0   // TTL of the per-account invitation lock
  const TIMEOUT_MS: real := 30000.0     // CallPolicy::TimeoutMs
  const LEASE_MS: real := 45000.0       // CallPolicy::LeaseMs

  datatype Media = Audio | Picture

  function Burst(kind: Media): real {
    if kind.Picture? then 2.0 else 10.0
  }

  function Rate(kind: Media): real {
    if kind.Picture? then 0.008 else 0.06
  }

  /** Credit and time stamp of a token bucket; both are missing until the first frame. */
  datatype Meter = Untouched | Metered(credit: real, stamp: real)

  datatype Track = Track(lastSeq: int, meter: Meter)

  datatype Party = Party(
    uid: int, session: string, device: Device,
    camera: bool, seen: real, audio: Track, picture: Track)

  datatype Call = Call(id: string, caller: Party, callee: Party, active: bool, video: bool)

  /** The value under a `voice:` key together with the time at which Redis drops it. */
  datatype Lease = Lease(call: Call, expires: real)

  datatype Redis = Redis(
    now: real,
    calls: map<int, Lease>,
    slots: map<Slot, string>,
    inviteLocks: map<int, real>)

  datatype Op = Invite | Accept | Reject | Cancel | End | Ping | Send(kind: Media) | Camera | OtherOp

  datatype Request = Request(
    uid: int, peer: int, session: string, call: string, op: Op, sequence: int,
    video: bool, cameraOn: bool, device: Device, peerDevice: Device, peerSession: string)

  /** 0, 1010, 1021, 1022, 1023 and 1025 of the script. */
  datatype Reply = Success | TokenInvalid | Busy | Offline | Invalid | RateLimited

  // ---------------------------------------------------------------- accessors

  predicate Live(r: Redis, uid: int) {
    uid in r.calls && r.now < r.calls[uid].expires
  }

  function Record(r: Redis, uid: int): Call
    requires Live(r, uid)
  {
    r.calls[uid].call
  }

  function Me(c: Call, first: bool): Party {
    if first then c.caller else c.callee
  }

  function WithMe(c: Call, first: bool, p: Party): Call {
    if first then c.(caller := p) else c.(callee := p)
  }

  function TrackOf(p: Party, kind: Media): Track {
    if kind.Picture? then p.picture else p.audio
  }

  function WithTrack(p: Party, kind: Media, t: Track): Party {
    if kind.Picture? then p.(picture := t) else p.(audio := t)
  }

  function Available(m: Meter, kind: Media, now: real): real {
    match m
    case Untouched => Burst(kind)
    case Metered(credit, stamp) =>
      var filled := credit + (now - stamp) * Rate(kind);
      if filled <= Burst(kind) then filled else Burst(kind)
  }

  // ------------------------------------------------------------ specification

  function NewParty(uid: int, session: string, device: Device, now: real): Party {
    Party(uid, session, device, true, now, Track(0, Untouched), Track(0, Untouched))
  }

  function NewCall(q: Request, peerSession: string, now: real): Call {
    Call(q.call, NewParty(q.uid, q.session, q.device, now),
         NewParty(q.peer, peerSession, q.peerDevice, now), false, q.video)
  }

  function Store(r: Redis, q: Request, c: Call, ttl: real): Redis {
    r.(calls := r.calls[q.uid := Lease(c, r.now + ttl)][q.peer := Lease(c, r.now + ttl)])
  }

  function Delete(r: Redis, q: Request): Redis {
    r.(calls := r.calls - {q.uid, q.peer})
  }

  predicate IsCaller(c: Call, q: Request) {
    c.caller.uid == q.uid && c.callee.uid == q.peer
  }

  predicate IsCallee(c: Call, q: Request) {
    c.callee.uid == q.uid && c.caller.uid == q.peer
  }

  predicate DevicesMatch(c: Call, q: Request) {
    var first := IsCaller(c, q);
    Me(c, first).device == q.device && Me(c, !first).device == q.peerDevice
  }

  predicate SessionsMatch(c: Call, q: Request, peerSession: string) {
    var first := IsCaller(c, q);
    Me(c, first).session == q.session && Me(c, !first).session == peerSession
  }

  predicate InviteLocked(r: Redis, uid: int) {
    uid in r.inviteLocks && r.now < r.inviteLocks[uid]
  }

  function OnInvite(r: Redis, q: Request, peerSession: string): (Redis, Reply) {
    if Live(r, q.uid) || Live(r, q.peer) then (r, Busy)
    else if InviteLocked(r, q.uid) then (r, RateLimited)
    else
      (Store(r, q, NewCall(q, peerSession, r.now), RING_MS)
         .(inviteLocks := r.inviteLocks[q.uid := r.now + INVITE_GAP_MS]), Success)
  }

  /** A media frame: its sequence number must grow and the token bucket must hold one token. */
  function OnFrame(r: Redis, q: Request, c: Call, kind: Media): (Redis, Reply) {
    var first := IsCaller(c, q);
    var me := Me(c, first);
    var track := TrackOf(me, kind);
    var available := Available(track.meter, kind, r.now);
    if kind.Picture? && (!c.video || !me.camera) then (r, Invalid)
    else if q.sequence <= track.lastSeq then (r, Invalid)
    else if available < 1.0 then (r, RateLimited)
    else
      var next := WithTrack(me, kind, Track(q.sequence, Metered(available - 1.0, r.now)));
      (Store(r, q, WithMe(c, first, next.(seen := r.now)), LEASE_MS), Success)
  }

  function OnActive(r: Redis, q: Request, c: Call): (Redis, Reply) {
    var first := IsCaller(c, q);
    if r.now - Me(c, !first).seen > TIMEOUT_MS then (Delete(r, q), Invalid)
    else match q.op
      case Send(kind) => OnFrame(r, q, c, kind)
      case Ping => (Store(r, q, WithMe(c, first, Me(c, first).(seen := r.now)), LEASE_MS), Success)
      case Camera =>
        if !c.video then (r, Invalid)
        else (Store(r, q, WithMe(c, first, Me(c, first).(camera := q.cameraOn)), LEASE_MS), Success)
      case _ => (r, Invalid)
  }

  function Accepted(c: Call, now: real): Call {
    c.(active := true, caller := c.caller.(seen := now), callee := c.callee.(seen := now))
  }

  function OnCall(r: Redis, q: Request, c: Call): (Redis, Reply) {
    var first := IsCaller(c, q);
    if q.op.End? || q.op.Reject? || q.op.Cancel? then
      if q.op.Reject? && (first || c.active) then (r, Invalid)
      else if q.op.Cancel? && (!first || c.active) then (r, Invalid)
      else (Delete(r, q), Success)
    else if c.video != q.video then (r, Invalid)
    else if q.op.Accept? then
      if first || c.active then (r, Invalid)
      else (Store(r, q, Accepted(c, r.now), LEASE_MS), Success)
    else if !c.active then (r, Invalid)
    else OnActive(r, q, c)
  }

  /** The whole script: new Redis content and reply code. */
  function Transition(r: Redis, q: Request): (Redis, Reply) {
    var mine, theirs := Slot(q.uid, q.device), Slot(q.peer, q.peerDevice);
    if !ValidDevice(q.device) || !ValidDevice(q.peerDevice) then (r, TokenInvalid)
    else if mine !in r.slots || r.slots[mine] != q.session then (r, TokenInvalid)
    else if theirs !in r.slots then (r, Offline)
    else if q.peerSession != "" && r.slots[theirs] != q.peerSession then (r, TokenInvalid)
    else if q.op.Invite? then OnInvite(r, q, r.slots[theirs])
    else if !Live(r, q.uid) || !Live(r, q.peer) then (r, Invalid)
    else
      var c := Record(r, q.uid);
      if c.id != q.call || Record(r, q.peer).id != q.call then (r, Invalid)
      else if !IsCaller(c, q) && !IsCallee(c, q) then (r, Invalid)
      else if !DevicesMatch(c, q) then (r, TokenInvalid)
      else if !SessionsMatch(c, q, r.slots[theirs]) then (r, TokenInvalid)
      else OnCall(r, q, c)
  }

  // ----------------------------------------------------------- implementation

  /** The keys the script reads and writes, changed in place as the script does. */
  class CallKeys {
    var now: real
    var calls: map<int, Lease>
    var slots: map<Slot, string>
    var inviteLocks: map<int, real>

    ghost function State(): Redis
      reads this
    {
      Redis(now, calls, slots, inviteLocks)
    }

    constructor ()
      ensures State() == Redis(0.0, map[], map[], map[])
    {
      now, calls, slots, inviteLocks := 0.0, map[], map[], map[];
    }

    method Get(uid: int) returns (c: Option<Call>)
      ensures c == if Live(State(), uid) then Some(Record(State(), uid)) else None
    {
      if uid in calls && now < calls[uid].expires {
        return Some(calls[uid].call);
      }
      return None;
    }

    method SetBoth(uid: int, peer: int, c: Call, ttl: real)
      modifies this`calls
      ensures calls == old(calls)[uid := Lease(c, now + ttl)][peer := Lease(c, now + ttl)]
    {
      calls := calls[uid := Lease(c, now + ttl)];
      calls := calls[peer := Lease(c, now + ttl)];
    }

    method VoiceTransition(q: Request) returns (reply: Reply)
      modifies this`calls, this`inviteLocks
      ensures (State(), reply) == Transition(old(State()), q)
    {
      if !ValidDevice(q.device) || !ValidDevice(q.peerDevice) {
        return TokenInvalid;
      }
      var mine, theirs := Slot(q.uid, q.device), Slot(q.peer, q.peerDevice);
      if mine !in slots || slots[mine] != q.session {
        return TokenInvalid;
      }
      if theirs !in slots {
        return Offline;
      }
      var ps := slots[theirs];
      if q.peerSession != "" && ps != q.peerSession {
        return TokenInvalid;
      }
      var raw := Get(q.uid);
      var other := Get(q.peer);
      if q.op.Invite? {
        if raw.Some? || other.Some? {
          return Busy;
        }
        if q.uid in inviteLocks && now < inviteLocks[q.uid] {
          return RateLimited;
        }
        SetBoth(q.uid, q.peer, NewCall(q, ps, now), RING_MS);
        inviteLocks := inviteLocks[q.uid := now + INVITE_GAP_MS];
        return Success;
      }
      if raw.None? || other.None? {
        return Invalid;
      }
      var c, d := raw.value, other.value;
      if c.id != q.call || d.id != q.call {
        return Invalid;
      }
      var first := IsCaller(c, q);
      if !first && !IsCallee(c, q) {
        return Invalid;
      }
      if !DevicesMatch(c, q) || !SessionsMatch(c, q, ps) {
        return TokenInvalid;
      }
      if q.op.End? || q.op.Reject? || q.op.Cancel? {
        if (q.op.Reject? && (first || c.active)) || (q.op.Cancel? && (!first || c.active)) {
          return Invalid;
        }
        calls := calls - {q.uid, q.peer};
        return Success;
      }
      reply := Progress(q, c);
    }

    /** The second half of the script, on a call whose parties and sessions have been checked. */
    method Progress(q: Request, call: Call) returns (reply: Reply)
      requires !q.op.End? && !q.op.Reject? && !q.op.Cancel?
      modifies this`calls
      ensures (State(), reply) == OnCall(old(State()), q, call)
    {
      var c, first := call, IsCaller(call, q);
      if c.video != q.video {
        return Invalid;
      }
      if q.op.Accept? {
        if first || c.active {
          return Invalid;
        }
        c := Accepted(c, now);
      } else if !c.active {
        return Invalid;
      } else if now - Me(c, !first).seen > TIMEOUT_MS {
        calls := calls - {q.uid, q.peer};
        return Invalid;
      } else {
        var me := Me(c, first);
        match q.op {
          case Send(kind) =>
            if kind.Picture? && (!c.video || !me.camera) {
              return Invalid;
            }
            var track := TrackOf(me, kind);
            if q.sequence <= track.lastSeq {
              return Invalid;
            }
            var available := Available(track.meter, kind, now);
            if available < 1.0 {
              return RateLimited;
            }
            me := WithTrack(me, kind, Track(q.sequence, Metered(available - 1.0, now)));
            me := me.(seen := now);
          case Ping =>
            me := me.(seen := now);
          case Camera =>
            if !c.video {
              return Invalid;
            }
            me := me.(camera := q.cameraOn);
          case _ =>
            return Invalid;
        }
        c := WithMe(c, first, me);
      }
      SetBoth(q.uid, q.peer, c, LEASE_MS);
      return Success;
    }
  }
}
