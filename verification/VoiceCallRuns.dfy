/**
 Runs of the call state machine: time passes, login slots are replaced or released, and any
 admissible request may be executed. Time passes only in a step of its own, so a record that
 is live in every state of a stretch of a run is one and the same call.
 */
module VoiceCallRuns {
  import opened Common
  import opened Runs
  import opened VoiceCall

  /** `issued` remembers every session id ever published: ids are UUIDs and are never reissued. */
  datatype World = World(redis: Redis, issued: set<string>)

  datatype Step =
    | Elapse(ms: real)
    | Register(slot: Slot, session: string)
    | Release(slot: Slot)
    | Act(request: Request)

  predicate Enabled(w: World, step: Step) {
    match step
    case Elapse(ms) => ms >= 0.0
    case Register(slot, session) => session !in w.issued
    case Release(slot) => true
    // VoiceCallService::Handle lets nothing else through.
    case Act(q) => q.uid > 0 && q.peer > 0 && q.peer != q.uid
  }

  function Next(w: World, step: Step): World {
    match step
    case Elapse(ms) => w.(redis := w.redis.(now := w.redis.now + ms))
    case Register(slot, session) =>
      World(w.redis.(slots := w.redis.slots[slot := session]), w.issued + {session})
    case Release(slot) => w.(redis := w.redis.(slots := w.redis.slots - {slot}))
    case Act(q) => w.(redis := Transition(w.redis, q).0)
  }

  predicate Initial(w: World) {
    w.redis.calls == map[] && w.redis.inviteLocks == map[] &&
    forall s :: s in w.redis.slots ==> w.redis.slots[s] in w.issued
  }

  predicate Moves(w: World, step: Step, w': World) {
    Enabled(w, step) && w' == Next(w, step)
  }

  ghost predicate CallRun(ws: seq<World>, steps: seq<Step>) {
    IsRun(Moves, ws, steps) && Initial(ws[0])
  }

  // --------------------------------------------------------------- invariant

  function Peer(c: Call, uid: int): int {
    if c.caller.uid == uid then c.callee.uid else c.caller.uid
  }

  predicate GoodTrack(t: Track, kind: Media, now: real) {
    t.meter.Metered? ==> 0.0 <= t.meter.credit <= Burst(kind) && t.meter.stamp <= now
  }

  predicate GoodParty(p: Party, now: real) {
    p.seen <= now && GoodTrack(p.audio, Audio, now) && GoodTrack(p.picture, Picture, now)
  }

  /** The record under `uid` is paired off: it also sits, identical, under the other party. */
  predicate Paired(r: Redis, uid: int)
    requires Live(r, uid)
  {
    var c := Record(r, uid);
    && c.caller.uid != c.callee.uid
    && (uid == c.caller.uid || uid == c.callee.uid)
    && Peer(c, uid) in r.calls
    && r.calls[Peer(c, uid)] == r.calls[uid]
  }

  predicate GoodLease(w: World, uid: int)
    requires Live(w.redis, uid)
  {
    var lease := w.redis.calls[uid];
    && Paired(w.redis, uid)
    && GoodParty(lease.call.caller, w.redis.now)
    && GoodParty(lease.call.callee, w.redis.now)
    && lease.expires <= w.redis.now + (if lease.call.active then LEASE_MS else RING_MS)
    && {lease.call.caller.session, lease.call.callee.session} <= w.issued
    && ValidDevice(lease.call.caller.device) && ValidDevice(lease.call.callee.device)
  }

  ghost predicate Inv(w: World) {
    && (forall u :: Live(w.redis, u) ==> GoodLease(w, u))
    && (forall s :: s in w.redis.slots ==> w.redis.slots[s] in w.issued)
  }

  // ------------------------------------------------- what one request can do

  /** What a request that is answered on an existing call has established. */
  predicate Reaches(r: Redis, q: Request) {
    && Slot(q.uid, q.device) in r.slots && r.slots[Slot(q.uid, q.device)] == q.session
    && Slot(q.peer, q.peerDevice) in r.slots
    && Live(r, q.uid) && Live(r, q.peer)
    && var c := Record(r, q.uid);
    && c.id == q.call
    && (IsCaller(c, q) || IsCallee(c, q))
    && DevicesMatch(c, q)
    && SessionsMatch(c, q, r.slots[Slot(q.peer, q.peerDevice)])
  }

  predicate Creates(r: Redis, q: Request, r': Redis) {
    && q.op.Invite? && ValidDevice(q.device) && ValidDevice(q.peerDevice)
    && Slot(q.uid, q.device) in r.slots && r.slots[Slot(q.uid, q.device)] == q.session
    && Slot(q.peer, q.peerDevice) in r.slots
    && !Live(r, q.uid) && !Live(r, q.peer) && !InviteLocked(r, q.uid)
    && r' == Store(r, q, NewCall(q, r.slots[Slot(q.peer, q.peerDevice)], r.now), RING_MS)
             .(inviteLocks := r.inviteLocks[q.uid := r.now + INVITE_GAP_MS])
  }

  /** An end by either party, or a reject by the callee or cancel by the caller of a ringing call. */
  predicate HangsUp(r: Redis, q: Request) {
    && Reaches(r, q)
    && var c := Record(r, q.uid);
    || q.op.End?
    || (q.op.Reject? && !IsCaller(c, q) && !c.active)
    || (q.op.Cancel? && IsCaller(c, q) && !c.active)
  }

  /** Any other request on an active call whose other party has been silent for too long. */
  predicate TimesOut(r: Redis, q: Request) {
    && Reaches(r, q)
    && var c := Record(r, q.uid);
    && c.active && (q.op.Send? || q.op.Ping? || q.op.Camera? || q.op.OtherOp?)
    && r.now - Me(c, !IsCaller(c, q)).seen > TIMEOUT_MS
  }

  predicate Removes(r: Redis, q: Request, r': Redis, reply: Reply) {
    r' == Delete(r, q) && if reply.Success? then HangsUp(r, q) else TimesOut(r, q)
  }

  predicate SameParty(p: Party, p': Party) {
    p.uid == p'.uid && p.session == p'.session && p.device == p'.device
  }

  predicate SameCall(c: Call, c': Call) {
    c.id == c'.id && c.video == c'.video && SameParty(c.caller, c'.caller) && SameParty(c.callee, c'.callee)
  }

  predicate SeqGrows(p: Party, p': Party) {
    p.audio.lastSeq <= p'.audio.lastSeq && p.picture.lastSeq <= p'.picture.lastSeq
  }

  /** The record may only move forward: never back to ringing, never to a smaller sequence number. */
  predicate Evolves(c: Call, c': Call) {
    && SameCall(c, c')
    && (c.active ==> c'.active)
    && SeqGrows(c.caller, c'.caller) && SeqGrows(c.callee, c'.callee)
  }

  /** A successful accept, frame, ping or camera switch by the side `first` of the call. */
  predicate Renews(r: Redis, q: Request, r': Redis) {
    && Reaches(r, q)
    && q.uid in r'.calls
    && var c, c' := Record(r, q.uid), r'.calls[q.uid].call;
    && r' == Store(r, q, c', LEASE_MS)
    && c'.active
    && Evolves(c, c')
    && (!c.active <==> q.op.Accept?)
    && (q.op.Accept? ==> IsCallee(c, q) && !IsCaller(c, q) && c' == Accepted(c, r.now))
    && (!q.op.Accept? ==>
          var first := IsCaller(c, q);
          && Me(c', !first) == Me(c, !first)
          && r.now - Me(c, !first).seen <= TIMEOUT_MS
          && Me(c', first).seen == (if q.op.Camera? then Me(c, first).seen else r.now)
          && Me(c', first).camera == (if q.op.Camera? then q.cameraOn else Me(c, first).camera))
    && (q.op.Send? ==>
          var t, t' := TrackOf(Me(c, IsCaller(c, q)), q.op.kind), TrackOf(Me(c', IsCaller(c, q)), q.op.kind);
          && t.lastSeq < t'.lastSeq == q.sequence
          && Available(t.meter, q.op.kind, r.now) >= 1.0
          && t'.meter == Metered(Available(t.meter, q.op.kind, r.now) - 1.0, r.now))
    && (q.op != Send(Audio) ==> Me(c', IsCaller(c, q)).audio == Me(c, IsCaller(c, q)).audio)
    && (q.op != Send(Picture) ==> Me(c', IsCaller(c, q)).picture == Me(c, IsCaller(c, q)).picture)
  }

  lemma FrameEffect(r: Redis, q: Request)
    requires Reaches(r, q) && Record(r, q.uid).active && q.op.Send?
    requires var c := Record(r, q.uid); r.now - Me(c, !IsCaller(c, q)).seen <= TIMEOUT_MS
    ensures var (r', reply) := OnFrame(r, q, Record(r, q.uid), q.op.kind);
            (r' == r && !reply.Success?) || (Renews(r, q, r') && reply.Success?)
  {
    var c := Record(r, q.uid);
    var (r', reply) := OnFrame(r, q, c, q.op.kind);
    if reply.Success? {
      assert r' == Store(r, q, r'.calls[q.uid].call, LEASE_MS);
    }
  }

  lemma ActiveEffect(r: Redis, q: Request)
    requires Reaches(r, q) && Record(r, q.uid).active
    requires q.op.Send? || q.op.Ping? || q.op.Camera? || q.op.OtherOp?
    ensures var (r', reply) := OnActive(r, q, Record(r, q.uid));
            || (r' == r && !reply.Success?)
            || Removes(r, q, r', reply)
            || (Renews(r, q, r') && reply.Success?)
  {
    var c := Record(r, q.uid);
    var (r', reply) := OnActive(r, q, c);
    if q.op.Send? && r.now - Me(c, !IsCaller(c, q)).seen <= TIMEOUT_MS {
      FrameEffect(r, q);
    } else if reply.Success? {
      assert r' == Store(r, q, r'.calls[q.uid].call, LEASE_MS);
    }
  }

  /** Every request leaves Redis alone, creates a call, removes one or renews one. */
  lemma EffectOf(r: Redis, q: Request)
    ensures var (r', reply) := Transition(r, q);
            || (r' == r && !reply.Success?)
            || (Creates(r, q, r') && reply.Success?)
            || Removes(r, q, r', reply)
            || (Renews(r, q, r') && reply.Success?)
  {
    if Reaches(r, q) && !q.op.Invite? {
      var c := Record(r, q.uid);
      if c.active && (q.op.Send? || q.op.Ping? || q.op.Camera? || q.op.OtherOp?) {
        ActiveEffect(r, q);
      } else if q.op.Accept? && !c.active {
        assert Store(r, q, Accepted(c, r.now), LEASE_MS).calls[q.uid].call == Accepted(c, r.now);
        assert Evolves(c, Accepted(c, r.now));
      }
    }
  }

  // ------------------------------------------------ the invariant is preserved

  lemma InvCreate(w: World, q: Request, w': World)
    requires Inv(w) && q.uid != q.peer && w'.issued == w.issued && Creates(w.redis, q, w'.redis)
    ensures Inv(w')
  {
    forall u | Live(w'.redis, u) ensures GoodLease(w', u) {
      if u != q.uid && u != q.peer {
        assert Live(w.redis, u) && GoodLease(w, u);
      }
    }
  }

  lemma InvRemove(w: World, q: Request, w': World)
    requires Inv(w) && w'.issued == w.issued && Reaches(w.redis, q) && w'.redis == Delete(w.redis, q)
    ensures Inv(w')
  {
    forall u | Live(w'.redis, u) ensures GoodLease(w', u) {
      assert Live(w.redis, u) && GoodLease(w, u);
    }
  }

  lemma RenewedParty(r: Redis, q: Request, r': Redis, first: bool)
    requires Renews(r, q, r') && GoodParty(Me(Record(r, q.uid), first), r.now)
    ensures GoodParty(Me(r'.calls[q.uid].call, first), r.now)
  {
    var c, c' := Record(r, q.uid), r'.calls[q.uid].call;
    if first == IsCaller(c, q) && q.op.Send? {
      assert GoodTrack(TrackOf(Me(c, first), q.op.kind), q.op.kind, r.now);
    }
  }

  lemma InvRenew(w: World, q: Request, w': World)
    requires Inv(w) && q.uid != q.peer && w'.issued == w.issued && Renews(w.redis, q, w'.redis)
    ensures Inv(w')
  {
    assert GoodLease(w, q.uid);
    RenewedParty(w.redis, q, w'.redis, true);
    RenewedParty(w.redis, q, w'.redis, false);
    forall u | Live(w'.redis, u) ensures GoodLease(w', u) {
      if u != q.uid && u != q.peer {
        assert Live(w.redis, u) && GoodLease(w, u);
      }
    }
  }

  lemma InvStep(w: World, step: Step)
    requires Inv(w) && Enabled(w, step)
    ensures Inv(Next(w, step))
  {
    var w' := Next(w, step);
    if step.Act? {
      var q := step.request;
      EffectOf(w.redis, q);
      if Creates(w.redis, q, w'.redis) {
        InvCreate(w, q, w');
      } else if Removes(w.redis, q, w'.redis, Transition(w.redis, q).1) {
        InvRemove(w, q, w');
      } else if Renews(w.redis, q, w'.redis) {
        InvRenew(w, q, w');
      }
    } else {
      forall u | Live(w'.redis, u) ensures GoodLease(w', u) {
        assert Live(w.redis, u) && GoodLease(w, u);
      }
    }
  }

  lemma InvRun(ws: seq<World>, steps: seq<Step>, i: nat)
    requires CallRun(ws, steps) && i < |ws|
    ensures Inv(ws[i])
  {
    forall w, step, w' | Inv(w) && Moves(w, step, w') ensures Inv(w') {
      InvStep(w, step);
    }
    Always(Moves, Inv, ws, steps, i);
  }

  /** Everything a proof about step `i` of a run needs. */
  lemma At(ws: seq<World>, steps: seq<Step>, i: nat)
    requires CallRun(ws, steps) && i < |steps|
    ensures Inv(ws[i]) && Enabled(ws[i], steps[i]) && ws[i + 1] == Next(ws[i], steps[i])
  {
    InvRun(ws, steps, i);
  }

  /**
   Busy accounts always pair off: in every reachable state a call record sits under exactly its
   two distinct parties, with identical content and expiry.
   */
  lemma BusyAccountsPairOff(ws: seq<World>, steps: seq<Step>, i: nat, uid: int)
    requires CallRun(ws, steps) && i < |ws| && Live(ws[i].redis, uid)
    ensures var r, c := ws[i].redis, Record(ws[i].redis, uid);
            && c.caller.uid != c.callee.uid
            && uid in {c.caller.uid, c.callee.uid}
            && (forall v :: v in {c.caller.uid, c.callee.uid} ==> v in r.calls && r.calls[v] == r.calls[uid])
            && (forall v :: Live(r, v) && Record(r, v) == c ==> v in {c.caller.uid, c.callee.uid})
  {
    InvRun(ws, steps, i);
    var r, c := ws[i].redis, Record(ws[i].redis, uid);
    assert GoodLease(ws[i], uid);
    forall v | Live(r, v) && Record(r, v) == c ensures v in {c.caller.uid, c.callee.uid} {
      assert GoodLease(ws[i], v);
    }
  }

  // ---------------------------------------------------- the life of one call

  ghost predicate LiveThroughout(ws: seq<World>, uid: int, i: nat, j: nat)
    requires i <= j < |ws|
  {
    forall k :: i <= k <= j ==> Live(ws[k].redis, uid)
  }

  /** One step on a call that stays live, seen from one of its parties. */
  lemma LiveStep(w: World, step: Step, uid: int)
    requires Inv(w) && Enabled(w, step) && Live(w.redis, uid) && Live(Next(w, step).redis, uid)
    ensures var r, r' := w.redis, Next(w, step).redis;
            || r'.calls[uid] == r.calls[uid]
            || (&& step.Act? && Renews(r, step.request, r')
                && step.request.uid in {uid, Peer(Record(r, uid), uid)}
                && r.calls[step.request.uid] == r.calls[uid]
                && r'.calls[step.request.uid] == r'.calls[uid]
                && Transition(r, step.request).1.Success?)
  {
    var r, r' := w.redis, Next(w, step).redis;
    assert GoodLease(w, uid);
    if step.Act? {
      EffectOf(r, step.request);
    }
  }

  lemma ForwardStep(w: World, step: Step, uid: int)
    requires Inv(w) && Enabled(w, step) && Live(w.redis, uid) && Live(Next(w, step).redis, uid)
    ensures var r, r' := w.redis, Next(w, step).redis;
            && Evolves(Record(r, uid), Record(r', uid))
            && (r'.calls[uid] == r.calls[uid] || Record(r', uid).active)
  {
    LiveStep(w, step, uid);
  }

  lemma {:induction false} CallOnlyMovesForward(ws: seq<World>, steps: seq<Step>, uid: int, i: nat, j: nat)
    requires CallRun(ws, steps) && i <= j < |ws| && LiveThroughout(ws, uid, i, j)
    ensures Evolves(Record(ws[i].redis, uid), Record(ws[j].redis, uid))
    decreases j
  {
    if i < j {
      CallOnlyMovesForward(ws, steps, uid, i, j - 1);
      At(ws, steps, j - 1);
      ForwardStep(ws[j - 1], steps[j - 1], uid);
    }
  }

  predicate Succeeds(w: World, step: Step) {
    step.Act? && Transition(w.redis, step.request).1.Success?
  }

  /** A record appears only by a successful invitation between its two parties, and rings. */
  lemma BirthStep(w: World, step: Step, uid: int)
    requires Inv(w) && Enabled(w, step) && !Live(w.redis, uid) && Live(Next(w, step).redis, uid)
    ensures Succeeds(w, step) && step.request.op.Invite?
    ensures var c := Record(Next(w, step).redis, uid);
            !c.active && c.caller.uid == step.request.uid && c.callee.uid == step.request.peer
  {
    EffectOf(w.redis, step.request);
  }

  /** Every live call was created by a successful invitation of its caller. */
  lemma LiveCallWasInvited(ws: seq<World>, steps: seq<Step>, uid: int, j: nat) returns (k: nat)
    requires CallRun(ws, steps) && j < |ws| && Live(ws[j].redis, uid)
    ensures k < j && Succeeds(ws[k], steps[k]) && steps[k].request.op.Invite?
    ensures LiveThroughout(ws, uid, k + 1, j)
    ensures var c := Record(ws[j].redis, uid);
            && steps[k].request.uid == c.caller.uid && steps[k].request.peer == c.callee.uid
            && !Record(ws[k + 1].redis, uid).active
            && SameCall(Record(ws[k + 1].redis, uid), c)
  {
    k := Origin((w: World) => Live(w.redis, uid), ws, j);
    At(ws, steps, k);
    BirthStep(ws[k], steps[k], uid);
    CallOnlyMovesForward(ws, steps, uid, k + 1, j);
  }

  /** A call that was ringing and is active has just been accepted by its callee. */
  lemma AcceptStep(w: World, step: Step, uid: int)
    requires Inv(w) && Enabled(w, step) && !(Live(w.redis, uid) && Record(w.redis, uid).active)
    requires Live(Next(w, step).redis, uid) && Record(Next(w, step).redis, uid).active
    ensures Live(w.redis, uid) && Succeeds(w, step) && step.request.op.Accept?
    ensures step.request.uid == Record(w.redis, uid).callee.uid
  {
    if Live(w.redis, uid) {
      LiveStep(w, step, uid);
    } else {
      BirthStep(w, step, uid);
    }
  }

  /** An active call was accepted by its callee while it was ringing, and has been live since. */
  lemma ActiveCallWasAccepted(ws: seq<World>, steps: seq<Step>, uid: int, j: nat) returns (k: nat)
    requires CallRun(ws, steps) && j < |ws| && Live(ws[j].redis, uid) && Record(ws[j].redis, uid).active
    ensures k < j && LiveThroughout(ws, uid, k, j)
    ensures Succeeds(ws[k], steps[k]) && steps[k].request.op.Accept?
    ensures steps[k].request.uid == Record(ws[j].redis, uid).callee.uid
    ensures !Record(ws[k].redis, uid).active
  {
    k := Origin((w: World) => Live(w.redis, uid) && Record(w.redis, uid).active, ws, j);
    At(ws, steps, k);
    AcceptStep(ws[k], steps[k], uid);
    CallOnlyMovesForward(ws, steps, uid, k, j);
  }

  /** A media frame is taken only on an active call, and only with a larger sequence number. */
  lemma AcceptedFrame(ws: seq<World>, steps: seq<Step>, i: nat)
    requires CallRun(ws, steps) && i < |steps| && Succeeds(ws[i], steps[i]) && steps[i].request.op.Send?
    ensures var q := steps[i].request;
            && Live(ws[i].redis, q.uid) && Live(ws[i + 1].redis, q.uid)
            && var c, c' := Record(ws[i].redis, q.uid), Record(ws[i + 1].redis, q.uid);
            && c.active && Evolves(c, c')
            && TrackOf(Me(c, IsCaller(c, q)), q.op.kind).lastSeq < q.sequence
            && TrackOf(Me(c', IsCaller(c, q)), q.op.kind).lastSeq == q.sequence
  {
    EffectOf(ws[i].redis, steps[i].request);
  }

  /**
   Across a whole call the frames of one side and kind carry strictly increasing sequence
   numbers: a replayed or reordered frame is never taken twice.
   */
  lemma FramesNeverReplayed(ws: seq<World>, steps: seq<Step>, i: nat, j: nat)
    requires CallRun(ws, steps) && i < j < |steps|
    requires Succeeds(ws[i], steps[i]) && Succeeds(ws[j], steps[j])
    requires steps[i].request.op.Send? && steps[j].request.op == steps[i].request.op
    requires steps[i].request.uid == steps[j].request.uid
    requires LiveThroughout(ws, steps[i].request.uid, i, j)
    ensures steps[i].request.sequence < steps[j].request.sequence
  {
    var uid := steps[i].request.uid;
    AcceptedFrame(ws, steps, i);
    AcceptedFrame(ws, steps, j);
    CallOnlyMovesForward(ws, steps, uid, i, j);
    CallOnlyMovesForward(ws, steps, uid, i + 1, j);
    InvRun(ws, steps, i);
    InvRun(ws, steps, j);
    assert GoodLease(ws[i], uid) && GoodLease(ws[j], uid);
  }

  // ------------------------------------------------------ the frozen record

  /** One of the two login sessions bound to the call no longer holds its slot. */
  predicate Severed(r: Redis, c: Call) {
    || Slot(c.caller.uid, c.caller.device) !in r.slots
    || r.slots[Slot(c.caller.uid, c.caller.device)] != c.caller.session
    || Slot(c.callee.uid, c.callee.device) !in r.slots
    || r.slots[Slot(c.callee.uid, c.callee.device)] != c.callee.session
  }

  lemma FrozenStep(w: World, step: Step, uid: int)
    requires Inv(w) && Enabled(w, step) && Live(w.redis, uid) && Severed(w.redis, Record(w.redis, uid))
    ensures var r' := Next(w, step).redis;
            uid in r'.calls && r'.calls[uid] == w.redis.calls[uid] && Severed(r', Record(w.redis, uid))
  {
    assert GoodLease(w, uid);
    if step.Act? {
      EffectOf(w.redis, step.request);
      if Reaches(w.redis, step.request) {
        assert GoodLease(w, step.request.uid);
      }
    }
  }

  /**
   Once either session bound to a call is replaced or released, nobody can change that record
   again: it stays exactly as it is until its TTL removes it, and is gone afterwards.
   */
  lemma {:induction false} SeveredCallIsFrozen(ws: seq<World>, steps: seq<Step>, uid: int, i: nat, j: nat)
    requires CallRun(ws, steps) && i <= j < |ws|
    requires Live(ws[i].redis, uid) && Severed(ws[i].redis, Record(ws[i].redis, uid))
    requires ws[j].redis.now < ws[i].redis.calls[uid].expires
    ensures Live(ws[j].redis, uid) && ws[j].redis.calls[uid] == ws[i].redis.calls[uid]
    ensures Severed(ws[j].redis, Record(ws[i].redis, uid))
    decreases j
  {
    if i < j {
      TimeOrder(ws, steps, j - 1, j);
      SeveredCallIsFrozen(ws, steps, uid, i, j - 1);
      At(ws, steps, j - 1);
      FrozenStep(ws[j - 1], steps[j - 1], uid);
    }
  }

  lemma {:induction false} TimeOrder(ws: seq<World>, steps: seq<Step>, i: nat, j: nat)
    requires CallRun(ws, steps) && i <= j < |ws|
    ensures ws[i].redis.now <= ws[j].redis.now
    decreases j
  {
    if i < j {
      TimeOrder(ws, steps, i, j - 1);
      if steps[j - 1].Act? {
        EffectOf(ws[j - 1].redis, steps[j - 1].request);
      }
    }
  }

  // ---------------------------------------------------- losing a silent peer

  function Own(c: Call, uid: int): Party {
    if c.caller.uid == uid then c.caller else c.callee
  }

  ghost predicate Silent(ws: seq<World>, steps: seq<Step>, uid: int, i: nat, j: nat)
    requires |ws| == |steps| + 1 && i <= j < |ws|
  {
    forall k :: i <= k < j ==> !(Succeeds(ws[k], steps[k]) && steps[k].request.uid == uid)
  }

  lemma {:induction false} SilentExpiry(ws: seq<World>, steps: seq<Step>, uid: int, i: nat, j: nat)
    requires CallRun(ws, steps) && i <= j < |ws| && LiveThroughout(ws, uid, i, j)
    requires Record(ws[i].redis, uid).active && Silent(ws, steps, uid, i, j)
    ensures var c, c' := Record(ws[i].redis, uid), Record(ws[j].redis, uid);
            && c'.active
            && Own(c', uid).seen == Own(c, uid).seen
            && (|| ws[j].redis.calls[uid].expires <= ws[i].redis.calls[uid].expires
                || ws[j].redis.calls[uid].expires <= Own(c, uid).seen + TIMEOUT_MS + LEASE_MS)
    decreases j
  {
    if i < j {
      SilentExpiry(ws, steps, uid, i, j - 1);
      At(ws, steps, j - 1);
      assert GoodLease(ws[j - 1], uid);
      LiveStep(ws[j - 1], steps[j - 1], uid);
    }
  }

  /**
   A party that stops acting loses the call: no record outlives TIMEOUT_MS + LEASE_MS after the
   accept or that party's last successful action, however often the other party still pings.
   State `i` is any state after the accept from which `uid` performs no successful action.
   */
  lemma SilentPartyLosesCall(ws: seq<World>, steps: seq<Step>, uid: int, i: nat, j: nat)
    requires CallRun(ws, steps) && i <= j < |ws| && LiveThroughout(ws, uid, i, j)
    requires Record(ws[i].redis, uid).active && Silent(ws, steps, uid, i, j)
    ensures ws[j].redis.now < ws[i].redis.now + 30000.0 + 45000.0
  {
    SilentExpiry(ws, steps, uid, i, j);
    InvRun(ws, steps, i);
    assert GoodLease(ws[i], uid);
  }

  // ------------------------------------------------------- how a call is lost

  /** The request is one of the two parties' of the call under `uid`. */
  predicate OnCallOf(r: Redis, q: Request, uid: int) {
    Live(r, q.uid) && Live(r, uid) && r.calls[q.uid] == r.calls[uid] && uid in {q.uid, q.peer}
  }

  /** Why a step takes the call away from `uid`: its TTL, a party's hang-up, or a silent party. */
  predicate Loses(w: World, step: Step, uid: int) {
    match step
    case Elapse(ms) => Live(w.redis, uid) && w.redis.now + ms >= w.redis.calls[uid].expires
    case Act(q) =>
      && OnCallOf(w.redis, q, uid)
      && if Succeeds(w, step) then HangsUp(w.redis, q) else TimesOut(w.redis, q)
    case _ => false
  }

  lemma LossStep(w: World, step: Step, uid: int)
    requires Inv(w) && Enabled(w, step) && Live(w.redis, uid) && !Live(Next(w, step).redis, uid)
    ensures Loses(w, step, uid)
  {
    assert GoodLease(w, uid);
    if step.Act? {
      EffectOf(w.redis, step.request);
      if Reaches(w.redis, step.request) {
        assert GoodLease(w, step.request.uid);
      }
    }
  }

  /**
   A call that is gone was ended by one of its parties, rejected by the callee or cancelled by the
   caller while it rang, dropped because a party had been silent for over 30 s, or it expired.
   */
  lemma {:induction false} LostCallHasACause(ws: seq<World>, steps: seq<Step>, uid: int, i: nat, j: nat)
    returns (k: nat)
    requires CallRun(ws, steps) && i <= j < |ws| && Live(ws[i].redis, uid) && !LiveThroughout(ws, uid, i, j)
    ensures i <= k < j && LiveThroughout(ws, uid, i, k) && !Live(ws[k + 1].redis, uid)
    ensures Loses(ws[k], steps[k], uid)
    decreases j
  {
    if LiveThroughout(ws, uid, i, j - 1) {
      k := j - 1;
      At(ws, steps, k);
      LossStep(ws[k], steps[k], uid);
    } else {
      k := LostCallHasACause(ws, steps, uid, i, j - 1);
    }
  }

  /** The lease of an active call outlasts LEASE_MS from what was last seen of either party. */
  predicate Covered(w: World, uid: int) {
    Live(w.redis, uid) && Record(w.redis, uid).active ==>
      var lease := w.redis.calls[uid];
      lease.call.caller.seen + LEASE_MS <= lease.expires && lease.call.callee.seen + LEASE_MS <= lease.expires
  }

  ghost predicate AllCovered(w: World) {
    Inv(w) && forall u :: Covered(w, u)
  }

  lemma CoveredStep(w: World, step: Step, uid: int)
    requires Inv(w) && Enabled(w, step) && Covered(w, uid)
    ensures Covered(Next(w, step), uid)
  {
    var w' := Next(w, step);
    InvStep(w, step);
    if Live(w'.redis, uid) {
      assert GoodLease(w', uid);
      if Live(w.redis, uid) {
        LiveStep(w, step, uid);
      } else {
        BirthStep(w, step, uid);
      }
    }
  }

  lemma CoveredRun(ws: seq<World>, steps: seq<Step>, i: nat)
    requires CallRun(ws, steps) && i < |ws|
    ensures AllCovered(ws[i])
  {
    forall w, step, w' | AllCovered(w) && Moves(w, step, w') ensures AllCovered(w') {
      InvStep(w, step);
      forall u ensures Covered(w', u) {
        CoveredStep(w, step, u);
      }
    }
    Always(Moves, AllCovered, ws, steps, i);
  }

  // ----------------------------------------------- what a request changes

  /**
   A successful accept, ping, frame or camera switch renews the lease of both keys and changes only
   what it is for: an accept starts the call and counts as a sign of life of both parties, a ping or
   frame as one of the sender, a camera switch as none; no other record, slot or lock is touched.
   */
  lemma WhatARequestChanges(ws: seq<World>, steps: seq<Step>, i: nat)
    requires CallRun(ws, steps) && i < |steps| && Succeeds(ws[i], steps[i])
    requires var op := steps[i].request.op; op.Accept? || op.Ping? || op.Send? || op.Camera?
    ensures var r, r', q := ws[i].redis, ws[i + 1].redis, steps[i].request;
            && Live(r, q.uid) && Live(r', q.uid)
            && r'.calls[q.peer] == r'.calls[q.uid] && r'.calls[q.uid].expires == r.now + 45000.0
            && r'.calls - {q.uid, q.peer} == r.calls - {q.uid, q.peer}
            && r' == r.(calls := r'.calls)
            && var c, c' := Record(r, q.uid), Record(r', q.uid);
            && SameCall(c, c') && c'.active && (c.active <==> !q.op.Accept?)
            && ChangesOwn(q, r.now, Own(c, q.uid), Own(c', q.uid))
            && Own(c', q.peer) == if q.op.Accept? then Own(c, q.peer).(seen := r.now) else Own(c, q.peer)
  {
    var r, q := ws[i].redis, steps[i].request;
    EffectOf(r, q);
    var c, c' := Record(r, q.uid), ws[i + 1].redis.calls[q.uid].call;
    var first := IsCaller(c, q);
    assert Own(c, q.uid) == Me(c, first) && Own(c, q.peer) == Me(c, !first);
    assert Own(c', q.uid) == Me(c', first) && Own(c', q.peer) == Me(c', !first);
  }

  /** The sender's side of a record before and after his request. */
  predicate ChangesOwn(q: Request, now: real, p: Party, p': Party) {
    && SameParty(p, p')
    && p'.seen == (if q.op.Camera? then p.seen else now)
    && p'.camera == (if q.op.Camera? then q.cameraOn else p.camera)
    && (if q.op == Send(Audio) then p'.audio.lastSeq == q.sequence else p'.audio == p.audio)
    && (if q.op == Send(Picture) then p'.picture.lastSeq == q.sequence else p'.picture == p.picture)
  }

  /** An accept shows both parties alive, a ping or a frame its sender. */
  predicate ShowsLife(w: World, step: Step, uid: int) {
    && Succeeds(w, step)
    && ((step.request.op.Accept? && uid in {step.request.uid, step.request.peer})
        || ((step.request.op.Ping? || step.request.op.Send?) && uid == step.request.uid))
  }

  /** A sign of life is recorded with its time. */
  lemma LifeIsSeen(ws: seq<World>, steps: seq<Step>, i: nat, uid: int)
    requires CallRun(ws, steps) && i < |steps| && ShowsLife(ws[i], steps[i], uid)
    ensures Live(ws[i + 1].redis, uid) && Own(Record(ws[i + 1].redis, uid), uid).seen == ws[i].redis.now
  {
    WhatARequestChanges(ws, steps, i);
  }

  /** What was seen of a party is never forgotten while the call lives. */
  lemma {:induction false} SeenGrows(ws: seq<World>, steps: seq<Step>, uid: int, p: int, i: nat, j: nat)
    requires CallRun(ws, steps) && i <= j < |ws| && LiveThroughout(ws, uid, i, j)
    requires p in {uid, Peer(Record(ws[i].redis, uid), uid)}
    ensures p in {uid, Peer(Record(ws[j].redis, uid), uid)}
    ensures Own(Record(ws[i].redis, uid), p).seen <= Own(Record(ws[j].redis, uid), p).seen
    decreases j
  {
    if i < j {
      SeenGrows(ws, steps, uid, p, i, j - 1);
      At(ws, steps, j - 1);
      assert GoodLease(ws[j - 1], uid);
      LiveStep(ws[j - 1], steps[j - 1], uid);
    }
  }

  /** No party of the call under `uid` hangs up in the steps i..j. */
  ghost predicate NobodyHangsUp(ws: seq<World>, steps: seq<Step>, uid: int, i: nat, j: nat)
    requires |ws| == |steps| + 1 && i <= j < |ws|
  {
    forall k :: i <= k < j ==>
      !(&& Succeeds(ws[k], steps[k]) && OnCallOf(ws[k].redis, steps[k].request, uid)
        && HangsUp(ws[k].redis, steps[k].request))
  }

  /** Party `p` showed life in a step of a..k, at most 30 s before `now`. */
  ghost predicate SeenBy(ws: seq<World>, steps: seq<Step>, p: int, a: nat, k: nat, now: real)
    requires |ws| == |steps| + 1 && k < |ws|
  {
    exists m :: a <= m < k && ShowsLife(ws[m], steps[m], p) && now - ws[m].redis.now <= 30000.0
  }

  /** In each of the states after step `a`, up to `j`, both parties have shown life lately. */
  ghost predicate Attended(ws: seq<World>, steps: seq<Step>, uid: int, peer: int, a: nat, j: nat)
    requires |ws| == |steps| + 1 && j < |ws|
  {
    forall k, p :: a < k <= j && p in {uid, peer} ==> SeenBy(ws, steps, p, a, k, ws[k].redis.now)
  }

  /** Both parties have been seen within TIMEOUT_MS. */
  predicate Attentive(c: Call, now: real) {
    now - c.caller.seen <= TIMEOUT_MS && now - c.callee.seen <= TIMEOUT_MS
  }

  /** A sign of life in step `m` is remembered while the call lives. */
  lemma LifeIsRemembered(ws: seq<World>, steps: seq<Step>, uid: int, p: int, m: nat, n: nat)
    requires CallRun(ws, steps) && m < n < |ws| && ShowsLife(ws[m], steps[m], p)
    requires LiveThroughout(ws, uid, m + 1, n) && p in {uid, Peer(Record(ws[n].redis, uid), uid)}
    ensures ws[m].redis.now <= Own(Record(ws[n].redis, uid), p).seen
  {
    LifeIsSeen(ws, steps, m, p);
    CallOnlyMovesForward(ws, steps, uid, m + 1, n);
    InvRun(ws, steps, m + 1);
    assert GoodLease(ws[m + 1], uid);
    SeenGrows(ws, steps, uid, p, m + 1, n);
  }

  lemma SeenWhen(ws: seq<World>, steps: seq<Step>, p: int, a: nat, k: nat, now: real) returns (m: nat)
    requires |ws| == |steps| + 1 && k < |ws| && SeenBy(ws, steps, p, a, k, now)
    ensures a <= m < k && ShowsLife(ws[m], steps[m], p) && now - ws[m].redis.now <= 30000.0
  {
    m :| a <= m < k && ShowsLife(ws[m], steps[m], p) && now - ws[m].redis.now <= 30000.0;
  }

  /** A step of passing time shows no life. */
  lemma SeenBefore(ws: seq<World>, steps: seq<Step>, p: int, a: nat, n: nat, now: real)
    requires |ws| == |steps| + 1 && n < |steps| && steps[n].Elapse? && SeenBy(ws, steps, p, a, n + 1, now)
    ensures SeenBy(ws, steps, p, a, n, now)
  {
    var m := SeenWhen(ws, steps, p, a, n + 1, now);
    assert m < n;
  }

  /** So a party that showed life lately has been seen lately. */
  lemma LatelySeen(ws: seq<World>, steps: seq<Step>, uid: int, p: int, a: nat, n: nat, now: real)
    requires CallRun(ws, steps) && a < n < |ws| && LiveThroughout(ws, uid, a + 1, n)
    requires p in {uid, Peer(Record(ws[n].redis, uid), uid)} && SeenBy(ws, steps, p, a, n, now)
    ensures now - Own(Record(ws[n].redis, uid), p).seen <= 30000.0
  {
    var m := SeenWhen(ws, steps, p, a, n, now);
    LifeIsRemembered(ws, steps, uid, p, m, n);
  }

  /**
   The other way round: from its accept on, a call whose two parties each show life every 30 s, by
   the accept, a ping or a frame, is never lost, by expiry or otherwise, until one of them hangs up.
   Neither refused requests, nor other calls, nor camera switches (which renew the lease without
   counting as a sign of life) disturb it.
   */
  lemma AttendedCallSurvives(ws: seq<World>, steps: seq<Step>, a: nat, j: nat)
    requires CallRun(ws, steps) && a < j < |ws| && Succeeds(ws[a], steps[a]) && steps[a].request.op.Accept?
    requires Attended(ws, steps, steps[a].request.uid, steps[a].request.peer, a, j)
    requires NobodyHangsUp(ws, steps, steps[a].request.uid, a + 1, j)
    ensures LiveThroughout(ws, steps[a].request.uid, a + 1, j)
    ensures SameActive(ws[a + 1], ws[j], steps[a].request.uid)
  {
    AcceptedIsActive(ws, steps, a);
    AttendedOnward(ws, steps, steps[a].request.uid, steps[a].request.peer, a, j, j);
  }

  /** From an active call on, as long as it is attended and nobody hangs up. */
  lemma {:induction false} AttendedOnward(
    ws: seq<World>, steps: seq<Step>, uid: int, peer: int, a: nat, n: nat, j: nat)
    requires CallRun(ws, steps) && a < n <= j < |ws| && SameActive(ws[a + 1], ws[a + 1], uid)
    requires Peer(Record(ws[a + 1].redis, uid), uid) == peer
    requires Attended(ws, steps, uid, peer, a, j) && NobodyHangsUp(ws, steps, uid, a + 1, j)
    ensures LiveThroughout(ws, uid, a + 1, n) && SameActive(ws[a + 1], ws[n], uid)
    decreases n
  {
    if a + 1 < n {
      AttendedOnward(ws, steps, uid, peer, a, n - 1, j);
      SamePeer(ws[a + 1], ws[n - 1], uid);
      AttendedStep(ws, steps, uid, peer, a, n - 1, j);
      StillActive(ws[a + 1], ws[n - 1], ws[n], uid);
    }
  }

  lemma SeenByBoth(ws: seq<World>, steps: seq<Step>, uid: int, peer: int, a: nat, n: nat, j: nat)
    requires |ws| == |steps| + 1 && a < n < j < |ws| && Attended(ws, steps, uid, peer, a, j)
    ensures SeenBy(ws, steps, uid, a, n, ws[n].redis.now) && SeenBy(ws, steps, peer, a, n, ws[n].redis.now)
    ensures steps[n].Elapse? ==> SeenBy(ws, steps, uid, a, n, ws[n + 1].redis.now)
    ensures steps[n].Elapse? ==> SeenBy(ws, steps, peer, a, n, ws[n + 1].redis.now)
  {
    if steps[n].Elapse? {
      SeenBefore(ws, steps, uid, a, n, ws[n + 1].redis.now);
      SeenBefore(ws, steps, peer, a, n, ws[n + 1].redis.now);
    }
  }

  lemma AttendedMeansAttentive(ws: seq<World>, steps: seq<Step>, uid: int, peer: int, a: nat, n: nat, j: nat)
    requires CallRun(ws, steps) && a < n < j < |ws| && LiveThroughout(ws, uid, a + 1, n)
    requires Peer(Record(ws[n].redis, uid), uid) == peer && Attended(ws, steps, uid, peer, a, j)
    ensures Attentive(Record(ws[n].redis, uid), ws[n].redis.now)
    ensures steps[n].Elapse? ==> Attentive(Record(ws[n].redis, uid), ws[n + 1].redis.now)
  {
    SeenByBoth(ws, steps, uid, peer, a, n, j);
    StaysAttentive(ws, steps, uid, peer, a, n, ws[n].redis.now);
    if steps[n].Elapse? {
      StaysAttentive(ws, steps, uid, peer, a, n, ws[n + 1].redis.now);
    }
  }

  /** The account is in one and the same active call. */
  predicate SameActive(w: World, w': World, uid: int) {
    && Live(w.redis, uid) && Live(w'.redis, uid) && Record(w'.redis, uid).active
    && SameCall(Record(w.redis, uid), Record(w'.redis, uid))
  }

  lemma AttendedStep(ws: seq<World>, steps: seq<Step>, uid: int, peer: int, a: nat, n: nat, j: nat)
    requires CallRun(ws, steps) && a < n < j < |ws| && LiveThroughout(ws, uid, a + 1, n)
    requires Record(ws[n].redis, uid).active && Peer(Record(ws[n].redis, uid), uid) == peer
    requires Attended(ws, steps, uid, peer, a, j) && NobodyHangsUp(ws, steps, uid, a + 1, j)
    ensures SameActive(ws[n], ws[n + 1], uid)
  {
    AttendedMeansAttentive(ws, steps, uid, peer, a, n, j);
    StaysLive(ws, steps, uid, a + 1, n, j);
  }

  lemma SamePeer(w: World, w': World, uid: int)
    requires SameActive(w, w', uid)
    ensures Peer(Record(w'.redis, uid), uid) == Peer(Record(w.redis, uid), uid)
  {
  }

  lemma StillActive(w: World, w': World, w'': World, uid: int)
    requires SameActive(w, w', uid) && SameActive(w', w'', uid)
    ensures SameActive(w, w'', uid)
  {
  }

  lemma AcceptedIsActive(ws: seq<World>, steps: seq<Step>, a: nat)
    requires CallRun(ws, steps) && a < |steps| && Succeeds(ws[a], steps[a]) && steps[a].request.op.Accept?
    ensures SameActive(ws[a + 1], ws[a + 1], steps[a].request.uid)
    ensures Peer(Record(ws[a + 1].redis, steps[a].request.uid), steps[a].request.uid) == steps[a].request.peer
  {
    EffectOf(ws[a].redis, steps[a].request);
  }

  lemma StaysAttentive(ws: seq<World>, steps: seq<Step>, uid: int, peer: int, a: nat, n: nat, now: real)
    requires CallRun(ws, steps) && a < n < |ws| && LiveThroughout(ws, uid, a + 1, n)
    requires Peer(Record(ws[n].redis, uid), uid) == peer
    requires SeenBy(ws, steps, uid, a, n, now) && SeenBy(ws, steps, peer, a, n, now)
    ensures Attentive(Record(ws[n].redis, uid), now)
  {
    LatelySeen(ws, steps, uid, uid, a, n, now);
    LatelySeen(ws, steps, uid, peer, a, n, now);
    InvRun(ws, steps, n);
    assert GoodLease(ws[n], uid);
    BothAttentive(Record(ws[n].redis, uid), uid, now);
  }

  lemma BothAttentive(c: Call, uid: int, now: real)
    requires uid in {c.caller.uid, c.callee.uid} && c.caller.uid != c.callee.uid
    requires now - Own(c, uid).seen <= TIMEOUT_MS && now - Own(c, Peer(c, uid)).seen <= TIMEOUT_MS
    ensures Attentive(c, now)
  {
  }

  lemma StaysLive(ws: seq<World>, steps: seq<Step>, uid: int, i: nat, n: nat, j: nat)
    requires CallRun(ws, steps) && i <= n < j < |ws| && Live(ws[n].redis, uid) && Record(ws[n].redis, uid).active
    requires Attentive(Record(ws[n].redis, uid), ws[n].redis.now)
    requires steps[n].Elapse? ==> Attentive(Record(ws[n].redis, uid), ws[n + 1].redis.now)
    requires NobodyHangsUp(ws, steps, uid, i, j)
    ensures SameActive(ws[n], ws[n + 1], uid)
  {
    At(ws, steps, n);
    CoveredRun(ws, steps, n);
    NotLost(ws[n], steps[n], uid);
    if !Live(ws[n + 1].redis, uid) {
      LossStep(ws[n], steps[n], uid);
    }
    ForwardStep(ws[n], steps[n], uid);
  }

  lemma NotLost(w: World, step: Step, uid: int)
    requires Inv(w) && Covered(w, uid) && Live(w.redis, uid) && Record(w.redis, uid).active
    requires Attentive(Record(w.redis, uid), w.redis.now)
    requires step.Elapse? ==> Attentive(Record(w.redis, uid), Next(w, step).redis.now)
    requires !(Succeeds(w, step) && OnCallOf(w.redis, step.request, uid) && HangsUp(w.redis, step.request))
    ensures !Loses(w, step, uid)
  {
    assert GoodLease(w, uid);
  }

  /** A ringing record is never renewed: an unanswered call is gone 40 s after its invitation. */
  lemma {:induction false} UnansweredCallEnds(ws: seq<World>, steps: seq<Step>, uid: int, i: nat, j: nat)
    requires CallRun(ws, steps) && i < j < |ws| && Succeeds(ws[i], steps[i]) && steps[i].request.op.Invite?
    requires uid in {steps[i].request.uid, steps[i].request.peer}
    requires LiveThroughout(ws, uid, i + 1, j) && !Record(ws[j].redis, uid).active
    ensures ws[j].redis.calls[uid] == ws[i + 1].redis.calls[uid]
    ensures ws[j].redis.now < ws[i].redis.now + 40000.0
    decreases j
  {
    At(ws, steps, j - 1);
    if i + 1 == j {
      EffectOf(ws[i].redis, steps[i].request);
    } else {
      ForwardStep(ws[j - 1], steps[j - 1], uid);
      UnansweredCallEnds(ws, steps, uid, i, j - 1);
      EffectOf(ws[i].redis, steps[i].request);
    }
  }

  // ----------------------------------------------------------- rate limiting

  /** Successful frames of one side and kind in the steps i..j. */
  ghost function Frames(ws: seq<World>, steps: seq<Step>, uid: int, kind: Media, i: nat, j: nat): nat
    requires |ws| == |steps| + 1 && i <= j < |ws|
    decreases j
  {
    if i == j then 0
    else Frames(ws, steps, uid, kind, i, j - 1) +
         (if CountsAs(ws[j - 1], steps[j - 1], uid, kind) then 1 else 0)
  }

  ghost function Tokens(w: World, uid: int, kind: Media): real
    requires Live(w.redis, uid)
  {
    Available(TrackOf(Own(Record(w.redis, uid), uid), kind).meter, kind, w.redis.now)
  }

  predicate CountsAs(w: World, step: Step, uid: int, kind: Media) {
    Succeeds(w, step) && step.request.uid == uid && step.request.op == Send(kind)
  }

  /** Taking a token leaves one less. */
  lemma Spent(m: Meter, kind: Media, now: real)
    requires Available(m, kind, now) >= 1.0
    ensures Available(Metered(Available(m, kind, now) - 1.0, now), kind, now) == Available(m, kind, now) - 1.0
  {
    var left := Available(m, kind, now) - 1.0;
    assert (now - now) * Rate(kind) == 0.0;
    assert left + (now - now) * Rate(kind) == left <= Burst(kind);
  }

  /** A renewal touches a track of `uid` only if it takes a frame of that kind from him. */
  lemma TrackRenewal(w: World, q: Request, w': World, uid: int, kind: Media)
    requires q.uid != q.peer && Live(w.redis, uid) && GoodLease(w, uid) && Renews(w.redis, q, w'.redis)
    requires q.uid in {uid, Peer(Record(w.redis, uid), uid)} && w.redis.calls[q.uid] == w.redis.calls[uid]
    requires Live(w'.redis, uid) && w'.redis.calls[q.uid] == w'.redis.calls[uid]
    ensures var t := TrackOf(Own(Record(w.redis, uid), uid), kind);
            var t' := TrackOf(Own(Record(w'.redis, uid), uid), kind);
            if q.uid == uid && q.op == Send(kind)
            then Available(t.meter, kind, w.redis.now) >= 1.0
                 && t'.meter == Metered(Available(t.meter, kind, w.redis.now) - 1.0, w.redis.now)
            else t'.meter == t.meter
  {
    var c, c' := Record(w.redis, uid), Record(w'.redis, uid);
    var first := c.caller.uid == uid;
    assert Own(c, uid) == Me(c, first) && Own(c', uid) == Me(c', first);
    assert q.uid == uid ==> first == IsCaller(c, q);
  }

  lemma TokenRenewal(w: World, q: Request, w': World, uid: int, kind: Media)
    requires q.uid != q.peer && Live(w.redis, uid) && GoodLease(w, uid) && Renews(w.redis, q, w'.redis)
    requires q.uid in {uid, Peer(Record(w.redis, uid), uid)} && w.redis.calls[q.uid] == w.redis.calls[uid]
    requires Live(w'.redis, uid) && w'.redis.calls[q.uid] == w'.redis.calls[uid]
    ensures Tokens(w', uid, kind) + (if q.uid == uid && q.op == Send(kind) then 1.0 else 0.0)
            == Tokens(w, uid, kind)
  {
    TrackRenewal(w, q, w', uid, kind);
    if q.uid == uid && q.op == Send(kind) {
      Spent(TrackOf(Own(Record(w.redis, uid), uid), kind).meter, kind, w.redis.now);
    }
  }

  /** An untouched record gains the refill of the time that passes, up to the burst. */
  lemma TokenRefill(w: World, w': World, uid: int, kind: Media)
    requires Live(w.redis, uid) && Live(w'.redis, uid) && w'.redis.calls[uid] == w.redis.calls[uid]
    requires w.redis.now <= w'.redis.now
    ensures Tokens(w', uid, kind) <= Tokens(w, uid, kind) + Rate(kind) * (w'.redis.now - w.redis.now)
    ensures || Tokens(w', uid, kind) == Burst(kind)
            || Tokens(w', uid, kind) == Tokens(w, uid, kind) + Rate(kind) * (w'.redis.now - w.redis.now)
  {
  }

  /** A frame that counts always changes the sender's record. */
  lemma FrameTouches(w: World, step: Step, uid: int, kind: Media)
    requires Inv(w) && Enabled(w, step) && CountsAs(w, step, uid, kind) && Live(w.redis, uid)
    ensures Next(w, step).redis.calls[uid] != w.redis.calls[uid]
  {
    EffectOf(w.redis, step.request);
  }

  /** A step that leaves the record as it is counts no frame; the bucket fills meanwhile. */
  lemma TokensWait(w: World, step: Step, uid: int, kind: Media)
    requires Inv(w) && Enabled(w, step) && Live(w.redis, uid) && Live(Next(w, step).redis, uid)
    requires Next(w, step).redis.calls[uid] == w.redis.calls[uid]
    ensures var w' := Next(w, step);
            && !CountsAs(w, step, uid, kind)
            && Tokens(w', uid, kind) <= Tokens(w, uid, kind) + Rate(kind) * (w'.redis.now - w.redis.now)
            && (|| Tokens(w', uid, kind) == Burst(kind)
                || Tokens(w', uid, kind) == Tokens(w, uid, kind) + Rate(kind) * (w'.redis.now - w.redis.now))
  {
    if CountsAs(w, step, uid, kind) {
      FrameTouches(w, step, uid, kind);
    } else {
      TokenRefill(w, Next(w, step), uid, kind);
    }
  }

  /** A step that changes the record takes no time, and a token exactly if it is a frame of that side. */
  lemma TokensTaken(w: World, step: Step, uid: int, kind: Media)
    requires Inv(w) && Enabled(w, step) && Live(w.redis, uid) && Live(Next(w, step).redis, uid)
    requires Next(w, step).redis.calls[uid] != w.redis.calls[uid]
    ensures var w' := Next(w, step);
            && w'.redis.now == w.redis.now
            && Tokens(w', uid, kind) + (if CountsAs(w, step, uid, kind) then 1.0 else 0.0) == Tokens(w, uid, kind)
  {
    assert GoodLease(w, uid);
    LiveStep(w, step, uid);
    TokenRenewal(w, step.request, Next(w, step), uid, kind);
  }

  lemma TokenStep(w: World, step: Step, uid: int, kind: Media)
    requires Inv(w) && Enabled(w, step) && Live(w.redis, uid) && Live(Next(w, step).redis, uid)
    ensures var w' := Next(w, step);
            Tokens(w', uid, kind) + (if CountsAs(w, step, uid, kind) then 1.0 else 0.0)
            <= Tokens(w, uid, kind) + Rate(kind) * (w'.redis.now - w.redis.now)
  {
    if Next(w, step).redis.calls[uid] == w.redis.calls[uid] {
      TokensWait(w, step, uid, kind);
    } else {
      TokensTaken(w, step, uid, kind);
    }
  }

  lemma {:induction false} TokenBalance(ws: seq<World>, steps: seq<Step>, uid: int, kind: Media, i: nat, j: nat)
    requires CallRun(ws, steps) && i <= j < |ws| && LiveThroughout(ws, uid, i, j)
    ensures Frames(ws, steps, uid, kind, i, j) as real + Tokens(ws[j], uid, kind)
            <= Tokens(ws[i], uid, kind) + Rate(kind) * (ws[j].redis.now - ws[i].redis.now)
    decreases j
  {
    if i < j {
      TokenBalance(ws, steps, uid, kind, i, j - 1);
      At(ws, steps, j - 1);
      TokenStep(ws[j - 1], steps[j - 1], uid, kind);
    }
  }

  /**
   In every run, over any window of a call, one side gets through at most a burst plus the
   refill of the window: 10 + 0.06 D audio frames and 2 + 0.008 D pictures in D milliseconds.
   */
  lemma MediaRateBounded(ws: seq<World>, steps: seq<Step>, uid: int, kind: Media, i: nat, j: nat)
    requires CallRun(ws, steps) && i <= j < |ws| && LiveThroughout(ws, uid, i, j)
    ensures var frames, window := Frames(ws, steps, uid, kind, i, j) as real, ws[j].redis.now - ws[i].redis.now;
            frames <= if kind.Audio? then 10.0 + 0.06 * window else 2.0 + 0.008 * window
  {
    TokenBalance(ws, steps, uid, kind, i, j);
    InvRun(ws, steps, j);
    assert GoodLease(ws[j], uid);
    assert Tokens(ws[j], uid, kind) >= 0.0;
  }

  /** What side `uid` of the call could have sent from state `k` to state `j`: a burst and the refill. */
  ghost function Allowance(ws: seq<World>, kind: Media, k: nat, j: nat): real
    requires k <= j < |ws|
  {
    var window := ws[j].redis.now - ws[k].redis.now;
    if kind.Audio? then 10.0 + 0.06 * window else 2.0 + 0.008 * window
  }

  /** A step of a live call takes exactly a frame's token; otherwise the bucket fills, up to the burst. */
  lemma TokensMove(w: World, step: Step, uid: int, kind: Media)
    requires Inv(w) && Enabled(w, step) && Live(w.redis, uid) && Live(Next(w, step).redis, uid)
    ensures var w' := Next(w, step);
            if CountsAs(w, step, uid, kind)
            then Tokens(w', uid, kind) == Tokens(w, uid, kind) - 1.0 && w'.redis.now == w.redis.now
            else || Tokens(w', uid, kind) == Burst(kind)
                 || Tokens(w', uid, kind) == Tokens(w, uid, kind) + Rate(kind) * (w'.redis.now - w.redis.now)
  {
    if Next(w, step).redis.calls[uid] == w.redis.calls[uid] {
      TokensWait(w, step, uid, kind);
    } else {
      TokensTaken(w, step, uid, kind);
    }
  }

  lemma ExplainedOnward(ws: seq<World>, steps: seq<Step>, uid: int, kind: Media, k: nat, j: nat)
    requires |ws| == |steps| + 1 && k <= j < |steps| && Inv(ws[j]) && Moves(ws[j], steps[j], ws[j + 1])
    requires Live(ws[j].redis, uid) && Live(ws[j + 1].redis, uid) && Tokens(ws[j + 1], uid, kind) != Burst(kind)
    requires Tokens(ws[j], uid, kind) == Allowance(ws, kind, k, j) - Frames(ws, steps, uid, kind, k, j) as real
    ensures Tokens(ws[j + 1], uid, kind)
         == Allowance(ws, kind, k, j + 1) - Frames(ws, steps, uid, kind, k, j + 1) as real
  {
    TokensMove(ws[j], steps[j], uid, kind);
  }

  /** The tokens left are what some window ending now has not used up of its allowance. */
  lemma {:induction false} TokensExplained(ws: seq<World>, steps: seq<Step>, uid: int, kind: Media, j: nat)
    returns (k: nat)
    requires CallRun(ws, steps) && j < |ws| && Live(ws[j].redis, uid)
    ensures k <= j && LiveThroughout(ws, uid, k, j)
    ensures Tokens(ws[j], uid, kind)
         == Allowance(ws, kind, k, j) - Frames(ws, steps, uid, kind, k, j) as real
    decreases j
  {
    k := j;
    if j > 0 {
      At(ws, steps, j - 1);
      if Live(ws[j - 1].redis, uid) {
        if Tokens(ws[j], uid, kind) != Burst(kind) {
          k := TokensExplained(ws, steps, uid, kind, j - 1);
          ExplainedOnward(ws, steps, uid, kind, k, j - 1);
        }
      } else {
        FreshTokens(ws[j - 1], steps[j - 1], uid, kind);
      }
    }
  }

  lemma FreshTokens(w: World, step: Step, uid: int, kind: Media)
    requires Inv(w) && Enabled(w, step) && !Live(w.redis, uid) && Live(Next(w, step).redis, uid)
    ensures Tokens(Next(w, step), uid, kind) == Burst(kind)
  {
    EffectOf(w.redis, step.request);
  }

  /** The account is at its limit: one more frame would exceed the allowance of some window of the call. */
  ghost predicate UsedUp(ws: seq<World>, steps: seq<Step>, uid: int, kind: Media, i: nat)
    requires |ws| == |steps| + 1 && i < |ws|
  {
    exists k :: 0 <= k <= i && LiveThroughout(ws, uid, k, i)
             && Frames(ws, steps, uid, kind, k, i) as real + 1.0 > Allowance(ws, kind, k, i)
  }

  /** The bucket is empty exactly if that is so: nobody is throttled earlier than the bound demands. */
  lemma EmptyMeansUsedUp(ws: seq<World>, steps: seq<Step>, uid: int, kind: Media, i: nat)
    requires CallRun(ws, steps) && i < |ws| && Live(ws[i].redis, uid)
    ensures Tokens(ws[i], uid, kind) < 1.0 <==> UsedUp(ws, steps, uid, kind, i)
  {
    var k := TokensExplained(ws, steps, uid, kind, i);
    assert LiveThroughout(ws, uid, k, i);
    if UsedUp(ws, steps, uid, kind, i) {
      var n :| 0 <= n <= i && LiveThroughout(ws, uid, n, i)
               && Frames(ws, steps, uid, kind, n, i) as real + 1.0 > Allowance(ws, kind, n, i);
      TokenBalance(ws, steps, uid, kind, n, i);
    }
  }

  lemma {:induction false} InviteLockHeld(ws: seq<World>, steps: seq<Step>, i: nat, j: nat)
    requires CallRun(ws, steps) && i < j < |ws| && Succeeds(ws[i], steps[i]) && steps[i].request.op.Invite?
    ensures steps[i].request.uid in ws[j].redis.inviteLocks
    ensures ws[j].redis.inviteLocks[steps[i].request.uid] >= ws[i].redis.now + INVITE_GAP_MS
    decreases j
  {
    EffectOf(ws[i].redis, steps[i].request);
    if i + 1 < j {
      InviteLockHeld(ws, steps, i, j - 1);
      TimeOrder(ws, steps, i, j - 1);
      if steps[j - 1].Act? {
        EffectOf(ws[j - 1].redis, steps[j - 1].request);
      }
    }
  }

  /** Two successful invitations of one account are at least three seconds apart. */
  lemma InvitationsAreSpaced(ws: seq<World>, steps: seq<Step>, i: nat, j: nat)
    requires CallRun(ws, steps) && i < j < |steps| && Succeeds(ws[i], steps[i]) && Succeeds(ws[j], steps[j])
    requires steps[i].request.op.Invite? && steps[j].request.op.Invite?
    requires steps[i].request.uid == steps[j].request.uid
    ensures ws[j].redis.now >= ws[i].redis.now + 3000.0
  {
    InviteLockHeld(ws, steps, i, j);
    EffectOf(ws[j].redis, steps[j].request);
  }

  // ------------------------------------------------------- what must succeed

  /** The request `op` as the party `uid` of call `c` would send it. */
  function RequestOn(c: Call, uid: int, op: Op, sequence: int): Request {
    var me, other := Own(c, uid), Own(c, Peer(c, uid));
    Request(me.uid, other.uid, me.session, c.id, op, sequence, c.video, true, me.device, other.device, other.session)
  }

  /** What the script demands of a request of the side `me` of call `c`, other than a frame's token. */
  predicate Permitted(c: Call, q: Request, me: Party, other: Party, now: real) {
    match q.op
    case End => true
    case Reject => !c.active && q.uid == c.callee.uid
    case Cancel => !c.active && q.uid == c.caller.uid
    case Accept => !c.active && q.uid == c.callee.uid && q.video == c.video
    case Ping => c.active && q.video == c.video && now - other.seen <= 30000.0
    case Camera => c.active && q.video && c.video && now - other.seen <= 30000.0
    case Send(Audio) =>
      c.active && q.video == c.video && now - other.seen <= 30000.0 && me.audio.lastSeq < q.sequence
    case Send(Picture) =>
      c.active && q.video && c.video && now - other.seen <= 30000.0 && me.camera && me.picture.lastSeq < q.sequence
    case _ => false
  }

  /** The request comes from one of the two parties of the call it names, on the logins bound to it. */
  predicate Belongs(r: Redis, q: Request) {
    && Live(r, q.uid) && Record(r, q.uid).id == q.call && q.peer == Peer(Record(r, q.uid), q.uid)
    && !Severed(r, Record(r, q.uid))
    && var me, other := Own(Record(r, q.uid), q.uid), Own(Record(r, q.uid), q.peer);
    && me.device == q.device && me.session == q.session && other.device == q.peerDevice
    && (q.peerSession == "" || q.peerSession == other.session)
  }

  /** A request belongs to a call exactly if the script takes it for one of that call. */
  lemma BelongsReaches(w: World, q: Request)
    requires Inv(w) && q.uid != q.peer
    ensures Belongs(w.redis, q) <==>
            Reaches(w.redis, q) && (q.peerSession == "" || q.peerSession == w.redis.slots[Slot(q.peer, q.peerDevice)])
    ensures Belongs(w.redis, q) ==>
              var c, first := Record(w.redis, q.uid), IsCaller(Record(w.redis, q.uid), q);
              Own(c, q.uid) == Me(c, first) && Own(c, q.peer) == Me(c, !first)
              && ValidDevice(q.device) && ValidDevice(q.peerDevice)
  {
    if Live(w.redis, q.uid) {
      assert GoodLease(w, q.uid);
    }
  }

  /**
   When a request on a call succeeds: exactly if it belongs to it and is permitted there, and a frame
   also within the allowance of every window of the call.
   */
  lemma RequestSucceedsExactly(ws: seq<World>, steps: seq<Step>, i: nat)
    requires CallRun(ws, steps) && i < |steps| && steps[i].Act? && !steps[i].request.op.Invite?
    ensures var r, q := ws[i].redis, steps[i].request;
            Succeeds(ws[i], steps[i]) <==>
              && Belongs(r, q)
              && Permitted(Record(r, q.uid), q, Own(Record(r, q.uid), q.uid), Own(Record(r, q.uid), q.peer), r.now)
              && (q.op.Send? ==> !UsedUp(ws, steps, q.uid, q.op.kind, i))
  {
    var w, q := ws[i], steps[i].request;
    InvRun(ws, steps, i);
    At(ws, steps, i);
    BelongsReaches(w, q);
    if Belongs(w.redis, q) && q.op.Send? {
      EmptyMeansUsedUp(ws, steps, q.uid, q.op.kind, i);
    }
    SucceedsIfPermitted(w, q);
  }

  lemma SucceedsIfPermitted(w: World, q: Request)
    requires Inv(w) && q.uid != q.peer && !q.op.Invite?
    ensures Transition(w.redis, q).1.Success? <==>
              && Belongs(w.redis, q)
              && Permitted(Record(w.redis, q.uid), q, Own(Record(w.redis, q.uid), q.uid),
                           Own(Record(w.redis, q.uid), q.peer), w.redis.now)
              && (q.op.Send? ==> Tokens(w, q.uid, q.op.kind) >= 1.0)
  {
    BelongsReaches(w, q);
  }

  /** The request finds, on an active call of the sender, that the other party has been silent for too long. */
  predicate FindsSilence(r: Redis, q: Request) {
    && Belongs(r, q) && Record(r, q.uid).active && q.video == Record(r, q.uid).video
    && (q.op.Send? || q.op.Ping? || q.op.Camera? || q.op.OtherOp?)
    && r.now - Own(Record(r, q.uid), q.peer).seen > 30000.0
  }

  /**
   Ending a call removes exactly its two keys. A refused request costs nothing: nobody's record or
   bucket changes, unless it finds the other party silent for over 30 s, and exactly that call is dropped.
   */
  lemma RefusalCostsNothing(ws: seq<World>, steps: seq<Step>, i: nat)
    requires CallRun(ws, steps) && i < |steps| && steps[i].Act?
    ensures var r, q := ws[i].redis, steps[i].request;
            var ends := q.op.End? || q.op.Reject? || q.op.Cancel?;
            && ((if Succeeds(ws[i], steps[i]) then ends else FindsSilence(r, q)) ==>
                  ws[i + 1] == ws[i].(redis := r.(calls := r.calls - {q.uid, q.peer})))
            && (!Succeeds(ws[i], steps[i]) && !FindsSilence(r, q) ==> ws[i + 1] == ws[i])
  {
    var w, q := ws[i], steps[i].request;
    At(ws, steps, i);
    EffectOf(w.redis, q);
    BelongsReaches(w, q);
    if FindsSilence(w.redis, q) {
      SilenceDrops(w, q);
    } else if !Succeeds(w, steps[i]) {
      OnlySilenceDrops(w, q);
    }
  }

  lemma SilenceDrops(w: World, q: Request)
    requires Inv(w) && q.uid != q.peer && FindsSilence(w.redis, q)
    ensures Transition(w.redis, q) == (w.redis.(calls := w.redis.calls - {q.uid, q.peer}), Invalid)
  {
    BelongsReaches(w, q);
  }

  lemma OnlySilenceDrops(w: World, q: Request)
    requires Inv(w) && q.uid != q.peer && !FindsSilence(w.redis, q) && !Transition(w.redis, q).1.Success?
    ensures Transition(w.redis, q).0 == w.redis
  {
    BelongsReaches(w, q);
  }

  /** An account is locked against inviting exactly if it invited successfully within three seconds. */
  lemma {:induction false} InviteLockOrigin(ws: seq<World>, steps: seq<Step>, j: nat, uid: int) returns (i: nat)
    requires CallRun(ws, steps) && j < |ws| && uid in ws[j].redis.inviteLocks
    ensures i < j && Succeeds(ws[i], steps[i]) && steps[i].request.op.Invite? && steps[i].request.uid == uid
    ensures ws[j].redis.inviteLocks[uid] == ws[i].redis.now + 3000.0
    decreases j
  {
    assert j > 0;
    At(ws, steps, j - 1);
    if steps[j - 1].Act? {
      EffectOf(ws[j - 1].redis, steps[j - 1].request);
    }
    if uid in ws[j - 1].redis.inviteLocks && ws[j - 1].redis.inviteLocks[uid] == ws[j].redis.inviteLocks[uid] {
      i := InviteLockOrigin(ws, steps, j - 1, uid);
    } else {
      i := j - 1;
    }
  }

  /** Both accounts are logged in on the devices named, the sender as himself. */
  predicate LoggedIn(r: Redis, q: Request) {
    && ValidDevice(q.device) && ValidDevice(q.peerDevice)
    && Slot(q.uid, q.device) in r.slots && r.slots[Slot(q.uid, q.device)] == q.session
    && Slot(q.peer, q.peerDevice) in r.slots
    && (q.peerSession == "" || q.peerSession == r.slots[Slot(q.peer, q.peerDevice)])
  }

  /** The account invited successfully less than three seconds before state `i`. */
  ghost predicate InvitedLately(ws: seq<World>, steps: seq<Step>, uid: int, i: nat)
    requires |ws| == |steps| + 1 && i < |ws|
  {
    exists m :: 0 <= m < i && Succeeds(ws[m], steps[m]) && steps[m].request.op.Invite?
             && steps[m].request.uid == uid && ws[i].redis.now < ws[m].redis.now + 3000.0
  }

  lemma LockedMeansInvited(ws: seq<World>, steps: seq<Step>, i: nat, uid: int)
    requires CallRun(ws, steps) && i < |ws|
    ensures InviteLocked(ws[i].redis, uid) <==> InvitedLately(ws, steps, uid, i)
  {
    if InviteLocked(ws[i].redis, uid) {
      var m := InviteLockOrigin(ws, steps, i, uid);
    }
    if InvitedLately(ws, steps, uid, i) {
      var m :| 0 <= m < i && Succeeds(ws[m], steps[m]) && steps[m].request.op.Invite?
               && steps[m].request.uid == uid && ws[i].redis.now < ws[m].redis.now + 3000.0;
      InviteLockHeld(ws, steps, m, i);
    }
  }

  /**
   When an invitation succeeds: exactly if both accounts are logged in and idle and the sender has not
   just sent one. It then rings on both sides: one record for 40 s, bound to the two current logins,
   with both cameras on, no frame seen and both buckets full.
   */
  lemma InvitationRings(ws: seq<World>, steps: seq<Step>, i: nat)
    requires CallRun(ws, steps) && i < |steps| && steps[i].Act? && steps[i].request.op.Invite?
    ensures var r, q := ws[i].redis, steps[i].request;
            Succeeds(ws[i], steps[i]) <==>
              LoggedIn(r, q) && !Live(r, q.uid) && !Live(r, q.peer) && !InvitedLately(ws, steps, q.uid, i)
    ensures Succeeds(ws[i], steps[i]) ==>
              var r, r', q := ws[i].redis, ws[i + 1].redis, steps[i].request;
              && r'.calls - {q.uid, q.peer} == r.calls - {q.uid, q.peer} && r'.slots == r.slots && r'.now == r.now
              && q.uid in r'.calls && q.peer in r'.calls && r'.calls[q.uid] == r'.calls[q.peer]
              && r'.calls[q.uid].expires == r.now + 40000.0
              && var c := r'.calls[q.uid].call;
              && c.id == q.call && !c.active && c.video == q.video
              && c.caller == Newcomer(q.uid, q.session, q.device, r.now)
              && c.callee == Newcomer(q.peer, r.slots[Slot(q.peer, q.peerDevice)], q.peerDevice, r.now)
    ensures !Succeeds(ws[i], steps[i]) ==> ws[i + 1] == ws[i]
  {
    var w, q := ws[i], steps[i].request;
    At(ws, steps, i);
    EffectOf(w.redis, q);
    LockedMeansInvited(ws, steps, i, q.uid);
  }

  function Newcomer(uid: int, session: string, device: Device, now: real): Party {
    Party(uid, session, device, true, now, Track(0, Untouched), Track(0, Untouched))
  }

  predicate SenderLoggedIn(r: Redis, q: Request) {
    && ValidDevice(q.device) && ValidDevice(q.peerDevice)
    && Slot(q.uid, q.device) in r.slots && r.slots[Slot(q.uid, q.device)] == q.session
  }

  /** The request names a live call of the sender with the peer. */
  predicate Concerns(r: Redis, q: Request) {
    Live(r, q.uid) && Record(r, q.uid).id == q.call && q.peer == Peer(Record(r, q.uid), q.uid)
  }

  /** A request that would succeed but for the rate: an invitation, or a frame of the sender's call. */
  predicate ButForRate(r: Redis, q: Request) {
    if q.op.Invite? then LoggedIn(r, q) && !Live(r, q.uid) && !Live(r, q.peer)
    else q.op.Send? && Belongs(r, q)
         && Permitted(Record(r, q.uid), q, Own(Record(r, q.uid), q.uid), Own(Record(r, q.uid), q.peer), r.now)
  }

  lemma RefusalOf(w: World, q: Request)
    requires Inv(w) && q.uid != q.peer
    ensures var r, reply := w.redis, Transition(w.redis, q).1;
            && (reply.Offline? <==> SenderLoggedIn(r, q) && Slot(q.peer, q.peerDevice) !in r.slots)
            && (reply.Busy? <==> LoggedIn(r, q) && q.op.Invite? && (Live(r, q.uid) || Live(r, q.peer)))
            && (reply.TokenInvalid? <==>
                  || !SenderLoggedIn(r, q)
                  || (Slot(q.peer, q.peerDevice) in r.slots && !LoggedIn(r, q))
                  || (LoggedIn(r, q) && !q.op.Invite? && Concerns(r, q) && !Belongs(r, q)))
            && (reply.RateLimited? <==>
                  && ButForRate(r, q)
                  && if q.op.Invite? then InviteLocked(r, q.uid) else Tokens(w, q.uid, q.op.kind) < 1.0)
  {
    BelongsReaches(w, q);
    if Live(w.redis, q.uid) {
      assert GoodLease(w, q.uid);
    }
  }

  /** What a refusal means: each error code but the general one is answered in exactly one situation. */
  lemma RefusalsExplained(ws: seq<World>, steps: seq<Step>, i: nat)
    requires CallRun(ws, steps) && i < |steps| && steps[i].Act?
    ensures var r, q := ws[i].redis, steps[i].request;
            var reply := Transition(r, q).1;
            && (reply.Offline? <==> SenderLoggedIn(r, q) && Slot(q.peer, q.peerDevice) !in r.slots)
            && (reply.Busy? <==> LoggedIn(r, q) && q.op.Invite? && (Live(r, q.uid) || Live(r, q.peer)))
            && (reply.TokenInvalid? <==>
                  || !SenderLoggedIn(r, q)
                  || (Slot(q.peer, q.peerDevice) in r.slots && !LoggedIn(r, q))
                  || (LoggedIn(r, q) && !q.op.Invite? && Concerns(r, q) && !Belongs(r, q)))
            && (reply.RateLimited? <==>
                  && ButForRate(r, q)
                  && if q.op.Invite? then InvitedLately(ws, steps, q.uid, i)
                     else UsedUp(ws, steps, q.uid, q.op.kind, i))
  {
    var w, q := ws[i], steps[i].request;
    At(ws, steps, i);
    RefusalOf(w, q);
    LockedMeansInvited(ws, steps, i, q.uid);
    if ButForRate(w.redis, q) && q.op.Send? {
      EmptyMeansUsedUp(ws, steps, q.uid, q.op.kind, i);
    }
  }

  /** Both parties of an intact call can always hang up, which frees both accounts. */
  lemma EitherSideCanHangUp(ws: seq<World>, steps: seq<Step>, i: nat, uid: int)
    requires CallRun(ws, steps) && i < |ws| && Live(ws[i].redis, uid)
    requires !Severed(ws[i].redis, Record(ws[i].redis, uid))
    ensures var c := Record(ws[i].redis, uid);
            var (r', reply) := Transition(ws[i].redis, RequestOn(c, uid, End, 0));
            reply.Success? && !Live(r', c.caller.uid) && !Live(r', c.callee.uid)
  {
    InvRun(ws, steps, i);
    assert GoodLease(ws[i], uid);
  }

  /**
   Two logged-in, idle accounts get through: the invitation rings both, and an answer within the
   ringing time makes the call active on both.
   */
  lemma CallCanBeEstablished(r: Redis, q: Request, wait: real)
    requires q.op.Invite? && q.uid != q.peer && ValidDevice(q.device) && ValidDevice(q.peerDevice)
    requires Slot(q.uid, q.device) in r.slots && r.slots[Slot(q.uid, q.device)] == q.session
    requires Slot(q.peer, q.peerDevice) in r.slots && q.peerSession == r.slots[Slot(q.peer, q.peerDevice)]
    requires !Live(r, q.uid) && !Live(r, q.peer) && !InviteLocked(r, q.uid)
    requires 0.0 <= wait < 40000.0
    ensures var (ringing, invited) := Transition(r, q);
            && invited.Success? && Live(ringing, q.uid) && Live(ringing, q.peer)
            && var later := ringing.(now := r.now + wait);
            var (active, accepted) := Transition(later, RequestOn(Record(ringing, q.peer), q.peer, Accept, 0));
            && accepted.Success?
            && Live(active, q.uid) && Live(active, q.peer)
            && Record(active, q.uid) == Record(active, q.peer)
            && Record(active, q.uid).active
  {
  }

  /** A sender that leaves 1/rate milliseconds (17 for audio, 125 for pictures) between frames is never throttled. */
  lemma PacedFramesAreNeverThrottled(ws: seq<World>, steps: seq<Step>, i: nat, q: Request)
    requires CallRun(ws, steps) && i < |ws| && q.op.Send? && Live(ws[i].redis, q.uid)
    requires var m := TrackOf(Own(Record(ws[i].redis, q.uid), q.uid), q.op.kind).meter;
             m.Metered? ==> ws[i].redis.now - m.stamp >= if q.op.kind.Audio? then 17.0 else 125.0
    ensures !Transition(ws[i].redis, q).1.RateLimited?
  {
    InvRun(ws, steps, i);
    assert GoodLease(ws[i], q.uid);
    assert Tokens(ws[i], q.uid, q.op.kind) >= 1.0;
    var c := Record(ws[i].redis, q.uid);
    if IsCaller(c, q) || IsCallee(c, q) {
      assert Me(c, IsCaller(c, q)) == Own(c, q.uid);
    }
  }
}
