/**
 CSession: one TCP connection. Any thread may queue a message or ask for a close; a strand runs
 one callback at a time. A mutex section or a strand callback is one atomic step.

 `pool` holds the callbacks a thread has posted, or still owes, to the strand. They may run late
 and in any order, so every interleaving of the threads with the strand is a run of this model.
 `admitted`, `started`, `completed`, `requested` and `ran` are history: they record what happened.
 */
module Connection {
  import opened Common
  import opened Runs

  const MAX_SENDQUE: nat := 1000
  const REALTIME_LIMIT: nat := 10
  const KICK_SECONDS: nat := 3

  /** `final` marks the notice that is admitted together with the close marker. */
  datatype Message = Message(body: string, final: bool)

  datatype Task =
    | Pump(arm: bool)                           // StartWrite, after arming the kick deadline
    | CloseNow(callback: Option<int>)           // the closure dispatched by Close
    | Drain(seconds: nat, onClosed: int)        // the closure dispatched by DrainAndClose

  /** The send queue with its single outstanding write, and what passed through it. */
  datatype Outbox = Outbox(
    queue: seq<Message>, writing: bool,
    admitted: seq<Message>, started: seq<Message>, completed: seq<Message>)

  datatype Conn = Conn(
    now: int,
    out: Outbox,
    closed: bool, retiring: bool, closeAfterWrite: bool,
    socketOpen: bool,
    cleanups: nat,                              // CleanupSession calls; cleanup_started_ is cleanups > 0
    handlers: seq<int>,
    deadline: Option<int>, timerPending: bool,
    pool: seq<Task>,
    requested: seq<int>, ran: seq<int>)

  function Fresh(): Conn {
    Conn(0, Outbox([], false, [], [], []), false, false, false, true, 0, [], None, false, [], [], [])
  }

  // ------------------------------------------------------------ specification

  datatype Verdict = Admitted | Refused | Overloaded

  function Admission(s: Conn, realtime: bool): Verdict {
    if s.closed || s.closeAfterWrite then Refused
    else if realtime && |s.out.queue| >= REALTIME_LIMIT then Refused
    else if |s.out.queue| >= MAX_SENDQUE then Overloaded
    else Admitted
  }

  function Push(o: Outbox, m: Message): Outbox {
    o.(queue := o.queue + [m], admitted := o.admitted + [m])
  }

  function Begin(o: Outbox): Outbox
    requires o.queue != []
  {
    o.(writing := true, started := o.started + [o.queue[0]])
  }

  function Finish(o: Outbox): Outbox
    requires o.queue != []
  {
    o.(writing := false, queue := o.queue[1..], completed := o.completed + [o.queue[0]])
  }

  /** The locked section of QueueSend, and the callback it owes to the strand. */
  function OnSend(s: Conn, m: Message, realtime: bool): Conn {
    if !Admission(s, realtime).Admitted? then s
    else s.(out := Push(s.out, m),
            closeAfterWrite := m.final,
            retiring := s.retiring || m.final,
            pool := if s.out.queue == [] || m.final then s.pool + [Pump(m.final)] else s.pool)
  }

  function Ids(callback: Option<int>): seq<int> {
    if callback.Some? then [callback.value] else []
  }

  /** Close called outside the strand: the flag is set at once, the socket is closed later. */
  function OnClose(s: Conn, callback: Option<int>): Conn {
    if s.closed && callback.None? then s
    else s.(closed := true, pool := s.pool + [CloseNow(callback)], requested := s.requested + Ids(callback))
  }

  /** What no strand callback ever does: admit, reopen, lift the close marker or postpone the deadline. */
  predicate Advances(s: Conn, s': Conn) {
    && s'.out.admitted == s.out.admitted && s'.requested == s.requested && s'.pool == s.pool
    && (s.closed ==> s'.closed)
    && (s.closeAfterWrite ==> s'.closeAfterWrite)
    && (s.deadline.Some? ==> s'.deadline.Some? && s'.deadline.value <= s.deadline.value)
  }

  /** CloseOnExecutor, followed by the callback of the closure that called it. */
  function CloseOnExecutor(s: Conn, after: seq<int>): (s': Conn)
    ensures Advances(s, s')
  {
    s.(timerPending := false, socketOpen := false, out := s.out.(queue := []),
       cleanups := if s.cleanups == 0 then 1 else s.cleanups,
       ran := s.ran + s.handlers + after, handlers := [])
  }

  /** Close called on the strand: dispatch runs the closure at once. */
  function CloseInline(s: Conn): (s': Conn)
    ensures Advances(s, s')
  {
    if s.closed then s else CloseOnExecutor(s.(closed := true), [])
  }

  function StartWrite(s: Conn): (s': Conn)
    ensures Advances(s, s') && s' == s.(out := s'.out)
  {
    if s.closed || s.out.writing || s.out.queue == [] then s else s.(out := Begin(s.out))
  }

  function Arm(s: Conn, seconds: nat): (s': Conn)
    ensures Advances(s, s') && s' == s.(deadline := s'.deadline, timerPending := s'.timerPending)
  {
    if s.closed then s
    else if s.deadline.Some? && s.deadline.value <= s.now + seconds then s
    else s.(deadline := Some(s.now + seconds), timerPending := true)
  }

  function Registered(s: Conn, onClosed: int): Conn {
    s.(handlers := s.handlers + [onClosed], retiring := true, closeAfterWrite := true)
  }

  function RunDrain(s: Conn, seconds: nat, onClosed: int): (s': Conn)
    ensures Advances(s, s')
  {
    if s.closed then CloseOnExecutor(s, [onClosed])
    else if s.out.queue == [] then CloseInline(Registered(s, onClosed))
    else StartWrite(Arm(Registered(s, onClosed), seconds))
  }

  function RunTask(s: Conn, t: Task): (s': Conn)
    ensures Advances(s, s')
  {
    match t
    case Pump(arm) => StartWrite(if arm then Arm(s, KICK_SECONDS) else s)
    case CloseNow(callback) => CloseOnExecutor(s, Ids(callback))
    case Drain(seconds, onClosed) => RunDrain(s, seconds, onClosed)
  }

  /** HandleWrite: the outstanding write has finished. */
  function OnWritten(s: Conn, error: bool): (s': Conn)
    requires s.out.queue != [] || s.closed
    ensures Advances(s, s')
  {
    if s.closed then s.(out := s.out.(writing := false))
    else if error then CloseInline(s.(out := s.out.(writing := false)))
    else
      var s1 := s.(out := Finish(s.out));
      if s1.out.queue == [] && s.closeAfterWrite then CloseInline(s1) else StartWrite(s1)
  }

  function Without(pool: seq<Task>, k: nat): seq<Task>
    requires k < |pool|
  {
    pool[..k] + pool[k + 1..]
  }

  datatype Event =
    | Send(message: Message, realtime: bool)
    | Close(callback: Option<int>)
    | DrainAndClose(seconds: nat, onClosed: int)
    | Run(k: nat)
    | Written(error: bool)
    | TimerFires
    | Elapse(seconds: nat)

  predicate Enabled(s: Conn, e: Event) {
    match e
    case Run(k) => k < |s.pool|
    case Written(_) => s.out.writing
    case TimerFires => s.timerPending && s.deadline.Some? && s.deadline.value <= s.now
    case _ => true
  }

  function Step(s: Conn, e: Event): Conn
    requires Enabled(s, e)
    requires e.Written? ==> s.out.queue != [] || s.closed
  {
    match e
    case Send(m, realtime) => OnSend(s, m, realtime)
    case Close(callback) => OnClose(s, callback)
    case DrainAndClose(seconds, onClosed) =>
      s.(pool := s.pool + [Drain(seconds, onClosed)], requested := s.requested + [onClosed])
    case Run(k) => RunTask(s.(pool := Without(s.pool, k)), s.pool[k])
    case Written(error) => OnWritten(s, error)
    case TimerFires => CloseInline(s.(timerPending := false))
    case Elapse(seconds) => s.(now := s.now + seconds)
  }

  predicate Next(s: Conn, e: Event, s': Conn) {
    Enabled(s, e) && (e.Written? ==> s.out.queue != [] || s.closed) && s' == Step(s, e)
  }

  // ------------------------------------------------------- the order of writes

  /** What was handed to the socket is, in order, a prefix of what was admitted. */
  predicate Ordered(o: Outbox) {
    && |o.completed| <= |o.started| <= |o.admitted| && |o.started| <= |o.completed| + 1
    && o.completed == o.admitted[..|o.completed|] && o.started == o.admitted[..|o.started|]
  }

  predicate Queueing(o: Outbox) {
    Ordered(o) && o.queue == o.admitted[|o.completed|..] && |o.queue| <= MAX_SENDQUE
  }

  /** One write at a time: exactly the front of the queue is outstanding while `writing`. */
  predicate Flowing(o: Outbox) {
    && Queueing(o) && |o.started| == |o.completed| + (if o.writing then 1 else 0)
    && (o.writing ==> o.queue != [])
  }

  lemma PushFlows(o: Outbox, m: Message)
    requires Flowing(o) && |o.queue| < MAX_SENDQUE
    ensures Flowing(Push(o, m))
  {
    var all := o.admitted + [m];
    assert all[..|o.completed|] == o.completed && all[..|o.started|] == o.started;
    assert all[|o.completed|..] == o.queue + [m];
  }

  lemma BeginFlows(o: Outbox)
    requires Flowing(o) && !o.writing && o.queue != []
    ensures Flowing(Begin(o))
  {
    assert o.admitted[..|o.started| + 1] == o.started + [o.admitted[|o.started|]];
  }

  lemma FinishFlows(o: Outbox)
    requires Flowing(o) && o.writing
    ensures Flowing(Finish(o)) && (Finish(o).queue == [] ==> Finish(o).completed == o.admitted)
  {
    assert o.admitted[..|o.started|] == o.completed + [o.queue[0]];
  }

  predicate OutboxInv(s: Conn) {
    && Ordered(s.out)
    && (if s.socketOpen then Queueing(s.out) else s.out.queue == [])
    && (!s.closed ==> s.socketOpen && Flowing(s.out))
  }

  lemma OutboxStart(s: Conn)
    requires OutboxInv(s)
    ensures OutboxInv(StartWrite(s))
  {
    if !s.closed && !s.out.writing && s.out.queue != [] {
      BeginFlows(s.out);
    }
  }

  lemma OutboxRun(s: Conn, t: Task)
    requires OutboxInv(s) && (t.CloseNow? ==> s.closed)
    ensures OutboxInv(RunTask(s, t))
  {
    match t
    case Pump(arm) => OutboxStart(if arm then Arm(s, KICK_SECONDS) else s);
    case CloseNow(_) =>
    case Drain(seconds, onClosed) =>
      if !s.closed && s.out.queue != [] {
        OutboxStart(Arm(Registered(s, onClosed), seconds));
      }
  }

  lemma OutboxWritten(s: Conn, error: bool)
    requires OutboxInv(s) && s.out.writing
    ensures s.out.queue != [] || s.closed
    ensures OutboxInv(OnWritten(s, error))
  {
    if !s.closed && !error {
      FinishFlows(s.out);
      OutboxStart(s.(out := Finish(s.out)));
    }
  }

  // -------------------------------------------------------- the other invariants

  predicate HasPump(pool: seq<Task>) {
    exists t :: t in pool && t.Pump?
  }

  predicate HasClose(pool: seq<Task>) {
    exists t :: t in pool && t.CloseNow?
  }

  /** An open connection with something to send has a write in flight or a posted one. */
  predicate NeverStalls(s: Conn) {
    !s.closed && s.out.queue != [] ==> s.out.writing || HasPump(s.pool)
  }

  predicate FinalIsLast(s: Conn) {
    && (forall k :: 0 <= k < |s.out.admitted| - 1 ==> !s.out.admitted[k].final)
    && (s.out.admitted != [] && s.out.admitted[|s.out.admitted| - 1].final ==> s.closeAfterWrite)
  }

  predicate ClosesOnce(s: Conn) {
    && (s.closed && s.socketOpen ==> HasClose(s.pool))
    && (HasClose(s.pool) ==> s.closed)
    && (!s.socketOpen ==> s.closed && s.handlers == [] && !s.timerPending)
    && s.cleanups == (if s.socketOpen then 0 else 1)
    && (s.ran != [] ==> !s.socketOpen)
    && (s.handlers != [] && !s.closed ==> s.closeAfterWrite && s.timerPending && s.out.queue != [])
    && (s.deadline.Some? && !s.closed ==> s.timerPending)
  }

  predicate Inv(s: Conn) {
    OutboxInv(s) && NeverStalls(s) && FinalIsLast(s) && ClosesOnce(s)
  }

  /** Taking one callback out keeps every other one. */
  lemma WithoutKeeps(pool: seq<Task>, k: nat)
    requires k < |pool|
    ensures !pool[k].Pump? && HasPump(pool) ==> HasPump(Without(pool, k))
    ensures !pool[k].CloseNow? ==> (HasClose(pool) <==> HasClose(Without(pool, k)))
    ensures HasClose(Without(pool, k)) ==> HasClose(pool)
    ensures pool[k].CloseNow? ==> HasClose(pool)
  {
    var rest := Without(pool, k);
    assert forall t :: t in pool && t != pool[k] ==> t in rest;
    assert forall t :: t in rest ==> t in pool;
    assert pool[k] in pool;
  }

  lemma SnocKeeps(pool: seq<Task>, t: Task)
    ensures HasPump(pool + [t]) <==> HasPump(pool) || t.Pump?
    ensures HasClose(pool + [t]) <==> HasClose(pool) || t.CloseNow?
  {
    assert t in pool + [t];
    assert forall u :: u in pool ==> u in pool + [t];
    assert forall u :: u in pool + [t] ==> u in pool || u == t;
  }

  lemma FinalSend(s: Conn, m: Message)
    requires FinalIsLast(s) && !s.closeAfterWrite
    ensures FinalIsLast(s.(out := Push(s.out, m), closeAfterWrite := m.final))
  {
    var all := Push(s.out, m).admitted;
    forall k | 0 <= k < |all| - 1 ensures !all[k].final {
      assert all[k] == s.out.admitted[k];
    }
  }

  lemma InvSend(s: Conn, m: Message, realtime: bool)
    requires Inv(s)
    ensures Inv(OnSend(s, m, realtime))
  {
    if Admission(s, realtime).Admitted? {
      var s' := OnSend(s, m, realtime);
      PushFlows(s.out, m);
      FinalSend(s, m);
      SnocKeeps(s.pool, Pump(m.final));
      assert OutboxInv(s') && FinalIsLast(s');
      assert ClosesOnce(s') && NeverStalls(s');
    }
  }

  lemma ClosesOnceArm(s: Conn, seconds: nat)
    requires !s.closed && ClosesOnce(s.(handlers := []))
    requires s.handlers != [] ==> s.closeAfterWrite && s.out.queue != []
    ensures ClosesOnce(Arm(s, seconds))
  {
  }

  lemma ClosesOnceRun(s: Conn, t: Task)
    requires ClosesOnce(s.(pool := s.pool + [t]))
    ensures ClosesOnce(RunTask(s, t))
  {
    SnocKeeps(s.pool, t);
    match t
    case Pump(arm) =>
      if arm && !s.closed {
        ClosesOnceArm(s, KICK_SECONDS);
      }
    case CloseNow(_) =>
    case Drain(seconds, onClosed) =>
      if !s.closed && s.out.queue != [] {
        ClosesOnceArm(Registered(s, onClosed), seconds);
      }
  }

  lemma NeverStallsRun(s: Conn, t: Task)
    requires NeverStalls(s.(pool := s.pool + [t])) && FinalIsLast(s)
    ensures NeverStalls(RunTask(s, t)) && FinalIsLast(RunTask(s, t))
  {
    SnocKeeps(s.pool, t);
  }

  lemma InvRun(s: Conn, k: nat)
    requires Inv(s) && k < |s.pool|
    ensures Inv(Step(s, Run(k)))
  {
    var t, s1 := s.pool[k], s.(pool := Without(s.pool, k));
    WithoutKeeps(s.pool, k);
    SnocKeeps(s1.pool, t);
    assert ClosesOnce(s1.(pool := s1.pool + [t]));
    assert NeverStalls(s1.(pool := s1.pool + [t])) by {
      assert t.Pump? || (HasPump(s.pool) ==> HasPump(s1.pool));
    }
    ClosesOnceRun(s1, t);
    NeverStallsRun(s1, t);
    OutboxRun(s1, t);
  }

  lemma InvWritten(s: Conn, error: bool)
    requires Inv(s) && s.out.writing
    ensures s.out.queue != [] || s.closed
    ensures Inv(OnWritten(s, error))
  {
    OutboxWritten(s, error);
    if !s.closed && !error {
      FinishFlows(s.out);
    }
  }

  lemma InvStep(s: Conn, e: Event)
    requires Inv(s) && Enabled(s, e)
    ensures e.Written? ==> s.out.queue != [] || s.closed
    ensures Inv(Step(s, e))
  {
    match e
    case Send(m, realtime) => InvSend(s, m, realtime);
    case Close(callback) => SnocKeeps(s.pool, CloseNow(callback));
    case DrainAndClose(seconds, onClosed) => SnocKeeps(s.pool, Drain(seconds, onClosed));
    case Run(k) => InvRun(s, k);
    case Written(error) => InvWritten(s, error);
    case TimerFires =>
    case Elapse(_) =>
  }

  // ------------------------------------------------- callbacks are conserved

  function Carries(t: Task, c: int): nat {
    if t == CloseNow(Some(c)) || (t.Drain? && t.onClosed == c) then 1 else 0
  }

  /** How many callbacks on the strand still carry the completion callback `c`. */
  function Waiting(pool: seq<Task>, c: int): nat {
    if pool == [] then 0 else Waiting(pool[..|pool| - 1], c) + Carries(pool[|pool| - 1], c)
  }

  /** Callbacks that are registered or have run. */
  function Settled(s: Conn, c: int): nat {
    Count(s.ran, c) + Count(s.handlers, c)
  }

  /** Every callback handed in is waiting on the strand, registered, or has run: none is lost or doubled. */
  predicate Conserved(s: Conn, c: int) {
    Count(s.requested, c) == Settled(s, c) + Waiting(s.pool, c)
  }

  lemma {:induction false} WaitingWithout(pool: seq<Task>, k: nat, c: int)
    requires k < |pool|
    ensures Waiting(pool, c) == Waiting(Without(pool, k), c) + Carries(pool[k], c)
  {
    var n := |pool| - 1;
    if k == n {
      assert Without(pool, k) == pool[..n];
    } else {
      WaitingWithout(pool[..n], k, c);
      assert Without(pool, k)[..n - 1] == Without(pool[..n], k);
      assert Without(pool, k)[n - 1] == pool[n];
    }
  }

  lemma {:induction false} WaitingSnoc(pool: seq<Task>, t: Task, c: int)
    ensures Waiting(pool + [t], c) == Waiting(pool, c) + Carries(t, c)
  {
    assert (pool + [t])[..|pool|] == pool;
  }

  lemma {:induction false} CountIds(ids: seq<int>, callback: Option<int>, c: int)
    ensures Count(ids + Ids(callback), c) == Count(ids, c) + Carries(CloseNow(callback), c)
  {
    if callback.Some? {
      CountSnoc(ids, callback.value, c);
    } else {
      assert ids + Ids(callback) == ids;
    }
  }

  lemma {:induction false} SettledClose(s: Conn, callback: Option<int>, c: int)
    ensures Settled(CloseOnExecutor(s, Ids(callback)), c) == Settled(s, c) + Carries(CloseNow(callback), c)
  {
    CountConcat(s.ran, s.handlers, c);
    CountIds(s.ran + s.handlers, callback, c);
  }

  lemma {:induction false} SettledRun(s: Conn, t: Task, c: int)
    ensures Settled(RunTask(s, t), c) == Settled(s, c) + Carries(t, c)
  {
    match t
    case Pump(arm) =>
    case CloseNow(callback) => SettledClose(s, callback, c);
    case Drain(seconds, onClosed) =>
      SettledClose(s, Some(onClosed), c);
      CountSnoc(s.handlers, onClosed, c);
      SettledClose(Registered(s, onClosed).(closed := true), None, c);
  }

  lemma {:induction false} SettledInline(s: Conn, c: int)
    ensures Settled(CloseInline(s), c) == Settled(s, c)
  {
    SettledClose(s.(closed := true), None, c);
  }

  lemma {:induction false} SettledWritten(s: Conn, error: bool, c: int)
    requires s.out.queue != [] || s.closed
    ensures Settled(OnWritten(s, error), c) == Settled(s, c)
  {
    if !s.closed {
      SettledInline(s.(out := s.out.(writing := false)), c);
      SettledInline(s.(out := Finish(s.out)), c);
    }
  }

  lemma {:induction false} ConservedClose(s: Conn, callback: Option<int>, c: int)
    requires Conserved(s, c)
    ensures Conserved(OnClose(s, callback), c)
  {
    WaitingSnoc(s.pool, CloseNow(callback), c);
    CountIds(s.requested, callback, c);
  }

  lemma {:induction false} ConservedSend(s: Conn, m: Message, realtime: bool, c: int)
    requires Conserved(s, c)
    ensures Conserved(OnSend(s, m, realtime), c)
  {
    WaitingSnoc(s.pool, Pump(m.final), c);
  }

  lemma {:induction false} DrainCarries(pool: seq<Task>, requested: seq<int>, seconds: nat, onClosed: int, c: int)
    ensures Waiting(pool + [Drain(seconds, onClosed)], c) - Waiting(pool, c)
         == Count(requested + [onClosed], c) - Count(requested, c)
  {
    WaitingSnoc(pool, Drain(seconds, onClosed), c);
    CountSnoc(requested, onClosed, c);
    assert Drain(seconds, onClosed) != CloseNow(Some(c));
  }

  lemma {:induction false} ConservedDrain(s: Conn, seconds: nat, onClosed: int, c: int)
    requires Conserved(s, c)
    ensures Conserved(s.(pool := s.pool + [Drain(seconds, onClosed)], requested := s.requested + [onClosed]), c)
  {
    var s' := s.(pool := s.pool + [Drain(seconds, onClosed)], requested := s.requested + [onClosed]);
    DrainCarries(s.pool, s.requested, seconds, onClosed, c);
    assert Settled(s', c) == Settled(s, c);
  }

  lemma {:induction false} ConservedRun(s: Conn, k: nat, c: int)
    requires Conserved(s, c) && k < |s.pool|
    ensures Conserved(RunTask(s.(pool := Without(s.pool, k)), s.pool[k]), c)
  {
    var s0 := s.(pool := Without(s.pool, k));
    WaitingWithout(s.pool, k, c);
    SettledRun(s0, s.pool[k], c);
    assert Advances(s0, RunTask(s0, s.pool[k]));
  }

  lemma {:induction false} ConservedStep(s: Conn, e: Event, c: int)
    requires Enabled(s, e) && Conserved(s, c)
    requires e.Written? ==> s.out.queue != [] || s.closed
    ensures Conserved(Step(s, e), c)
  {
    match e
    case Send(m, realtime) => ConservedSend(s, m, realtime, c);
    case Close(callback) => ConservedClose(s, callback, c);
    case DrainAndClose(seconds, onClosed) => ConservedDrain(s, seconds, onClosed, c);
    case Run(k) => ConservedRun(s, k, c);
    case Written(error) => SettledWritten(s, error, c);
    case TimerFires => SettledInline(s.(timerPending := false), c);
    case Elapse(_) =>
  }

  // -------------------------------------------------------------------- runs

  ghost predicate ConnRun(ss: seq<Conn>, es: seq<Event>) {
    IsRun(Next, ss, es) && ss[0] == Fresh()
  }

  lemma InvPreserved()
    ensures Preserved(Next, Inv)
  {
    forall s: Conn, e: Event, s': Conn | Inv(s) && Next(s, e, s') ensures Inv(s') {
      InvStep(s, e);
    }
  }

  lemma Reachable(ss: seq<Conn>, es: seq<Event>, i: nat)
    requires ConnRun(ss, es) && i < |ss|
    ensures Inv(ss[i])
  {
    InvPreserved();
    Always(Next, Inv, ss, es, i);
  }

  /** The model blocks nothing: a write completion finds its message unless the connection is closed. */
  lemma CompletionFindsMessage(ss: seq<Conn>, es: seq<Event>, i: nat)
    requires ConnRun(ss, es) && i < |ss| && ss[i].out.writing
    ensures ss[i].out.queue != [] || ss[i].closed
  {
    Reachable(ss, es, i);
  }

  /**
   In every interleaving, what the socket was given is in order a prefix of what was admitted, at
   most one write is outstanding, the queue is bounded, nothing queued is lost while the socket is
   open, and an open connection with something queued has a write in flight or one posted.
   */
  lemma SendsInOrder(ss: seq<Conn>, es: seq<Event>, i: nat)
    requires ConnRun(ss, es) && i < |ss|
    ensures var s, o := ss[i], ss[i].out;
            && o.completed <= o.started <= o.admitted
            && |o.started| <= |o.completed| + 1
            && |o.queue| <= 1000
            && (s.socketOpen ==> o.admitted == o.completed + o.queue)
            && (!s.closed && o.queue != [] ==> o.writing || HasPump(s.pool))
  {
    Reachable(ss, es, i);
    var o := ss[i].out;
    assert o.admitted == o.admitted[..|o.completed|] + o.admitted[|o.completed|..];
  }

  predicate Sealed(s: Conn) {
    s.closed || s.closeAfterWrite
  }

  predicate SealedSince(s: Conn, s': Conn) {
    Sealed(s) ==> Sealed(s') && s'.out.admitted == s.out.admitted
  }

  predicate NoLater(s: Conn, s': Conn) {
    s.deadline.Some? ==> s'.deadline.Some? && s'.deadline.value <= s.deadline.value
  }

  lemma StepMovesOn(s: Conn, e: Event, s': Conn)
    requires Next(s, e, s')
    ensures SealedSince(s, s') && NoLater(s, s')
  {
    if e.Run? {
      assert Advances(s.(pool := s'.pool), s');
    } else if e.Written? {
      assert Advances(s, s');
    } else if e.TimerFires? {
      assert Advances(s.(timerPending := false), s');
    }
  }

  lemma EveryStepMovesOn()
    ensures Extends(Next, Inv, SealedSince) && Extends(Next, Inv, NoLater)
  {
    forall s0: Conn, s: Conn, e: Event, s': Conn | SealedSince(s0, s) && Next(s, e, s') ensures SealedSince(s0, s') {
      StepMovesOn(s, e, s');
    }
    forall s0: Conn, s: Conn, e: Event, s': Conn | NoLater(s0, s) && Next(s, e, s') ensures NoLater(s0, s') {
      StepMovesOn(s, e, s');
    }
  }

  /** Once a final notice is admitted, or a drain or close has begun, nothing is admitted any more. */
  lemma NothingAfterSeal(ss: seq<Conn>, es: seq<Event>, i: nat, j: nat)
    requires ConnRun(ss, es) && i <= j < |ss|
    requires Sealed(ss[i]) || exists m :: m in ss[i].out.admitted && m.final
    ensures ss[j].out.admitted == ss[i].out.admitted && Sealed(ss[j])
  {
    Reachable(ss, es, i);
    InvPreserved();
    EveryStepMovesOn();
    Across(Next, Inv, SealedSince, ss, es, i, j);
  }

  /** So a final notice is the last message ever admitted, and the last one ever written. */
  lemma FinalNoticeIsLast(ss: seq<Conn>, es: seq<Event>, i: nat, k: nat)
    requires ConnRun(ss, es) && i < |ss| && k < |ss[i].out.admitted| && ss[i].out.admitted[k].final
    ensures k == |ss[i].out.admitted| - 1
    ensures k < |ss[i].out.started| ==> ss[i].out.started == ss[i].out.admitted
  {
    Reachable(ss, es, i);
  }

  lemma CallbackConserved(ss: seq<Conn>, es: seq<Event>, i: nat, c: int)
    requires ConnRun(ss, es) && i < |ss|
    ensures Conserved(ss[i], c)
  {
    var conserved := (s: Conn) => Conserved(s, c);
    forall s: Conn, e: Event, s': Conn | conserved(s) && Next(s, e, s') ensures conserved(s') {
      ConservedStep(s, e, c);
    }
    Always(Next, conserved, ss, es, i);
  }

  /** Nothing is left to happen: no callback on the strand and no drain timer. */
  predicate Quiet(s: Conn) {
    s.pool == [] && !s.timerPending
  }

  /**
   Callbacks of Close and DrainAndClose: none runs before the socket is closed, none runs more
   often than it was handed in, and once nothing is pending each has run exactly as often.
   */
  lemma CallbacksRunOnceAfterClose(ss: seq<Conn>, es: seq<Event>, i: nat, c: int)
    requires ConnRun(ss, es) && i < |ss|
    ensures ss[i].ran != [] ==> !ss[i].socketOpen
    ensures Count(ss[i].ran, c) <= Count(ss[i].requested, c)
    ensures Quiet(ss[i]) ==> Count(ss[i].ran, c) == Count(ss[i].requested, c)
  {
    Reachable(ss, es, i);
    CallbackConserved(ss, es, i, c);
  }

  /** The server's cleanup runs at most once, exactly when the socket has been closed. */
  lemma CleanupRunsOnce(ss: seq<Conn>, es: seq<Event>, i: nat)
    requires ConnRun(ss, es) && i < |ss|
    ensures ss[i].cleanups == if ss[i].socketOpen then 0 else 1
    ensures ss[i].closed && Quiet(ss[i]) ==> ss[i].cleanups == 1
  {
    Reachable(ss, es, i);
  }

  /** The drain deadline, once armed, never moves later. */
  lemma DeadlineNeverLater(ss: seq<Conn>, es: seq<Event>, i: nat, j: nat)
    requires ConnRun(ss, es) && i <= j < |ss| && ss[i].deadline.Some?
    ensures ss[j].deadline.Some? && ss[j].deadline.value <= ss[i].deadline.value
  {
    InvPreserved();
    EveryStepMovesOn();
    Across(Next, Inv, NoLater, ss, es, i, j);
  }

  // ------------------------------------------------ what each step does, exactly

  /**
   A message is admitted exactly if the connection is not sealed and the queue is shorter than its
   limit, 10 for late audio and pictures and 1000 for anything else. It then goes to the back of the
   queue; a final notice seals and retires the connection with it; a write is posted for a queue that
   was empty, and for a final notice. A refused message changes nothing.
   */
  lemma SendAdmittedExactly(ss: seq<Conn>, es: seq<Event>, i: nat)
    requires ConnRun(ss, es) && i < |es| && es[i].Send?
    ensures var s, s', m := ss[i], ss[i + 1], es[i].message;
            if !Sealed(s) && |s.out.queue| < (if es[i].realtime then 10 else 1000) then
              && s'.out == s.out.(queue := s.out.queue + [m], admitted := s.out.admitted + [m])
              && s'.closeAfterWrite == m.final && s'.retiring == (s.retiring || m.final)
              && s'.pool == s.pool + (if |s.out.queue| == 0 || m.final then [Pump(m.final)] else [])
              && s' == s.(out := s'.out, closeAfterWrite := m.final, retiring := s'.retiring, pool := s'.pool)
            else s' == s
  {
    Reachable(ss, es, i);
    assert Next(ss[i], es[i], ss[i + 1]);
    assert ss[i].pool + [] == ss[i].pool;
  }

  /** A close takes effect at once, and the socket is closed already or its closing callback is posted. */
  lemma CloseTakesEffect(ss: seq<Conn>, es: seq<Event>, i: nat)
    requires ConnRun(ss, es) && i < |es| && es[i].Close?
    ensures ss[i + 1].closed && (ss[i + 1].socketOpen ==> HasClose(ss[i + 1].pool))
    ensures es[i].callback.Some? ==> es[i].callback.value in ss[i + 1].requested
  {
    Reachable(ss, es, i + 1);
    assert Next(ss[i], es[i], ss[i + 1]);
  }

  /** The step cuts an open connection: the deadline, a failed write, the last write after a seal, or an idle drain. */
  predicate EndsItself(s: Conn, e: Event) {
    match e
    case TimerFires => true
    case Written(error) => error || (s.closeAfterWrite && |s.out.queue| == 1)
    case Run(k) => k < |s.pool| && s.pool[k].Drain? && s.out.queue == []
    case _ => false
  }

  /**
   An open connection is closed by a Close, when its drain deadline has passed, by a failed write, by
   the last write after a final notice or drain, or by a drain with nothing to send, and by nothing
   else; in the last four cases the socket goes with it. Otherwise a socket closes with the posted
   callback of a Close, or a drain that finds the connection closed.
   */
  lemma ClosesExactly(ss: seq<Conn>, es: seq<Event>, i: nat)
    requires ConnRun(ss, es) && i < |es|
    ensures !ss[i].closed ==> (ss[i + 1].closed <==> es[i].Close? || EndsItself(ss[i], es[i]))
    ensures !ss[i].closed ==> (ss[i + 1].socketOpen <==> !EndsItself(ss[i], es[i]))
    ensures ss[i].closed && ss[i].socketOpen ==>
              (ss[i + 1].socketOpen <==> !(es[i].Run? && !ss[i].pool[es[i].k].Pump?))
    ensures es[i].TimerFires? ==> ss[i].deadline.Some? && ss[i].deadline.value <= ss[i].now
  {
    Reachable(ss, es, i);
    assert Next(ss[i], es[i], ss[i + 1]);
    if es[i].Run? {
      WithoutKeeps(ss[i].pool, es[i].k);
    }
  }

  /** The seconds a step on the strand grants what is still queued: three after a final notice. */
  function Grants(s: Conn, e: Event): Option<nat> {
    if !e.Run? || e.k >= |s.pool| || s.closed then None
    else match s.pool[e.k]
      case Pump(arm) => if arm then Some(3) else None
      case Drain(seconds, _) => if s.out.queue == [] then None else Some(seconds)
      case _ => None
  }

  /** `s'` is `s` with its deadline within the grant, or where it was without one. */
  predicate Granted(s: Conn, grant: Option<nat>, s': Conn) {
    if grant.None? then s'.deadline == s.deadline
    else && s'.timerPending && s'.deadline.Some?
         && s'.deadline.value == if s.deadline.None? then s.now + grant.value
                                 else Min(s.deadline.value, s.now + grant.value)
  }

  lemma GrantArms(s: Conn, e: Event, s': Conn)
    requires (s.deadline.Some? && !s.closed ==> s.timerPending) && Next(s, e, s')
    ensures Granted(s, Grants(s, e), s')
  {
  }

  /** A grant arms the deadline at its end, unless an earlier one is armed; nothing else moves it. */
  lemma DeadlineIsArmed(ss: seq<Conn>, es: seq<Event>, i: nat)
    requires ConnRun(ss, es) && i < |es|
    ensures Granted(ss[i], Grants(ss[i], es[i]), ss[i + 1])
  {
    Reachable(ss, es, i);
    GrantArms(ss[i], es[i], ss[i + 1]);
  }

  /** A connection retires with a final notice it admits or a drain that finds it open, and for good. */
  lemma RetiresExactly(ss: seq<Conn>, es: seq<Event>, i: nat)
    requires ConnRun(ss, es) && i < |es|
    ensures ss[i + 1].retiring <==>
              || ss[i].retiring
              || (es[i].Send? && es[i].message.final && ss[i + 1].out.admitted != ss[i].out.admitted)
              || (es[i].Run? && ss[i].pool[es[i].k].Drain? && !ss[i].closed)
  {
    assert Next(ss[i], es[i], ss[i + 1]);
  }

  predicate Delivered(s: Conn) {
    Inv(s) && (s.closed ==> !s.socketOpen && s.out.completed == s.out.admitted)
  }

  /** Neither a hard close, nor a failed write, nor the deadline cuts the connection short. */
  predicate GracefulNext(s: Conn, e: Event, s': Conn) {
    Next(s, e, s') && !e.Close? && e != Written(true) && !e.TimerFires?
  }

  lemma DeliveredRun(s: Conn, k: nat)
    requires Delivered(s) && k < |s.pool|
    ensures Delivered(Step(s, Run(k)))
  {
    InvRun(s, k);
    WithoutKeeps(s.pool, k);
  }

  lemma DeliveredWritten(s: Conn)
    requires Delivered(s) && s.out.writing
    ensures s.out.queue != [] || s.closed
    ensures Delivered(OnWritten(s, false))
  {
    InvWritten(s, false);
    if !s.closed {
      FinishFlows(s.out);
    }
  }

  /** A connection that was only drained or kicked delivers everything it admitted before it closes. */
  lemma DrainDeliversEverything(ss: seq<Conn>, es: seq<Event>, i: nat)
    requires IsRun(GracefulNext, ss, es) && ss[0] == Fresh() && i < |ss|
    ensures ss[i].closed ==> !ss[i].socketOpen && ss[i].out.completed == ss[i].out.admitted
  {
    forall s: Conn, e: Event, s': Conn | Delivered(s) && GracefulNext(s, e, s') ensures Delivered(s') {
      InvStep(s, e);
      match e {
        case Run(k) => DeliveredRun(s, k);
        case Written(_) => DeliveredWritten(s);
        case _ =>
      }
    }
    Always(GracefulNext, Delivered, ss, es, i);
  }

  // ----------------------------------------------------------- implementation

  /** History of a connection. */
  datatype Log = Log(cleanups: nat, admitted: seq<Message>, started: seq<Message>, completed: seq<Message>,
                     requested: seq<int>, ran: seq<int>)

  /** The connection object; its methods are the mutex sections and strand callbacks of the source. */
  class Session {
    var now: int
    var sendQueue: seq<Message>
    var closed: bool
    var retiring: bool
    var closeAfterWrite: bool
    var writeActive: bool
    var socketOpen: bool
    var cleanupStarted: bool
    var closeHandlers: seq<int>
    var deadline: Option<int>   // drain_timer_.expiry(), once drain_timer_active_
    var timerPending: bool
    var strand: seq<Task>
    ghost var log: Log

    ghost predicate Valid()
      reads this
    {
      cleanupStarted <==> log.cleanups > 0
    }

    ghost function State(): Conn
      reads this
    {
      Conn(now, Outbox(sendQueue, writeActive, log.admitted, log.started, log.completed),
           closed, retiring, closeAfterWrite, socketOpen, log.cleanups, closeHandlers,
           deadline, timerPending, strand, log.requested, log.ran)
    }

    constructor ()
      ensures Valid() && State() == Fresh()
    {
      now, sendQueue := 0, [];
      closed, retiring, closeAfterWrite, writeActive := false, false, false, false;
      socketOpen, cleanupStarted, closeHandlers := true, false, [];
      deadline, timerPending, strand := None, false, [];
      log := Log(0, [], [], [], [], []);
    }

    /** An overloaded consumer is disconnected: its Close is the Close event of a run. */
    method QueueSend(m: Message, realtime: bool) returns (ok: bool)
      requires Valid()
      modifies this`sendQueue, this`closed, this`retiring, this`closeAfterWrite, this`strand, this`log
      ensures Valid() && (ok <==> Admission(old(State()), realtime).Admitted?)
      ensures State() == if Admission(old(State()), realtime).Overloaded? then OnClose(old(State()), None)
                         else OnSend(old(State()), m, realtime)
      ensures ok <==> !old(closed) && !old(closeAfterWrite) && |old(sendQueue)| < if realtime then 10 else 1000
      ensures !ok ==> sendQueue == old(sendQueue)
      ensures !ok && (old(closed) || old(closeAfterWrite) || realtime) ==> State() == old(State())
      ensures !ok && !old(closed) && !old(closeAfterWrite) && !realtime ==>
                closed && strand == old(strand) + [CloseNow(None)]
    {
      if closed || closeAfterWrite {
        return false;
      }
      if realtime && |sendQueue| >= REALTIME_LIMIT {
        return false;
      }
      if |sendQueue| >= MAX_SENDQUE {
        Close(None);
        return false;
      }
      var startWrite := sendQueue == [];
      sendQueue := sendQueue + [m];
      log := log.(admitted := log.admitted + [m]);
      closeAfterWrite := m.final;
      if m.final {
        retiring := true;
      }
      if startWrite || m.final {
        strand := strand + [Pump(m.final)];
      }
      return true;
    }

    method Close(callback: Option<int>)
      requires Valid()
      modifies this`closed, this`strand, this`log
      ensures Valid() && State() == OnClose(old(State()), callback)
    {
      var already := closed;
      closed := true;
      if already && callback.None? {
        return;
      }
      strand := strand + [CloseNow(callback)];
      log := log.(requested := log.requested + Ids(callback));
    }

    method DrainAndClose(seconds: nat, onClosed: int)
      requires Valid()
      modifies this`strand, this`log
      ensures Valid() && State() == Step(old(State()), Event.DrainAndClose(seconds, onClosed))
    {
      strand := strand + [Drain(seconds, onClosed)];
      log := log.(requested := log.requested + [onClosed]);
    }

    method StartWriting()
      requires Valid()
      modifies this`writeActive, this`log
      ensures Valid() && State() == StartWrite(old(State()))
    {
      if closed || writeActive || sendQueue == [] {
        return;
      }
      writeActive := true;
      log := log.(started := log.started + [sendQueue[0]]);
    }

    /** Closes the socket, empties the queue, cleans up once and runs the registered callbacks. */
    method CloseSocket(callback: Option<int>)
      requires Valid()
      modifies this`timerPending, this`socketOpen, this`sendQueue, this`cleanupStarted, this`closeHandlers, this`log
      ensures Valid() && State() == CloseOnExecutor(old(State()), Ids(callback))
    {
      timerPending := false;
      socketOpen := false;
      ClearQueue();
      DealException();
      RunHandlers();
      log := log.(ran := log.ran + Ids(callback));
      assert log == Log(log.cleanups, old(log.admitted), old(log.started), old(log.completed),
                        old(log.requested), old(log.ran) + old(closeHandlers) + Ids(callback));
    }

    method ClearQueue()
      modifies this`sendQueue
      ensures sendQueue == []
    {
      while sendQueue != []
        decreases |sendQueue|
      {
        sendQueue := sendQueue[1..];
      }
    }

    /** The server's cleanup is started by the first close only. */
    method DealException()
      requires Valid()
      modifies this`cleanupStarted, this`log
      ensures Valid() && log == old(log).(cleanups := if old(log.cleanups) == 0 then 1 else old(log.cleanups))
    {
      if !cleanupStarted {
        cleanupStarted := true;
        log := log.(cleanups := 1);
      }
    }

    method RunHandlers()
      modifies this`closeHandlers, this`log
      ensures closeHandlers == [] && log == old(log).(ran := old(log.ran) + old(closeHandlers))
    {
      var handlers := closeHandlers;
      closeHandlers := [];
      for i := 0 to |handlers|
        invariant log == old(log).(ran := old(log.ran) + handlers[..i])
      {
        log := log.(ran := log.ran + [handlers[i]]);
      }
    }

    method CloseOnStrand()
      requires Valid()
      modifies this`closed, this`timerPending, this`socketOpen, this`sendQueue, this`cleanupStarted,
               this`closeHandlers, this`log
      ensures Valid() && State() == CloseInline(old(State()))
    {
      if closed {
        return;
      }
      closed := true;
      CloseSocket(None);
    }

    method ArmDrainDeadline(seconds: nat)
      requires Valid()
      modifies this`deadline, this`timerPending
      ensures Valid() && State() == Arm(old(State()), seconds)
    {
      if closed || (deadline.Some? && deadline.value <= now + seconds) {
        return;
      }
      deadline, timerPending := Some(now + seconds), true;
    }

    method OnDrainTimer()
      requires Valid() && timerPending && deadline.Some? && deadline.value <= now
      modifies this
      ensures Valid() && State() == Step(old(State()), TimerFires)
    {
      timerPending := false;
      CloseOnStrand();
    }

    method DrainClosure(seconds: nat, onClosed: int)
      requires Valid()
      modifies this
      ensures Valid() && State() == RunDrain(old(State()), seconds, onClosed)
    {
      if closed {
        CloseSocket(Some(onClosed));
        return;
      }
      closeHandlers := closeHandlers + [onClosed];
      retiring := true;
      closeAfterWrite := true;
      if sendQueue == [] {
        CloseOnStrand();
      } else {
        ArmDrainDeadline(seconds);
        StartWriting();
      }
    }

    method HandleWrite(error: bool)
      requires Valid() && (sendQueue != [] || closed)
      modifies this
      ensures Valid() && State() == OnWritten(old(State()), error)
    {
      writeActive := false;
      if closed {
        return;
      }
      if error {
        CloseOnStrand();
        return;
      }
      log := log.(completed := log.completed + [sendQueue[0]]);
      sendQueue := sendQueue[1..];
      assert State() == old(State()).(out := Finish(old(State()).out));
      if sendQueue == [] && closeAfterWrite {
        CloseOnStrand();
      } else {
        StartWriting();
      }
    }

    /** The strand picks one of its callbacks. */
    method RunOne(k: nat)
      requires Valid() && k < |strand|
      modifies this
      ensures Valid() && State() == Step(old(State()), Run(k))
    {
      var task := strand[k];
      strand := strand[..k] + strand[k + 1..];
      match task {
        case Pump(arm) =>
          if arm {
            ArmDrainDeadline(KICK_SECONDS);
          }
          StartWriting();
        case CloseNow(callback) =>
          CloseSocket(callback);
        case Drain(seconds, onClosed) =>
          DrainClosure(seconds, onClosed);
      }
    }
  }
}
