/**
 The business executor: FIFO lanes chosen by a hash of the connection key, one worker per lane, one
 queue limit shared by all lanes, an admission cutoff, and a stop that drains or discards.
 */
module Executor {
  import opened Common
  import opened Runs

  const MAX_WORKERS := 16

  datatype Task = Task(id: nat, key: string)

  /** What a worker holds between its two critical sections is `running`. */
  datatype Lane = Lane(tasks: seq<Task>, running: Option<Task>, exited: bool)

  datatype Metrics = Metrics(queued: int, active: int, highWater: int, completed: int, rejected: int, failed: int)

  /** Everything that ever happened to a task, in the order of the critical sections. */
  datatype Log = Log(submitted: seq<Task>, starts: seq<Task>, ends: seq<Task>, discarded: seq<Task>)

  datatype Config = Config(workers: nat, limit: nat, hash: string -> nat)

  datatype State = State(accepting: bool, lanes: seq<Lane>, metrics: Metrics, log: Log)

  datatype Event =
    | Submit(task: Task, callable: bool)
    | Take(lane: nat)
    | Finish(lane: nat, failed: bool)
    | Exit(lane: nat)
    | BeginStop
    | Stop(drain: bool)

  predicate ValidConfig(c: Config) {
    1 <= c.workers <= MAX_WORKERS && c.limit > 0
  }

  function Home(c: Config, t: Task): (i: nat)
    requires ValidConfig(c)
    ensures i < c.workers
  {
    c.hash(t.key) % c.workers
  }

  // ------------------------------------------------------------ the critical sections

  predicate Admits(c: Config, s: State, callable: bool) {
    callable && s.accepting && s.metrics.queued < c.limit
  }

  function AfterSubmit(c: Config, s: State, t: Task, callable: bool): State
    requires ValidConfig(c) && |s.lanes| == c.workers
  {
    if !Admits(c, s, callable) then s.(metrics := s.metrics.(rejected := s.metrics.rejected + 1))
    else
      var i, queued := Home(c, t), s.metrics.queued + 1;
      s.(lanes := s.lanes[i := s.lanes[i].(tasks := s.lanes[i].tasks + [t])],
         metrics := s.metrics.(queued := queued, highWater := Max(s.metrics.highWater, queued)),
         log := s.log.(submitted := s.log.submitted + [t]))
  }

  function AfterTake(s: State, i: nat): State
    requires i < |s.lanes| && s.lanes[i].tasks != []
  {
    var t := s.lanes[i].tasks[0];
    s.(lanes := s.lanes[i := s.lanes[i].(tasks := s.lanes[i].tasks[1..], running := Some(t))],
       metrics := s.metrics.(queued := s.metrics.queued - 1, active := s.metrics.active + 1),
       log := s.log.(starts := s.log.starts + [t]))
  }

  function AfterFinish(s: State, i: nat, failed: bool): State
    requires i < |s.lanes| && s.lanes[i].running.Some?
  {
    var m := s.metrics;
    s.(lanes := s.lanes[i := s.lanes[i].(running := None)],
       metrics := m.(active := m.active - 1, completed := m.completed + 1,
                     failed := if failed then m.failed + 1 else m.failed),
       log := s.log.(ends := s.log.ends + [s.lanes[i].running.value]))
  }

  function AfterExit(s: State, i: nat): State
    requires i < |s.lanes|
  {
    s.(lanes := s.lanes[i := s.lanes[i].(exited := true)])
  }

  function Waiting(lanes: seq<Lane>): seq<Task> {
    if lanes == [] then [] else Waiting(lanes[..|lanes| - 1]) + lanes[|lanes| - 1].tasks
  }

  function Emptied(lanes: seq<Lane>): (r: seq<Lane>)
    ensures |r| == |lanes| && forall i :: 0 <= i < |r| ==> r[i] == lanes[i].(tasks := [])
  {
    seq(|lanes|, i requires 0 <= i < |lanes| => lanes[i].(tasks := []))
  }

  function AfterStop(s: State, drain: bool): State {
    if drain then s.(accepting := false)
    else s.(accepting := false, lanes := Emptied(s.lanes),
            metrics := s.metrics.(queued := s.metrics.queued - |Waiting(s.lanes)|),
            log := s.log.(discarded := s.log.discarded + Waiting(s.lanes)))
  }

  /** A worker is between tasks: the next thing it does is its first critical section. */
  predicate Idle(s: State, i: nat) {
    i < |s.lanes| && s.lanes[i].running.None? && !s.lanes[i].exited
  }

  predicate Next(c: Config, s: State, e: Event, s': State)
    requires ValidConfig(c)
  {
    |s.lanes| == c.workers &&
    match e
    case Submit(t, callable) => s' == AfterSubmit(c, s, t, callable)
    case Take(i) => Idle(s, i) && s.lanes[i].tasks != [] && s' == AfterTake(s, i)
    case Finish(i, failed) => i < |s.lanes| && s.lanes[i].running.Some? && s' == AfterFinish(s, i, failed)
    case Exit(i) => Idle(s, i) && !s.accepting && s.lanes[i].tasks == [] && s' == AfterExit(s, i)
    case BeginStop => s' == s.(accepting := false)
    case Stop(drain) => s' == AfterStop(s, drain)
  }

  function Initial(c: Config): State {
    State(true, seq(c.workers, _ => Lane([], None, false)), Metrics(0, 0, 0, 0, 0, 0), Log([], [], [], []))
  }

  // -------------------------------------------------------------- counters

  function Busy(lanes: seq<Lane>): nat {
    if lanes == [] then 0
    else Busy(lanes[..|lanes| - 1]) + (if lanes[|lanes| - 1].running.Some? then 1 else 0)
  }

  lemma {:induction false} BusyUpdate(lanes: seq<Lane>, i: nat, l: Lane)
    requires i < |lanes|
    ensures Busy(lanes[i := l])
         == Busy(lanes) - (if lanes[i].running.Some? then 1 else 0) + (if l.running.Some? then 1 else 0)
  {
    var n := |lanes| - 1;
    if i < n {
      BusyUpdate(lanes[..n], i, l);
      assert lanes[i := l][..n] == lanes[..n][i := l];
    } else {
      assert lanes[i := l][..n] == lanes[..n];
    }
  }

  lemma {:induction false} WaitingUpdate(lanes: seq<Lane>, i: nat, l: Lane)
    requires i < |lanes|
    ensures |Waiting(lanes[i := l])| == |Waiting(lanes)| - |lanes[i].tasks| + |l.tasks|
  {
    var n := |lanes| - 1;
    if i < n {
      WaitingUpdate(lanes[..n], i, l);
      assert lanes[i := l][..n] == lanes[..n][i := l];
    } else {
      assert lanes[i := l][..n] == lanes[..n];
    }
  }

  lemma {:induction false} BusyBound(lanes: seq<Lane>)
    ensures Busy(lanes) <= |lanes|
    ensures Busy(lanes) == 0 <==> forall l :: l in lanes ==> l.running.None?
  {
    if lanes != [] {
      var n := |lanes| - 1;
      BusyBound(lanes[..n]);
      assert lanes == lanes[..n] + [lanes[n]];
    }
  }

  lemma {:induction false} NoneWaiting(lanes: seq<Lane>)
    ensures Waiting(lanes) == [] <==> forall l :: l in lanes ==> l.tasks == []
  {
    if lanes != [] {
      var n := |lanes| - 1;
      NoneWaiting(lanes[..n]);
      assert lanes == lanes[..n] + [lanes[n]];
    }
  }

  lemma {:induction false} EmptiedCounts(lanes: seq<Lane>)
    ensures Waiting(Emptied(lanes)) == [] && Busy(Emptied(lanes)) == Busy(lanes)
  {
    NoneWaiting(Emptied(lanes));
    if lanes != [] {
      var n := |lanes| - 1;
      EmptiedCounts(lanes[..n]);
      assert Emptied(lanes)[..n] == Emptied(lanes[..n]);
    }
  }

  /** The metrics measure what they are named after, and the queue bound holds across all lanes. */
  predicate Counted(c: Config, s: State) {
    && s.metrics.queued == |Waiting(s.lanes)| <= s.metrics.highWater <= c.limit
    && s.metrics.active == Busy(s.lanes)
    && s.metrics.completed == |s.log.ends|
    && 0 <= s.metrics.failed <= s.metrics.completed
    && |s.log.submitted| == s.metrics.queued + s.metrics.active + s.metrics.completed + |s.log.discarded|
  }

  lemma CountedStep(c: Config, s: State, e: Event, s': State)
    requires ValidConfig(c) && Counted(c, s) && Next(c, s, e, s')
    ensures Counted(c, s')
  {
    match e
    case Submit(t, callable) =>
      if Admits(c, s, callable) {
        WaitingUpdate(s.lanes, Home(c, t), s'.lanes[Home(c, t)]);
        BusyUpdate(s.lanes, Home(c, t), s'.lanes[Home(c, t)]);
      }
    case Take(i) =>
      WaitingUpdate(s.lanes, i, s'.lanes[i]);
      BusyUpdate(s.lanes, i, s'.lanes[i]);
    case Finish(i, _) =>
      WaitingUpdate(s.lanes, i, s'.lanes[i]);
      BusyUpdate(s.lanes, i, s'.lanes[i]);
    case Exit(i) =>
      WaitingUpdate(s.lanes, i, s'.lanes[i]);
      BusyUpdate(s.lanes, i, s'.lanes[i]);
    case BeginStop =>
    case Stop(_) => EmptiedCounts(s.lanes);
  }

  // ----------------------------------------------------------------- order

  function HomedAt(c: Config, i: nat): Task -> bool
    requires ValidConfig(c)
  {
    (t: Task) => Home(c, t) == i
  }

  function Running(l: Lane): seq<Task> {
    if l.running.Some? then [l.running.value] else []
  }

  /** The tasks submitted to one lane, split by how far they got, still in submission order. */
  ghost predicate LaneInOrder(c: Config, log: Log, lane: Lane, i: nat)
    requires ValidConfig(c)
  {
    && (forall t :: t in lane.tasks ==> Home(c, t) == i)
    && (lane.running.Some? ==> Home(c, lane.running.value) == i)
    && Select(log.submitted, HomedAt(c, i))
         == Select(log.starts, HomedAt(c, i)) + lane.tasks + Select(log.discarded, HomedAt(c, i))
    && Select(log.starts, HomedAt(c, i)) == Select(log.ends, HomedAt(c, i)) + Running(lane)
  }

  /** Nothing is queued behind a discarded task, and a lane is left only when it is empty for good. */
  predicate StopsCleanly(s: State) {
    && (s.log.discarded != [] ==> !s.accepting && forall l :: l in s.lanes ==> l.tasks == [])
    && (forall l :: l in s.lanes && l.exited ==> !s.accepting && l.tasks == [] && l.running.None?)
  }

  ghost predicate Inv(c: Config, s: State)
    requires ValidConfig(c)
  {
    && |s.lanes| == c.workers
    && (forall i :: 0 <= i < |s.lanes| ==> LaneInOrder(c, s.log, s.lanes[i], i))
    && StopsCleanly(s)
    && Counted(c, s)
  }

  lemma SubmitInOrder(c: Config, log: Log, lane: Lane, i: nat, t: Task)
    requires ValidConfig(c) && LaneInOrder(c, log, lane, i) && log.discarded == []
    ensures LaneInOrder(c, log.(submitted := log.submitted + [t]),
                        if Home(c, t) == i then lane.(tasks := lane.tasks + [t]) else lane, i)
  {
    SelectSnoc(log.submitted, t, HomedAt(c, i));
  }

  lemma TakeInOrder(c: Config, log: Log, lane: Lane, i: nat, t: Task)
    requires ValidConfig(c) && LaneInOrder(c, log, lane, i)
    requires Home(c, t) == i ==> lane.running.None? && lane.tasks != [] && t == lane.tasks[0]
    ensures LaneInOrder(c, log.(starts := log.starts + [t]),
                        if Home(c, t) == i then lane.(tasks := lane.tasks[1..], running := Some(t)) else lane, i)
  {
    SelectSnoc(log.starts, t, HomedAt(c, i));
  }

  lemma FinishInOrder(c: Config, log: Log, lane: Lane, i: nat, t: Task)
    requires ValidConfig(c) && LaneInOrder(c, log, lane, i)
    requires Home(c, t) == i ==> lane.running == Some(t)
    ensures LaneInOrder(c, log.(ends := log.ends + [t]), if Home(c, t) == i then lane.(running := None) else lane, i)
  {
    SelectSnoc(log.ends, t, HomedAt(c, i));
  }

  /** The waiting tasks of lane `i` are exactly what a discard takes from it. */
  lemma {:induction false} WaitingAt(c: Config, lanes: seq<Lane>, i: nat)
    requires ValidConfig(c)
    requires forall j, t :: 0 <= j < |lanes| && t in lanes[j].tasks ==> Home(c, t) == j
    ensures Select(Waiting(lanes), HomedAt(c, i)) == if i < |lanes| then lanes[i].tasks else []
  {
    if lanes != [] {
      var n := |lanes| - 1;
      WaitingAt(c, lanes[..n], i);
      SelectConcat(Waiting(lanes[..n]), lanes[n].tasks, HomedAt(c, i));
      if i == n {
        SelectAll(lanes[n].tasks, HomedAt(c, i));
      } else {
        SelectNone(lanes[n].tasks, HomedAt(c, i));
      }
    }
  }

  lemma DiscardInOrder(c: Config, log: Log, lane: Lane, i: nat, gone: seq<Task>)
    requires ValidConfig(c) && LaneInOrder(c, log, lane, i)
    requires Select(gone, HomedAt(c, i)) == lane.tasks && (log.discarded != [] ==> lane.tasks == [])
    ensures LaneInOrder(c, log.(discarded := log.discarded + gone), lane.(tasks := []), i)
  {
    SelectConcat(log.discarded, gone, HomedAt(c, i));
    var starts, before := Select(log.starts, HomedAt(c, i)), Select(log.discarded, HomedAt(c, i));
    assert starts + lane.tasks + before == starts + [] + (before + lane.tasks);
  }

  lemma StopInOrder(c: Config, s: State, drain: bool, i: nat)
    requires ValidConfig(c) && i < |s.lanes| && StopsCleanly(s)
    requires forall j :: 0 <= j < |s.lanes| ==> LaneInOrder(c, s.log, s.lanes[j], j)
    ensures LaneInOrder(c, AfterStop(s, drain).log, AfterStop(s, drain).lanes[i], i)
  {
    assert LaneInOrder(c, s.log, s.lanes[i], i);
    if !drain {
      assert s.lanes[i] in s.lanes;
      forall j, t | 0 <= j < |s.lanes| && t in s.lanes[j].tasks ensures Home(c, t) == j {
        assert LaneInOrder(c, s.log, s.lanes[j], j);
      }
      WaitingAt(c, s.lanes, i);
      DiscardInOrder(c, s.log, s.lanes[i], i, Waiting(s.lanes));
    }
  }

  lemma LanesStep(c: Config, s: State, e: Event, s': State, i: nat)
    requires ValidConfig(c) && Next(c, s, e, s') && StopsCleanly(s) && i < |s.lanes|
    requires forall j :: 0 <= j < |s.lanes| ==> LaneInOrder(c, s.log, s.lanes[j], j)
    ensures |s'.lanes| == |s.lanes| && LaneInOrder(c, s'.log, s'.lanes[i], i)
  {
    assert LaneInOrder(c, s.log, s.lanes[i], i);
    match e
    case Submit(t, callable) => SubmitInOrder'(c, s, t, callable, i);
    case Take(k) =>
      assert LaneInOrder(c, s.log, s.lanes[k], k);
      TakeInOrder(c, s.log, s.lanes[i], i, s.lanes[k].tasks[0]);
    case Finish(k, _) =>
      assert LaneInOrder(c, s.log, s.lanes[k], k);
      FinishInOrder(c, s.log, s.lanes[i], i, s.lanes[k].running.value);
    case Exit(k) =>
    case BeginStop =>
    case Stop(drain) => StopInOrder(c, s, drain, i);
  }

  lemma SubmitInOrder'(c: Config, s: State, t: Task, callable: bool, i: nat)
    requires ValidConfig(c) && |s.lanes| == c.workers && StopsCleanly(s) && i < |s.lanes|
    requires LaneInOrder(c, s.log, s.lanes[i], i)
    ensures LaneInOrder(c, AfterSubmit(c, s, t, callable).log, AfterSubmit(c, s, t, callable).lanes[i], i)
  {
    if Admits(c, s, callable) {
      SubmitInOrder(c, s.log, s.lanes[i], i, t);
    }
  }

  lemma StopsCleanlyStep(c: Config, s: State, e: Event, s': State)
    requires ValidConfig(c) && Next(c, s, e, s') && StopsCleanly(s)
    ensures StopsCleanly(s')
  {
    forall l | l in s'.lanes
      ensures s'.log.discarded != [] ==> l.tasks == []
      ensures l.exited ==> !s'.accepting && l.tasks == [] && l.running.None?
    {
      var i :| 0 <= i < |s'.lanes| && s'.lanes[i] == l;
      assert s.lanes[i] in s.lanes;
    }
  }

  ghost function Steps(c: Config): (State, Event, State) -> bool {
    (s: State, e: Event, s': State) => ValidConfig(c) && Next(c, s, e, s')
  }

  ghost predicate ExecutorRun(c: Config, ss: seq<State>, es: seq<Event>) {
    ValidConfig(c) && IsRun(Steps(c), ss, es) && ss[0] == Initial(c)
  }

  lemma InitialInv(c: Config)
    requires ValidConfig(c)
    ensures Inv(c, Initial(c))
  {
    NoneWaiting(Initial(c).lanes);
    BusyBound(Initial(c).lanes);
  }

  lemma InvStep(c: Config, s: State, e: Event, s': State)
    requires ValidConfig(c) && Inv(c, s) && Next(c, s, e, s')
    ensures Inv(c, s')
  {
    forall i | 0 <= i < |s.lanes| ensures |s'.lanes| == |s.lanes| && LaneInOrder(c, s'.log, s'.lanes[i], i) {
      LanesStep(c, s, e, s', i);
    }
    assert |s'.lanes| == |s.lanes|;
    StopsCleanlyStep(c, s, e, s');
    CountedStep(c, s, e, s');
  }

  lemma Reachable(c: Config, ss: seq<State>, es: seq<Event>, i: nat)
    requires ExecutorRun(c, ss, es) && i < |ss|
    ensures Inv(c, ss[i])
  {
    var next := Steps(c);
    var inv := (s: State) => ValidConfig(c) && Inv(c, s);
    forall s: State, e: Event, s': State | inv(s) && next(s, e, s') ensures inv(s') {
      InvStep(c, s, e, s');
    }
    InitialInv(c);
    Always(next, inv, ss, es, i);
  }

  // -------------------------------------------------------------- theorems

  /**
   Accepted work is conserved in every reachable state; the waiting tasks of all lanes together
   respect the one limit, and no more tasks run than there are lanes.
   */
  lemma WorkIsConserved(c: Config, ss: seq<State>, es: seq<Event>, i: nat)
    requires ExecutorRun(c, ss, es) && i < |ss|
    ensures var s := ss[i];
            && |s.log.submitted| == s.metrics.queued + s.metrics.active + s.metrics.completed + |s.log.discarded|
            && s.metrics.queued == |Waiting(s.lanes)| <= s.metrics.highWater <= c.limit
            && s.metrics.active == Busy(s.lanes) <= c.workers <= MAX_WORKERS
            && s.metrics.completed == |s.log.ends|
  {
    Reachable(c, ss, es, i);
    BusyBound(ss[i].lanes);
  }

  function Submissions(es: seq<Event>): nat {
    if es == [] then 0 else Submissions(es[..|es| - 1]) + (if es[|es| - 1].Submit? then 1 else 0)
  }

  function Failures(es: seq<Event>): nat {
    if es == [] then 0
    else Failures(es[..|es| - 1]) + (if es[|es| - 1].Finish? && es[|es| - 1].failed then 1 else 0)
  }

  /** Every submission is either accepted or counted as rejected, and every task that threw is counted as failed. */
  lemma {:induction false} SubmissionsAreTallied(c: Config, ss: seq<State>, es: seq<Event>, i: nat)
    requires ExecutorRun(c, ss, es) && i < |ss|
    ensures |ss[i].log.submitted| + ss[i].metrics.rejected == Submissions(es[..i])
    ensures ss[i].metrics.failed == Failures(es[..i])
  {
    if i > 0 {
      SubmissionsAreTallied(c, ss, es, i - 1);
      assert es[..i][..i - 1] == es[..i - 1];
      assert Next(c, ss[i - 1], es[i - 1], ss[i]);
    }
  }

  /** A task is turned away only when it is empty, after the cutoff, or when the lanes together are full. */
  lemma RejectedOnlyWhenFull(c: Config, ss: seq<State>, es: seq<Event>, i: nat)
    requires ExecutorRun(c, ss, es) && i < |es| && es[i].Submit?
    ensures ss[i + 1].log.submitted == ss[i].log.submitted + [es[i].task] <==>
            es[i].callable && ss[i].accepting && |Waiting(ss[i].lanes)| < c.limit
  {
    Reachable(c, ss, es, i);
    assert Next(c, ss[i], es[i], ss[i + 1]);
  }

  /** The high-water mark is the largest number of tasks that ever waited at once: reached, and never passed. */
  lemma {:induction false} HighWaterIsReached(c: Config, ss: seq<State>, es: seq<Event>, i: nat) returns (k: nat)
    requires ExecutorRun(c, ss, es) && i < |ss|
    ensures k <= i && ss[k].metrics.queued == ss[i].metrics.highWater
  {
    k := i;
    if i > 0 {
      assert Steps(c)(ss[i - 1], es[i - 1], ss[i]);
      MarkStep(c, ss[i - 1], es[i - 1], ss[i]);
      if ss[i].metrics.queued != ss[i].metrics.highWater {
        k := HighWaterIsReached(c, ss, es, i - 1);
      }
    }
  }

  lemma HighWaterIsNeverPassed(c: Config, ss: seq<State>, es: seq<Event>, j: nat, i: nat)
    requires ExecutorRun(c, ss, es) && j <= i < |ss|
    ensures ss[j].metrics.queued <= ss[i].metrics.highWater
  {
    var next := Steps(c);
    var rising := (s: State, s': State) => s.metrics.highWater <= s'.metrics.highWater;
    forall s0: State, s: State, e: Event, s': State | rising(s0, s) && next(s, e, s') ensures rising(s0, s') {
      MarkStep(c, s, e, s');
    }
    Across(next, (s: State) => true, rising, ss, es, j, i);
    Reachable(c, ss, es, j);
  }

  lemma MarkStep(c: Config, s: State, e: Event, s': State)
    requires ValidConfig(c) && Next(c, s, e, s')
    ensures s.metrics.highWater <= s'.metrics.highWater
    ensures s'.metrics.highWater == s.metrics.highWater || s'.metrics.highWater == s'.metrics.queued
  {
  }

  function WithKey(key: string): Task -> bool {
    (t: Task) => t.key == key
  }

  predicate OneAtATime(submitted: seq<Task>, starts: seq<Task>, ends: seq<Task>) {
    && starts <= submitted
    && (starts == ends || (|starts| == |ends| + 1 && starts[..|ends|] == ends))
  }

  predicate KeyOneAtATime(log: Log, key: string) {
    var ofKey := WithKey(key);
    OneAtATime(Select(log.submitted, ofKey), Select(log.starts, ofKey), Select(log.ends, ofKey))
  }

  lemma LaneOneAtATime(c: Config, log: Log, lane: Lane, key: string)
    requires ValidConfig(c) && LaneInOrder(c, log, lane, Home(c, Task(0, key)))
    ensures KeyOneAtATime(log, key)
  {
    var p, q := HomedAt(c, Home(c, Task(0, key))), WithKey(key);
    SelectTwice(log.submitted, p, q);
    SelectTwice(log.starts, p, q);
    SelectTwice(log.ends, p, q);
    SelectConcat(Select(log.starts, p) + lane.tasks, Select(log.discarded, p), q);
    SelectConcat(Select(log.starts, p), lane.tasks, q);
    SelectConcat(Select(log.ends, p), Running(lane), q);
    assert |Select(Running(lane), q)| <= 1;
  }

  /**
   Tasks of one connection key start in submission order and never overlap: those started are a
   prefix of those submitted, those ended are a prefix of those started, and at most one is open.
   */
  lemma SameKeyRunsInOrder(c: Config, ss: seq<State>, es: seq<Event>, i: nat, key: string)
    requires ExecutorRun(c, ss, es) && i < |ss|
    ensures KeyOneAtATime(ss[i].log, key)
  {
    Reachable(c, ss, es, i);
    var k := Home(c, Task(0, key));
    LaneOneAtATime(c, ss[i].log, ss[i].lanes[k], key);
  }

  predicate AllExited(s: State) {
    forall l :: l in s.lanes ==> l.exited
  }

  lemma LaneAccountedFor(c: Config, log: Log, lane: Lane, t: Task)
    requires ValidConfig(c) && LaneInOrder(c, log, lane, Home(c, t)) && lane.tasks == [] && lane.running.None?
    ensures Count(log.submitted, t) == Count(log.ends, t) + Count(log.discarded, t)
    ensures Count(log.starts, t) == Count(log.ends, t)
  {
    var p := HomedAt(c, Home(c, t));
    CountSelect(log.submitted, p, t);
    CountSelect(log.starts, p, t);
    CountSelect(log.ends, p, t);
    CountSelect(log.discarded, p, t);
    CountConcat(Select(log.starts, p), Select(log.discarded, p), t);
    assert Select(log.starts, p) + [] == Select(log.starts, p);
    assert Select(log.ends, p) + [] == Select(log.ends, p);
  }

  /** Once every worker has returned, each accepted task was run to its end or discarded, once per acceptance. */
  lemma EveryTaskAccountedFor(c: Config, ss: seq<State>, es: seq<Event>, i: nat, t: Task)
    requires ExecutorRun(c, ss, es) && i < |ss| && AllExited(ss[i])
    ensures Count(ss[i].log.submitted, t) == Count(ss[i].log.ends, t) + Count(ss[i].log.discarded, t)
    ensures Count(ss[i].log.starts, t) == Count(ss[i].log.ends, t)
  {
    Reachable(c, ss, es, i);
    var lane := ss[i].lanes[Home(c, t)];
    assert lane in ss[i].lanes;
    LaneAccountedFor(c, ss[i].log, lane, t);
  }

  /** A stop that drains: no discard happened, so every accepted task ran exactly once per acceptance. */
  lemma DrainedStopRanEverything(c: Config, ss: seq<State>, es: seq<Event>, i: nat, t: Task)
    requires ExecutorRun(c, ss, es) && i < |ss| && AllExited(ss[i])
    requires forall e :: e in es[..i] && e.Stop? ==> e.drain
    ensures Count(ss[i].log.ends, t) == Count(ss[i].log.submitted, t)
  {
    EveryTaskAccountedFor(c, ss, es, i, t);
    NothingDiscarded(c, ss, es, i);
  }

  lemma {:induction false} NothingDiscarded(c: Config, ss: seq<State>, es: seq<Event>, i: nat)
    requires ExecutorRun(c, ss, es) && i < |ss|
    requires forall e :: e in es[..i] && e.Stop? ==> e.drain
    ensures ss[i].log.discarded == []
  {
    if i > 0 {
      assert es[..i] == es[..i - 1] + [es[i - 1]];
      NothingDiscarded(c, ss, es, i - 1);
      assert Next(c, ss[i - 1], es[i - 1], ss[i]);
    }
  }

  // ------------------------------------------------------------ what a stop does

  predicate IsStop(e: Event) {
    e.BeginStop? || e.Stop?
  }

  /** The executor accepts work exactly until its first stop, of either kind. */
  lemma {:induction false} AcceptsUntilStopped(c: Config, ss: seq<State>, es: seq<Event>, i: nat)
    requires ExecutorRun(c, ss, es) && i < |ss|
    ensures ss[i].accepting <==> forall e :: e in es[..i] ==> !IsStop(e)
  {
    if i > 0 {
      AcceptsUntilStopped(c, ss, es, i - 1);
      AcceptingStep(c, ss[i - 1], es[i - 1], ss[i]);
      assert es[..i] == es[..i - 1] + [es[i - 1]];
      forall e ensures e in es[..i] <==> e in es[..i - 1] || e == es[i - 1] {
      }
      assert IsStop(es[i - 1]) ==> es[i - 1] in es[..i];
    } else {
      assert es[..i] == [];
      assert ss[0] == Initial(c);
    }
  }

  lemma AcceptingStep(c: Config, s: State, e: Event, s': State)
    requires ValidConfig(c) && Next(c, s, e, s')
    ensures s'.accepting <==> s.accepting && !IsStop(e)
  {
  }

  /** After a discard: nothing waits, nothing more starts, and nothing more is discarded. */
  predicate Discarded(s: State, starts: seq<Task>, discarded: seq<Task>) {
    && !s.accepting && (forall l :: l in s.lanes ==> l.tasks == [])
    && s.log.starts == starts && s.log.discarded == discarded
  }

  lemma DiscardedStep(c: Config, s: State, e: Event, s': State, starts: seq<Task>, discarded: seq<Task>)
    requires ValidConfig(c) && Next(c, s, e, s') && Discarded(s, starts, discarded)
    ensures Discarded(s', starts, discarded)
  {
    NoneWaiting(s.lanes);
    assert forall i :: 0 <= i < |s.lanes| ==> s.lanes[i] in s.lanes;
  }

  lemma EndsHadStarted(c: Config, s: State, t: Task)
    requires ValidConfig(c) && Inv(c, s)
    ensures Count(s.log.ends, t) <= Count(s.log.starts, t)
  {
    var k := Home(c, t);
    var p := HomedAt(c, k);
    assert LaneInOrder(c, s.log, s.lanes[k], k);
    CountSelect(s.log.starts, p, t);
    CountSelect(s.log.ends, p, t);
    CountConcat(Select(s.log.ends, p), Running(s.lanes[k]), t);
  }

  /**
   A stop that does not drain discards exactly the tasks that wait: from then on no task waits or
   starts, nothing else is ever discarded, and only tasks that had started by then ever end.
   */
  lemma StopDiscardsWaiting(c: Config, ss: seq<State>, es: seq<Event>, i: nat, j: nat, t: Task)
    requires ExecutorRun(c, ss, es) && i < j < |ss| && es[i].Stop? && !es[i].drain
    ensures Waiting(ss[j].lanes) == []
    ensures ss[j].log.starts == ss[i].log.starts
    ensures ss[j].log.discarded == ss[i].log.discarded + Waiting(ss[i].lanes)
    ensures Count(ss[j].log.ends, t) <= Count(ss[i].log.starts, t)
  {
    var starts, discarded := ss[i].log.starts, ss[i].log.discarded + Waiting(ss[i].lanes);
    var next := Steps(c);
    var inv := (s: State) => Discarded(s, starts, discarded);
    assert next(ss[i], es[i], ss[i + 1]);
    forall s: State, e: Event, s': State | inv(s) && next(s, e, s') ensures inv(s') {
      DiscardedStep(c, s, e, s', starts, discarded);
    }
    AlwaysFrom(next, inv, ss, es, i + 1, j);
    NoneWaiting(ss[j].lanes);
    Reachable(c, ss, es, j);
    EndsHadStarted(c, ss[j], t);
  }

  /** A draining stop takes nothing away: the lanes and all that happened stay as they are. */
  lemma DrainKeepsWaiting(c: Config, ss: seq<State>, es: seq<Event>, i: nat)
    requires ExecutorRun(c, ss, es) && i < |es| && IsStop(es[i]) && (es[i].Stop? ==> es[i].drain)
    ensures ss[i + 1].lanes == ss[i].lanes && ss[i + 1].log == ss[i].log && ss[i + 1].metrics == ss[i].metrics
    ensures !ss[i + 1].accepting
  {
    assert Next(c, ss[i], es[i], ss[i + 1]);
  }

  // --------------------------------------------- a stop always comes to its end

  predicate WorkerEvent(e: Event) {
    e.Take? || e.Finish? || e.Exit?
  }

  function Open(lanes: seq<Lane>): nat {
    if lanes == [] then 0 else Open(lanes[..|lanes| - 1]) + (if lanes[|lanes| - 1].exited then 0 else 1)
  }

  lemma {:induction false} OpenUpdate(lanes: seq<Lane>, i: nat, l: Lane)
    requires i < |lanes|
    ensures Open(lanes[i := l]) == Open(lanes) - (if lanes[i].exited then 0 else 1) + (if l.exited then 0 else 1)
  {
    var n := |lanes| - 1;
    if i < n {
      OpenUpdate(lanes[..n], i, l);
      assert lanes[i := l][..n] == lanes[..n][i := l];
    } else {
      assert lanes[i := l][..n] == lanes[..n];
    }
  }

  /** Critical sections the workers still have to pass. */
  function Remaining(s: State): nat {
    2 * |Waiting(s.lanes)| + Busy(s.lanes) + Open(s.lanes)
  }

  function Moves(es: seq<Event>): nat {
    if es == [] then 0 else Moves(es[..|es| - 1]) + (if WorkerEvent(es[|es| - 1]) then 1 else 0)
  }

  /** After the cutoff every worker step uses up one remaining section and nothing adds one. */
  lemma StoppedStep(c: Config, s: State, e: Event, s': State)
    requires ValidConfig(c) && Next(c, s, e, s') && !s.accepting
    ensures !s'.accepting
    ensures Remaining(s') + (if WorkerEvent(e) then 1 else 0) <= Remaining(s)
  {
    if WorkerEvent(e) {
      WaitingUpdate(s.lanes, e.lane, s'.lanes[e.lane]);
      BusyUpdate(s.lanes, e.lane, s'.lanes[e.lane]);
      OpenUpdate(s.lanes, e.lane, s'.lanes[e.lane]);
    } else if e.Stop? {
      EmptiedCounts(s.lanes);
      EmptiedOpen(s.lanes);
    }
  }

  lemma {:induction false} EmptiedOpen(lanes: seq<Lane>)
    ensures Open(Emptied(lanes)) == Open(lanes)
  {
    if lanes != [] {
      var n := |lanes| - 1;
      EmptiedOpen(lanes[..n]);
      assert Emptied(lanes)[..n] == Emptied(lanes[..n]);
    }
  }

  /** Until all workers have returned, one of them can move. */
  lemma WorkerCanMove(c: Config, s: State) returns (e: Event, s': State)
    requires ValidConfig(c) && |s.lanes| == c.workers && !s.accepting && !AllExited(s)
    ensures Next(c, s, e, s') && WorkerEvent(e) && !s'.accepting
  {
    var l :| l in s.lanes && !l.exited;
    var i :| 0 <= i < |s.lanes| && s.lanes[i] == l;
    if l.running.Some? {
      e, s' := Finish(i, false), AfterFinish(s, i, false);
    } else if l.tasks != [] {
      e, s' := Take(i), AfterTake(s, i);
    } else {
      e, s' := Exit(i), AfterExit(s, i);
    }
  }

  lemma {:induction false} NoneOpen(lanes: seq<Lane>)
    requires forall l :: l in lanes ==> l.exited
    ensures Open(lanes) == 0
  {
    if lanes != [] {
      NoneOpen(lanes[..|lanes| - 1]);
    }
  }

  lemma NothingLeft(c: Config, s: State)
    requires ValidConfig(c) && Inv(c, s) && AllExited(s)
    ensures Remaining(s) == 0
  {
    NoneWaiting(s.lanes);
    BusyBound(s.lanes);
    NoneOpen(s.lanes);
  }

  /**
   The joins of Stop come to an end: from the admission cutoff on the workers take at most
   `Remaining` steps, however they interleave with submissions and further stops, and the run can
   be continued by a worker exactly as long as one has not returned.
   */
  lemma {:induction false} StopTerminates(c: Config, ss: seq<State>, es: seq<Event>)
    requires ValidConfig(c) && IsRun(Steps(c), ss, es) && Inv(c, ss[0]) && !ss[0].accepting
    ensures Inv(c, ss[|es|]) && !ss[|es|].accepting
    ensures Moves(es) + Remaining(ss[|es|]) <= Remaining(ss[0])
    ensures Remaining(ss[|es|]) == 0 <==> AllExited(ss[|es|])
  {
    var n := |es|;
    if n > 0 {
      StopTerminates(c, ss[..n], es[..n - 1]);
      assert Steps(c)(ss[n - 1], es[n - 1], ss[n]);
      InvStep(c, ss[n - 1], es[n - 1], ss[n]);
      StoppedStep(c, ss[n - 1], es[n - 1], ss[n]);
    }
    ReturnedMeansDone(c, ss[n]);
  }

  lemma ReturnedMeansDone(c: Config, s: State)
    requires ValidConfig(c) && Inv(c, s) && !s.accepting
    ensures Remaining(s) == 0 <==> AllExited(s)
  {
    if AllExited(s) {
      NothingLeft(c, s);
    } else {
      var e, s' := WorkerCanMove(c, s);
      StoppedStep(c, s, e, s');
    }
  }

  // ----------------------------------------------------------------- the class

  class BusinessExecutor {
    const limit: nat
    const hash: string -> nat
    var accepting: bool
    var lanes: seq<Lane>
    var metrics: Metrics
    ghost var log: Log

    ghost function Conf(): Config
      reads this
    {
      Config(|lanes|, limit, hash)
    }

    ghost function Abs(): State
      reads this
    {
      State(accepting, lanes, metrics, log)
    }

    ghost predicate Valid()
      reads this
    {
      ValidConfig(Conf()) && Inv(Conf(), Abs())
    }

    constructor (workers: nat, limit: nat, hash: string -> nat)
      requires 1 <= workers <= MAX_WORKERS && limit > 0
      ensures Valid() && Conf() == Config(workers, limit, hash) && Abs() == Initial(Conf())
    {
      this.limit, this.hash := limit, hash;
      accepting := true;
      lanes := seq(workers, _ => Lane([], None, false));
      metrics := Metrics(0, 0, 0, 0, 0, 0);
      log := Log([], [], [], []);
      new;
      InitialInv(Conf());
    }

    /** Out-of-range limits throw. */
    static method Create(workers: nat, limit: nat, hash: string -> nat) returns (r: Option<BusinessExecutor>)
      ensures r.Some? <==> ValidConfig(Config(workers, limit, hash))
      ensures r.Some? ==> fresh(r.value) && r.value.Valid() && r.value.Abs() == Initial(Config(workers, limit, hash))
    {
      if workers == 0 || workers > MAX_WORKERS || limit == 0 {
        return None;
      }
      var e := new BusinessExecutor(workers, limit, hash);
      return Some(e);
    }

    method Enqueue(task: Task)
      requires |lanes| > 0
      modifies this
      ensures accepting == old(accepting) && |lanes| == old(|lanes|)
      ensures var i := hash(task.key) % |lanes|;
              lanes == old(lanes)[i := old(lanes)[i].(tasks := old(lanes)[i].tasks + [task])]
      ensures var queued := old(metrics).queued + 1;
              metrics == old(metrics).(queued := queued, highWater := Max(old(metrics).highWater, queued))
      ensures log == old(log).(submitted := old(log).submitted + [task])
    {
      var i := hash(task.key) % |lanes|;
      lanes := lanes[i := lanes[i].(tasks := lanes[i].tasks + [task])];
      metrics := metrics.(queued := metrics.queued + 1);
      metrics := metrics.(highWater := Max(metrics.highWater, metrics.queued));
      log := log.(submitted := log.submitted + [task]);
    }

    method Submit(task: Task, callable: bool) returns (ok: bool)
      requires Valid()
      modifies this
      ensures Valid() && Conf() == old(Conf())
      ensures ok == Admits(Conf(), old(Abs()), callable)
      ensures Abs() == AfterSubmit(Conf(), old(Abs()), task, callable)
      ensures ok <==> callable && accepting && old(metrics).queued < limit
      ensures ok ==> var i := hash(task.key) % |lanes|;
                     lanes == old(lanes)[i := old(lanes)[i].(tasks := old(lanes)[i].tasks + [task])]
      ensures !ok ==> lanes == old(lanes)
    {
      ghost var c, s := Conf(), Abs();
      ok := callable && accepting && metrics.queued < limit;
      if ok {
        Enqueue(task);
      } else {
        metrics := metrics.(rejected := metrics.rejected + 1);
      }
      assert Conf() == c && Abs() == AfterSubmit(c, s, task, callable);
      InvStep(c, s, Event.Submit(task, callable), Abs());
    }

    /** The worker's first section, entered once its wait condition holds; no task means it returns. */
    method TakeNext(i: nat) returns (task: Option<Task>)
      requires Valid() && Idle(Abs(), i) && (!accepting || lanes[i].tasks != [])
      modifies this
      ensures Valid() && Conf() == old(Conf())
      ensures task.Some? <==> old(lanes[i].tasks) != []
      ensures task.Some? ==> Abs() == AfterTake(old(Abs()), i) && lanes[i].running == task
      ensures task.None? ==> Abs() == AfterExit(old(Abs()), i)
    {
      ghost var s := Abs();
      if lanes[i].tasks == [] {
        lanes := lanes[i := lanes[i].(exited := true)];
        InvStep(old(Conf()), s, Exit(i), Abs());
        return None;
      }
      var t := lanes[i].tasks[0];
      lanes := lanes[i := lanes[i].(tasks := lanes[i].tasks[1..], running := Some(t))];
      metrics := metrics.(queued := metrics.queued - 1);
      metrics := metrics.(active := metrics.active + 1);
      log := log.(starts := log.starts + [t]);
      InvStep(old(Conf()), s, Take(i), Abs());
      return Some(t);
    }

    /** The worker's second section, after the task returned or threw. */
    method FinishTask(i: nat, failed: bool)
      requires Valid() && i < |lanes| && lanes[i].running.Some?
      modifies this
      ensures Valid() && Conf() == old(Conf())
      ensures Abs() == AfterFinish(old(Abs()), i, failed)
    {
      ghost var s := Abs();
      log := log.(ends := log.ends + [lanes[i].running.value]);
      lanes := lanes[i := lanes[i].(running := None)];
      metrics := metrics.(active := metrics.active - 1, completed := metrics.completed + 1,
                          failed := metrics.failed + if failed then 1 else 0);
      InvStep(old(Conf()), s, Finish(i, failed), Abs());
    }

    method BeginStop()
      requires Valid()
      modifies this
      ensures Valid() && Conf() == old(Conf()) && Abs() == old(Abs()).(accepting := false)
    {
      ghost var s := Abs();
      accepting := false;
      InvStep(old(Conf()), s, Event.BeginStop, Abs());
    }

    /** Pop every waiting task of every lane, counting them. */
    method DiscardWaiting() returns (discarded: nat)
      modifies this`lanes
      ensures lanes == Emptied(old(lanes)) && discarded == |Waiting(old(lanes))|
    {
      discarded := 0;
      ghost var was := lanes;
      for i := 0 to |lanes|
        invariant |lanes| == |was|
        invariant forall j :: 0 <= j < i ==> lanes[j] == was[j].(tasks := [])
        invariant forall j :: i <= j < |lanes| ==> lanes[j] == was[j]
        invariant discarded == |Waiting(was[..i])|
      {
        discarded := discarded + |lanes[i].tasks|;
        while lanes[i].tasks != []
          invariant |lanes| == |was|
          invariant lanes[i] == was[i].(tasks := lanes[i].tasks)
          invariant forall j :: 0 <= j < i ==> lanes[j] == was[j].(tasks := [])
          invariant forall j :: i < j < |lanes| ==> lanes[j] == was[j]
          decreases |lanes[i].tasks|
        {
          lanes := lanes[i := lanes[i].(tasks := lanes[i].tasks[1..])];
        }
        assert was[..i + 1][..i] == was[..i];
      }
      assert was[..|was|] == was;
    }

    /** The critical section of Stop; the joins that follow wait for the workers' own steps. */
    method Stop(drain: bool) returns (discarded: nat)
      requires Valid()
      modifies this
      ensures Valid() && Conf() == old(Conf())
      ensures Abs() == AfterStop(old(Abs()), drain)
      ensures discarded == if drain then 0 else |Waiting(old(lanes))|
      ensures !accepting && |lanes| == old(|lanes|)
      ensures forall i :: 0 <= i < |lanes| ==> lanes[i] == if drain then old(lanes)[i] else old(lanes)[i].(tasks := [])
    {
      ghost var c, s := Conf(), Abs();
      discarded := 0;
      accepting := false;
      if !drain {
        log := log.(discarded := log.discarded + Waiting(lanes));
        discarded := DiscardWaiting();
        metrics := metrics.(queued := metrics.queued - discarded);
      }
      assert Conf() == c && Abs() == AfterStop(s, drain);
      InvStep(c, s, Event.Stop(drain), Abs());
    }

    /** The predicate WaitIdleUntil waits for. */
    method IsIdle() returns (idle: bool)
      requires Valid()
      ensures idle <==> forall l :: l in lanes ==> l.tasks == [] && l.running.None?
    {
      idle := metrics.queued == 0 && metrics.active == 0;
      NoneWaiting(lanes);
      BusyBound(lanes);
    }
  }
}
