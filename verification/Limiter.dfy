/**
 The gateway's counter script: every request is checked against several fixed-window counters, and
 either all of them count it or none does. Times are in milliseconds.
 */
module Limiter {
  import opened Common
  import opened Runs

  datatype Rule = Rule(key: string, limit: nat, seconds: nat)

  datatype Counter = Counter(count: nat, expires: int)

  /** `log` records every counted request, per key and in order. */
  datatype Entry = Entry(key: string, time: int)

  datatype State = State(counters: map<string, Counter>, now: int, log: seq<Entry>)

  // ------------------------------------------------------------ specification

  predicate Live(s: State, key: string) {
    key in s.counters && s.now < s.counters[key].expires
  }

  function CountOf(s: State, key: string): nat {
    if Live(s, key) then s.counters[key].count else 0
  }

  /** Redis TTL: -2 for a missing key, otherwise whole seconds, rounded to the nearest. */
  function Ttl(s: State, key: string): int {
    if Live(s, key) then (s.counters[key].expires - s.now + 500) / 1000 else -2
  }

  predicate Exhausted(s: State, r: Rule) {
    CountOf(s, r.key) >= r.limit
  }

  /** INCR, and EXPIRE for a key that was just created. */
  function Bump(s: State, r: Rule): State {
    var count := CountOf(s, r.key) + 1;
    var expires := if count == 1 then s.now + r.seconds * 1000 else s.counters[r.key].expires;
    s.(counters := s.counters[r.key := Counter(count, expires)], log := s.log + [Entry(r.key, s.now)])
  }

  function BumpAll(s: State, rules: seq<Rule>): State {
    if rules == [] then s else Bump(BumpAll(s, rules[..|rules| - 1]), rules[|rules| - 1])
  }

  predicate Blocks(s: State, rules: seq<Rule>, i: nat) {
    i < |rules| && Exhausted(s, rules[i]) && forall j :: 0 <= j < i ==> !Exhausted(s, rules[j])
  }

  predicate Admits(s: State, rules: seq<Rule>) {
    forall j :: 0 <= j < |rules| ==> !Exhausted(s, rules[j])
  }

  function After(s: State, rules: seq<Rule>): State {
    if Admits(s, rules) then BumpAll(s, rules) else s
  }

  // -------------------------------------------------------------------- runs

  /** Which limit and window belong to a key: fixed by its prefix. */
  datatype Limit = Limit(limit: nat, seconds: nat)

  type Policy = string -> Limit

  /** The rules of one request name distinct keys, each with its own limit and window. */
  ghost predicate Lawful(p: Policy, rules: seq<Rule>) {
    && (forall i, j | 0 <= i < j < |rules| :: rules[i].key != rules[j].key)
    && (forall i :: 0 <= i < |rules| ==> Governs(p, rules[i]))
  }

  predicate Governs(p: Policy, r: Rule) {
    p(r.key) == Limit(r.limit, r.seconds) && r.limit > 0 && r.seconds > 0
  }

  datatype Event = Tick(ms: nat) | Request(rules: seq<Rule>)

  ghost predicate Next(p: Policy, s: State, e: Event, s': State) {
    match e
    case Tick(ms) => s' == s.(now := s.now + ms)
    case Request(rules) => Lawful(p, rules) && s' == After(s, rules)
  }

  ghost function Steps(p: Policy): (State, Event, State) -> bool {
    (s: State, e: Event, s': State) => Next(p, s, e, s')
  }

  ghost predicate LimiterRun(p: Policy, ss: seq<State>, es: seq<Event>) {
    IsRun(Steps(p), ss, es) && ss[0].counters == map[] && ss[0].log == []
  }

  // ------------------------------------------------------- one key on its own

  function Times(log: seq<Entry>, key: string): seq<int> {
    if log == [] then []
    else Times(log[..|log| - 1], key) + (if log[|log| - 1].key == key then [log[|log| - 1].time] else [])
  }

  lemma TimesSnoc(log: seq<Entry>, e: Entry, key: string)
    ensures Times(log + [e], key) == Times(log, key) + (if e.key == key then [e.time] else [])
  {
    assert (log + [e])[..|log|] == log;
  }

  /** Admissions that are `gap` apart in number are at least `least` apart in time. */
  predicate Spread(times: seq<int>, gap: nat, least: int) {
    forall i, j | 0 <= i <= i + gap <= j < |times| :: times[j] - times[i] >= least
  }

  predicate Ordered(times: seq<int>, now: int) {
    && (forall i, j | 0 <= i < j < |times| :: times[i] <= times[j])
    && (forall i :: 0 <= i < |times| ==> times[i] <= now)
  }

  /**
   Where the last window of a key began, told from its admissions alone: the first one opens a window,
   and so does every later one that does not lie in the window before it.
   */
  function WindowStart(times: seq<int>, window: int): Option<int> {
    if times == [] then None
    else
      var n := |times| - 1;
      var before := WindowStart(times[..n], window);
      if before.Some? && times[n] < before.value + window then before else Some(times[n])
  }

  lemma WindowStartSnoc(times: seq<int>, now: int, window: int)
    ensures WindowStart(times + [now], window)
         == if WindowStart(times, window).Some? && now < WindowStart(times, window).value + window
            then WindowStart(times, window) else Some(now)
  {
    assert (times + [now])[..|times|] == times;
  }

  /**
   `c` counts the last admissions, the first of them at `start`. Earlier ones lie before `start`; those
   more than one full window back lie more than a window before it, and the next one at least that.
   */
  predicate Counts(times: seq<int>, c: Counter, limit: nat, window: int) {
    var n, start := |times|, c.expires - window;
    && 1 <= c.count <= limit && c.count <= n && times[n - c.count] == start
    && (forall i :: 0 <= i < n ==> times[i] < c.expires)
    && (forall i :: 0 <= i < n - c.count ==> times[i] < start)
    && (forall i :: 0 <= i < n - c.count - limit ==> times[i] < start - window)
    && (limit <= n - c.count ==> times[n - c.count - limit] <= start - window)
  }

  /** Twice the limit lies more than a window apart, one less at least a window. */
  predicate Paced(times: seq<int>, limit: nat, window: int) {
    Spread(times, 2 * limit, window + 1) && (limit > 0 ==> Spread(times, 2 * limit - 1, window))
  }

  predicate KeyInv(times: seq<int>, c: Option<Counter>, limit: nat, window: int, now: int) {
    && Ordered(times, now) && Paced(times, limit, window)
    && if c.None? then times == [] else Counts(times, c.value, limit, window)
  }

  function Record(s: State, key: string): Option<Counter> {
    if key in s.counters then Some(s.counters[key]) else None
  }

  /** One more admission: only its distance to the one `gap` before it is new. */
  lemma SpreadSnoc(times: seq<int>, now: int, gap: nat, least: int)
    requires Spread(times, gap, least) && Ordered(times, now) && gap > 0
    requires gap <= |times| ==> now - times[|times| - gap] >= least
    ensures Spread(times + [now], gap, least)
  {
  }

  lemma PacedSnoc(times: seq<int>, now: int, limit: nat, window: int)
    requires Paced(times, limit, window) && Ordered(times, now) && limit > 0
    requires 2 * limit <= |times| ==> now - times[|times| - 2 * limit] > window
    requires 2 * limit - 1 <= |times| ==> now - times[|times| - 2 * limit + 1] >= window
    ensures Paced(times + [now], limit, window) && Ordered(times + [now], now)
  {
    SpreadSnoc(times, now, 2 * limit, window + 1);
    SpreadSnoc(times, now, 2 * limit - 1, window);
  }

  lemma SameWindow(times: seq<int>, c: Counter, limit: nat, window: int, now: int)
    requires KeyInv(times, Some(c), limit, window, now) && c.count < limit && now < c.expires && window > 0
    ensures KeyInv(times + [now], Some(c.(count := c.count + 1)), limit, window, now)
  {
    var n, k := |times|, |times| - 2 * limit + 1;
    assert c.expires - window <= now;
    if 0 <= k {
      assert times[k] <= times[n - c.count - limit];
    }
    PacedSnoc(times, now, limit, window);
  }

  lemma NewWindow(times: seq<int>, c: Option<Counter>, limit: nat, window: int, now: int)
    requires KeyInv(times, c, limit, window, now) && limit > 0 && window > 0
    requires c.Some? ==> c.value.expires <= now
    ensures KeyInv(times + [now], Some(Counter(1, now + window)), limit, window, now)
  {
    var n := |times|;
    if limit <= n {
      assert times[n - limit] <= times[n - c.value.count];
      assert forall i :: 0 <= i < n - limit ==> times[i] < now - window;
    }
    PacedSnoc(times, now, limit, window);
  }

  lemma TimePasses(times: seq<int>, c: Option<Counter>, limit: nat, window: int, now: int, later: int)
    requires KeyInv(times, c, limit, window, now) && now <= later
    ensures KeyInv(times, c, limit, window, later)
  {
  }

  // ------------------------------------------------------------ all keys together

  ghost predicate Inv(p: Policy, s: State) {
    forall key :: HoldsAt(p, s, key)
  }

  predicate HoldsAt(p: Policy, s: State, key: string) {
    && KeyInv(Times(s.log, key), Record(s, key), p(key).limit, p(key).seconds * 1000, s.now)
    && Opened(Times(s.log, key), Record(s, key), p(key).seconds * 1000)
  }

  /** The counter of a key was created when its last window began. */
  predicate Opened(times: seq<int>, c: Option<Counter>, window: int) {
    c.Some? ==> WindowStart(times, window) == Some(c.value.expires - window)
  }

  lemma OpenedAfter(times: seq<int>, c: Option<Counter>, window: int, now: int)
    requires Opened(times, c, window) && (c.None? ==> times == []) && window > 0
    ensures Opened(times + [now], Some(Counted(c, window, now)), window)
  {
    WindowStartSnoc(times, now, window);
  }

  /** The counter of a key after one more admission. */
  function Counted(c: Option<Counter>, window: int, now: int): Counter {
    if c.Some? && now < c.value.expires then c.value.(count := c.value.count + 1) else Counter(1, now + window)
  }

  lemma BumpRecord(s: State, r: Rule)
    requires Live(s, r.key) ==> s.counters[r.key].count > 0
    ensures Record(Bump(s, r), r.key) == Some(Counted(Record(s, r.key), r.seconds * 1000, s.now))
    ensures Times(Bump(s, r).log, r.key) == Times(s.log, r.key) + [s.now]
  {
    TimesSnoc(s.log, Entry(r.key, s.now), r.key);
  }

  /** The history of one key after one more admission. */
  lemma Admission(times: seq<int>, c: Option<Counter>, limit: nat, window: int, now: int)
    requires KeyInv(times, c, limit, window, now) && limit > 0 && window > 0
    requires c.Some? && now < c.value.expires ==> c.value.count < limit
    ensures KeyInv(times + [now], Some(Counted(c, window, now)), limit, window, now)
  {
    if c.Some? && now < c.value.expires {
      SameWindow(times, c.value, limit, window, now);
    } else {
      NewWindow(times, c, limit, window, now);
    }
  }

  lemma CounterOf(p: Policy, s: State, r: Rule)
    requires HoldsAt(p, s, r.key) && Governs(p, r) && !Exhausted(s, r)
    ensures Live(s, r.key) ==> 0 < s.counters[r.key].count < r.limit
  {
  }

  lemma BumpKeepsKey(p: Policy, s: State, r: Rule)
    requires HoldsAt(p, s, r.key) && Governs(p, r) && !Exhausted(s, r)
    ensures HoldsAt(p, Bump(s, r), r.key)
  {
    CounterOf(p, s, r);
    BumpRecord(s, r);
    var times, c, window := Times(s.log, r.key), Record(s, r.key), r.seconds * 1000;
    Admission(times, c, r.limit, window, s.now);
    OpenedAfter(times, c, window, s.now);
    var s' := Bump(s, r);
    assert Times(s'.log, r.key) == times + [s.now] && Record(s', r.key) == Some(Counted(c, window, s.now));
  }

  lemma BumpKeepsOthers(p: Policy, s: State, r: Rule, key: string)
    requires HoldsAt(p, s, key) && key != r.key
    ensures HoldsAt(p, Bump(s, r), key)
  {
    TimesSnoc(s.log, Entry(r.key, s.now), key);
    assert Times(Bump(s, r).log, key) == Times(s.log, key);
    assert Record(Bump(s, r), key) == Record(s, key);
  }

  /** A key none of the rules names keeps its counter and its history. */
  lemma {:induction false} BumpAllFrame(s: State, rules: seq<Rule>, key: string)
    requires forall i :: 0 <= i < |rules| ==> rules[i].key != key
    ensures Record(BumpAll(s, rules), key) == Record(s, key) && Times(BumpAll(s, rules).log, key) == Times(s.log, key)
    ensures BumpAll(s, rules).now == s.now
  {
    if rules != [] {
      var n := |rules| - 1;
      BumpAllFrame(s, rules[..n], key);
      TimesSnoc(BumpAll(s, rules[..n]).log, Entry(rules[n].key, s.now), key);
    }
  }

  lemma ExhaustedFrame(s: State, u: State, r: Rule)
    requires Record(u, r.key) == Record(s, r.key) && u.now == s.now
    ensures Exhausted(u, r) == Exhausted(s, r)
  {
  }

  lemma {:induction false} BumpAllKeepsInv(p: Policy, s: State, rules: seq<Rule>)
    requires Inv(p, s) && Lawful(p, rules) && Admits(s, rules)
    ensures Inv(p, BumpAll(s, rules))
  {
    if rules != [] {
      var n := |rules| - 1;
      var u := BumpAll(s, rules[..n]);
      BumpAllKeepsInv(p, s, rules[..n]);
      BumpAllFrame(s, rules[..n], rules[n].key);
      ExhaustedFrame(s, u, rules[n]);
      forall key ensures HoldsAt(p, Bump(u, rules[n]), key) {
        assert HoldsAt(p, u, key) && HoldsAt(p, u, rules[n].key);
        if key == rules[n].key {
          BumpKeepsKey(p, u, rules[n]);
        } else {
          BumpKeepsOthers(p, u, rules[n], key);
        }
      }
    }
  }

  lemma TickKeepsInv(p: Policy, s: State, ms: nat)
    requires Inv(p, s)
    ensures Inv(p, s.(now := s.now + ms))
  {
    var s' := s.(now := s.now + ms);
    forall key ensures HoldsAt(p, s', key) {
      assert HoldsAt(p, s, key);
      TimePasses(Times(s.log, key), Record(s, key), p(key).limit, p(key).seconds * 1000, s.now, s'.now);
    }
  }

  lemma InvStep(p: Policy, s: State, e: Event, s': State)
    requires Inv(p, s) && Next(p, s, e, s')
    ensures Inv(p, s')
  {
    match e
    case Tick(ms) => TickKeepsInv(p, s, ms);
    case Request(rules) =>
      if Admits(s, rules) {
        BumpAllKeepsInv(p, s, rules);
      }
  }

  lemma Reachable(p: Policy, ss: seq<State>, es: seq<Event>, i: nat)
    requires LimiterRun(p, ss, es) && i < |ss|
    ensures Inv(p, ss[i])
  {
    var next := Steps(p);
    var inv := (s: State) => Inv(p, s);
    forall s: State, e: Event, s': State | inv(s) && next(s, e, s') ensures inv(s') {
      InvStep(p, s, e, s');
    }
    Always(next, inv, ss, es, i);
  }

  // -------------------------------------------------------------- theorems

  /** No counter ever exceeds its limit. */
  lemma CounterWithinLimit(p: Policy, ss: seq<State>, es: seq<Event>, i: nat, key: string)
    requires LimiterRun(p, ss, es) && i < |ss| && key in ss[i].counters
    ensures CountOf(ss[i], key) <= ss[i].counters[key].count <= p(key).limit
  {
    Reachable(p, ss, es, i);
    assert HoldsAt(p, ss[i], key);
  }

  /** How many of the times lie in the closed interval. */
  function Within(times: seq<int>, from: int, to: int): nat {
    if times == [] then 0
    else Within(times[..|times| - 1], from, to) + (if from <= times[|times| - 1] <= to then 1 else 0)
  }

  lemma {:induction false} NoneWithin(times: seq<int>, from: int, to: int)
    requires forall i :: 0 <= i < |times| ==> times[i] < from
    ensures Within(times, from, to) == 0
  {
    if times != [] {
      NoneWithin(times[..|times| - 1], from, to);
    }
  }

  lemma {:induction false} WithinLast(times: seq<int>, k: nat, from: int, to: int)
    requires k <= |times|
    ensures Within(times, from, to) <= Within(times[..|times| - k], from, to) + k
  {
    if k == 0 {
      assert times[..|times|] == times;
    } else {
      WithinLast(times[..|times| - 1], k - 1, from, to);
      assert times[..|times| - 1][..|times| - k] == times[..|times| - k];
    }
  }

  /** An interval of length `least`, its end excluded, holds at most `gap` admissions. */
  lemma {:induction false} SpreadHolds(times: seq<int>, gap: nat, least: int, now: int, from: int)
    requires Ordered(times, now) && Spread(times, gap, least)
    ensures Within(times, from, from + least - 1) <= gap
  {
    var n, k := |times|, Min(|times|, gap);
    if n > 0 && times[n - 1] >= from + least {
      SpreadHolds(times[..n - 1], gap, least, now, from);
    } else {
      WithinLast(times, k, from, from + least - 1);
      forall i | 0 <= i < n - k ensures times[i] < from {
        assert times[n - 1] - times[i] >= least;
      }
      NoneWithin(times[..n - k], from, from + least - 1);
    }
  }

  /**
   Whatever the traffic on all keys together, any time interval as long as a key's window admits
   at most twice its limit on that key, and one less if one end of the interval is excluded.
   */
  lemma WindowAdmitsAtMostTwiceTheLimit(p: Policy, ss: seq<State>, es: seq<Event>, i: nat, key: string, from: int)
    requires LimiterRun(p, ss, es) && i < |ss|
    ensures var times, window := Times(ss[i].log, key), p(key).seconds * 1000;
            && Within(times, from, from + window) <= 2 * p(key).limit
            && (p(key).limit > 0 ==> Within(times, from, from + window - 1) <= 2 * p(key).limit - 1)
  {
    Reachable(p, ss, es, i);
    assert HoldsAt(p, ss[i], key);
    var times, limit, window := Times(ss[i].log, key), p(key).limit, p(key).seconds * 1000;
    SpreadHolds(times, 2 * limit, window + 1, ss[i].now, from);
    if limit > 0 {
      SpreadHolds(times, 2 * limit - 1, window, ss[i].now, from);
    }
  }

  /** Any 2L admissions of a key with limit L take at least its window. */
  lemma AdmissionsAreSpread(p: Policy, ss: seq<State>, es: seq<Event>, i: nat, key: string, a: nat, b: nat)
    requires LimiterRun(p, ss, es) && i < |ss| && p(key).limit > 0
    requires a + 2 * p(key).limit - 1 <= b < |Times(ss[i].log, key)|
    ensures Times(ss[i].log, key)[b] - Times(ss[i].log, key)[a] >= p(key).seconds * 1000
  {
    Reachable(p, ss, es, i);
    assert HoldsAt(p, ss[i], key);
  }

  predicate Names(rules: seq<Rule>, key: string) {
    exists i :: 0 <= i < |rules| && rules[i].key == key
  }

  function Once(yes: bool, now: int): seq<int> {
    if yes then [now] else []
  }

  lemma BumpTimes(s: State, r: Rule, key: string)
    ensures Times(Bump(s, r).log, key) == Times(s.log, key) + Once(r.key == key, s.now)
  {
    TimesSnoc(s.log, Entry(r.key, s.now), key);
  }

  /** An admitted request counts exactly once on each of its keys and on no other; a refused one on none. */
  lemma {:induction false} CountsOnceOnEachKey(s: State, rules: seq<Rule>, key: string)
    requires forall i, j | 0 <= i < j < |rules| :: rules[i].key != rules[j].key
    ensures Times(BumpAll(s, rules).log, key) == Times(s.log, key) + Once(Names(rules, key), s.now)
    ensures BumpAll(s, rules).now == s.now
  {
    var before := Times(s.log, key);
    if rules == [] {
      assert before + [] == before;
    } else {
      var n := |rules| - 1;
      var named, last := Names(rules[..n], key), rules[n].key == key;
      CountsOnceOnEachKey(s, rules[..n], key);
      BumpTimes(BumpAll(s, rules[..n]), rules[n], key);
      NamesSnoc(rules, key);
      assert before + Once(named, s.now) + Once(last, s.now) == before + Once(named || last, s.now);
    }
  }

  lemma NamesSnoc(rules: seq<Rule>, key: string)
    requires rules != [] && forall i, j | 0 <= i < j < |rules| :: rules[i].key != rules[j].key
    ensures Names(rules, key) == (Names(rules[..|rules| - 1], key) || rules[|rules| - 1].key == key)
    ensures !(Names(rules[..|rules| - 1], key) && rules[|rules| - 1].key == key)
  {
    var n := |rules| - 1;
    if Names(rules, key) && rules[n].key != key {
      var i :| 0 <= i < |rules| && rules[i].key == key;
      assert rules[..n][i].key == key;
    }
  }

  // ------------------------------------------------------------ who is refused, exactly

  /** How many requests the window that is open now has admitted. */
  function InWindow(times: seq<int>, window: int, now: int): nat {
    var start := WindowStart(times, window);
    if start.None? || start.value + window <= now then 0 else Within(times, start.value, now)
  }

  lemma {:induction false} AllWithin(times: seq<int>, from: int, to: int)
    requires forall i :: 0 <= i < |times| ==> from <= times[i] <= to
    ensures Within(times, from, to) == |times|
  {
    if times != [] {
      AllWithin(times[..|times| - 1], from, to);
    }
  }

  lemma {:induction false} WithinConcat(a: seq<int>, b: seq<int>, from: int, to: int)
    ensures Within(a + b, from, to) == Within(a, from, to) + Within(b, from, to)
    decreases |b|
  {
    if b == [] {
      assert a + b == a;
    } else {
      WithinConcat(a, b[..|b| - 1], from, to);
      assert (a + b)[..|a + b| - 1] == a + b[..|b| - 1];
    }
  }

  /** The counter of a key is the number of admissions in its open window. */
  lemma CountIsInWindow(times: seq<int>, c: Counter, limit: nat, window: int, now: int)
    requires KeyInv(times, Some(c), limit, window, now) && Opened(times, Some(c), window) && now < c.expires
    ensures InWindow(times, window, now) == c.count
  {
    var k, start := |times| - c.count, c.expires - window;
    assert times == times[..k] + times[k..];
    WithinConcat(times[..k], times[k..], start, now);
    NoneWithin(times[..k], start, now);
    AllWithin(times[k..], start, now);
  }

  lemma CountOfKey(p: Policy, s: State, key: string)
    requires HoldsAt(p, s, key)
    ensures CountOf(s, key) == InWindow(Times(s.log, key), p(key).seconds * 1000, s.now)
  {
    if Live(s, key) {
      CountIsInWindow(Times(s.log, key), s.counters[key], p(key).limit, p(key).seconds * 1000, s.now);
    }
  }

  /** Every key the request names has room: its open window has admitted fewer requests than its limit. */
  predicate HasRoom(s: State, rules: seq<Rule>) {
    forall r :: r in rules ==> InWindow(Times(s.log, r.key), r.seconds * 1000, s.now) < r.limit
  }

  /**
   A request is refused exactly if the open window of some key it names has admitted `limit` requests
   already. Admitted, it counts once on each of its keys and on no other; refused, on none, and the
   counters stay as they are.
   */
  lemma RefusedExactlyWhenFull(p: Policy, ss: seq<State>, es: seq<Event>, i: nat, key: string)
    requires LimiterRun(p, ss, es) && i < |es| && es[i].Request?
    ensures var s, s', rules := ss[i], ss[i + 1], es[i].rules;
            && (Admits(s, rules) <==> HasRoom(s, rules))
            && Times(s'.log, key) == Times(s.log, key) + Once(HasRoom(s, rules) && Names(rules, key), s.now)
            && s'.now == s.now && (!HasRoom(s, rules) ==> s' == s)
  {
    var s, rules := ss[i], es[i].rules;
    Reachable(p, ss, es, i);
    assert Steps(p)(s, es[i], ss[i + 1]);
    RoomIsAdmission(p, s, rules);
    CountsOnceOnEachKey(s, rules, key);
    assert Times(s.log, key) + [] == Times(s.log, key);
  }

  lemma RoomIsAdmission(p: Policy, s: State, rules: seq<Rule>)
    requires Inv(p, s) && Lawful(p, rules)
    ensures Admits(s, rules) <==> HasRoom(s, rules)
  {
    forall j: nat | j < |rules|
      ensures Exhausted(s, rules[j])
              <==> !(InWindow(Times(s.log, rules[j].key), rules[j].seconds * 1000, s.now) < rules[j].limit)
    {
      assert HoldsAt(p, s, rules[j].key) && Governs(p, rules[j]);
      CountOfKey(p, s, rules[j].key);
    }
    assert forall j :: 0 <= j < |rules| ==> rules[j] in rules;
  }

  // ------------------------------------------------------------- the gateway's rules

  datatype Route = VerifyCode | UserLogin | Register | ResetPassword

  const REQUESTS := "requests:"
  const COOLDOWN := "mail:cooldown:"
  const HOUR := "mail:hour:"
  const GLOBAL := "mail:global"
  const LOGIN := "login:attempts:"
  const VERIFY := "verify:attempts:"

  /** `client` and `account` are hex digests. */
  function RulesFor(prefix: string, route: Route, client: string, account: string): seq<Rule> {
    [Rule(prefix + REQUESTS + client, 120, 60)] +
    match route
    case VerifyCode =>
      [Rule(prefix + COOLDOWN + account, 1, 60), Rule(prefix + HOUR + account, 5, 3600),
       Rule(prefix + GLOBAL, 20, 3600)]
    case UserLogin => [Rule(prefix + LOGIN + account, 10, 300)]
    case _ => [Rule(prefix + VERIFY + account, 5, 180)]
  }

  function LimitFor(kind: string): Limit {
    if REQUESTS <= kind then Limit(120, 60)
    else if COOLDOWN <= kind then Limit(1, 60)
    else if HOUR <= kind then Limit(5, 3600)
    else if GLOBAL <= kind then Limit(20, 3600)
    else if LOGIN <= kind then Limit(10, 300)
    else Limit(5, 180)
  }

  /** The limit of a key is determined by what follows the prefix. */
  function GatewayPolicy(prefix: string): Policy {
    (key: string) => LimitFor(if prefix <= key then key[|prefix|..] else key)
  }

  lemma KeyKind(prefix: string, kind: string, rest: string)
    ensures GatewayPolicy(prefix)(prefix + kind + rest) == LimitFor(kind + rest)
  {
    var key := prefix + kind + rest;
    assert key == prefix + (kind + rest);
    assert prefix <= key && key[|prefix|..] == kind + rest;
  }

  /** The six kinds of key never collide, since they differ in one of their first six characters. */
  predicate Apart(a: string, b: string) {
    exists i :: 0 <= i < |a| && i < |b| && a[i] != b[i]
  }

  lemma ApartKeys(prefix: string, a: string, b: string, x: string, y: string)
    requires Apart(a, b)
    ensures prefix + a + x != prefix + b + y
    ensures !(a <= b + y)
  {
    var i :| 0 <= i < |a| && i < |b| && a[i] != b[i];
    assert (prefix + a + x)[|prefix| + i] == a[i] && (prefix + b + y)[|prefix| + i] == b[i];
    assert (b + y)[i] == b[i];
  }

  lemma KindsApart()
    ensures Apart(REQUESTS, COOLDOWN) && Apart(REQUESTS, HOUR) && Apart(REQUESTS, GLOBAL)
    ensures Apart(REQUESTS, LOGIN) && Apart(REQUESTS, VERIFY)
    ensures Apart(COOLDOWN, HOUR) && Apart(COOLDOWN, GLOBAL) && Apart(HOUR, GLOBAL)
    ensures Apart(COOLDOWN, LOGIN) && Apart(HOUR, LOGIN) && Apart(GLOBAL, LOGIN)
    ensures Apart(COOLDOWN, VERIFY) && Apart(HOUR, VERIFY) && Apart(GLOBAL, VERIFY) && Apart(LOGIN, VERIFY)
  {
    assert REQUESTS[0] == 'r' && LOGIN[0] == 'l' && VERIFY[0] == 'v';
    assert COOLDOWN[0] == HOUR[0] == GLOBAL[0] == 'm';
    assert COOLDOWN[5] == 'c' && HOUR[5] == 'h' && GLOBAL[5] == 'g';
  }

  lemma KindsLimits(rest: string)
    ensures LimitFor(REQUESTS + rest) == Limit(120, 60)
    ensures LimitFor(COOLDOWN + rest) == Limit(1, 60)
    ensures LimitFor(HOUR + rest) == Limit(5, 3600)
    ensures LimitFor(GLOBAL + rest) == Limit(20, 3600)
    ensures LimitFor(LOGIN + rest) == Limit(10, 300)
    ensures LimitFor(VERIFY + rest) == Limit(5, 180)
  {
    KindsApart();
    ApartKeys("", REQUESTS, COOLDOWN, "", rest);
    ApartKeys("", REQUESTS, HOUR, "", rest);
    ApartKeys("", REQUESTS, GLOBAL, "", rest);
    ApartKeys("", REQUESTS, LOGIN, "", rest);
    ApartKeys("", REQUESTS, VERIFY, "", rest);
    ApartKeys("", COOLDOWN, HOUR, "", rest);
    ApartKeys("", COOLDOWN, GLOBAL, "", rest);
    ApartKeys("", COOLDOWN, LOGIN, "", rest);
    ApartKeys("", COOLDOWN, VERIFY, "", rest);
    ApartKeys("", HOUR, GLOBAL, "", rest);
    ApartKeys("", HOUR, LOGIN, "", rest);
    ApartKeys("", HOUR, VERIFY, "", rest);
    ApartKeys("", GLOBAL, LOGIN, "", rest);
    ApartKeys("", GLOBAL, VERIFY, "", rest);
    ApartKeys("", LOGIN, VERIFY, "", rest);
  }

  lemma Governed(prefix: string, rest: string)
    ensures var p := GatewayPolicy(prefix);
            && Governs(p, Rule(prefix + REQUESTS + rest, 120, 60))
            && Governs(p, Rule(prefix + COOLDOWN + rest, 1, 60))
            && Governs(p, Rule(prefix + HOUR + rest, 5, 3600))
            && Governs(p, Rule(prefix + GLOBAL + rest, 20, 3600))
            && Governs(p, Rule(prefix + LOGIN + rest, 10, 300))
            && Governs(p, Rule(prefix + VERIFY + rest, 5, 180))
  {
    KindsLimits(rest);
    KeyKind(prefix, REQUESTS, rest);
    KeyKind(prefix, COOLDOWN, rest);
    KeyKind(prefix, HOUR, rest);
    KeyKind(prefix, GLOBAL, rest);
    KeyKind(prefix, LOGIN, rest);
    KeyKind(prefix, VERIFY, rest);
  }

  lemma MailKeysDiffer(prefix: string, client: string, account: string)
    ensures var r, c := prefix + REQUESTS + client, prefix + COOLDOWN + account;
            var h, g := prefix + HOUR + account, prefix + GLOBAL;
            r != c && r != h && r != g && c != h && c != g && h != g
  {
    KindsApart();
    ApartKeys(prefix, REQUESTS, COOLDOWN, client, account);
    ApartKeys(prefix, REQUESTS, HOUR, client, account);
    ApartKeys(prefix, REQUESTS, GLOBAL, client, "");
    ApartKeys(prefix, COOLDOWN, HOUR, account, account);
    ApartKeys(prefix, COOLDOWN, GLOBAL, account, "");
    ApartKeys(prefix, HOUR, GLOBAL, account, "");
    assert prefix + GLOBAL + "" == prefix + GLOBAL;
  }

  lemma MailRulesAreLawful(prefix: string, client: string, account: string)
    ensures Lawful(GatewayPolicy(prefix), RulesFor(prefix, VerifyCode, client, account))
  {
    Governed(prefix, client);
    Governed(prefix, account);
    Governed(prefix, "");
    assert prefix + GLOBAL + "" == prefix + GLOBAL;
    MailKeysDiffer(prefix, client, account);
    LawfulFour(GatewayPolicy(prefix),
               Rule(prefix + REQUESTS + client, 120, 60), Rule(prefix + COOLDOWN + account, 1, 60),
               Rule(prefix + HOUR + account, 5, 3600), Rule(prefix + GLOBAL, 20, 3600));
  }

  lemma LawfulFour(p: Policy, a: Rule, b: Rule, c: Rule, d: Rule)
    requires Governs(p, a) && Governs(p, b) && Governs(p, c) && Governs(p, d)
    requires a.key != b.key && a.key != c.key && a.key != d.key && b.key != c.key && b.key != d.key && c.key != d.key
    ensures Lawful(p, [a] + [b, c, d])
  {
  }

  lemma LawfulPair(p: Policy, a: Rule, b: Rule)
    requires Governs(p, a) && Governs(p, b) && a.key != b.key
    ensures Lawful(p, [a] + [b])
  {
  }

  lemma AttemptRulesAreLawful(prefix: string, kind: string, limit: Limit, client: string, account: string)
    requires Apart(REQUESTS, kind) && Governs(GatewayPolicy(prefix), Rule(prefix + REQUESTS + client, 120, 60))
    requires Governs(GatewayPolicy(prefix), Rule(prefix + kind + account, limit.limit, limit.seconds))
    ensures Lawful(GatewayPolicy(prefix), [Rule(prefix + REQUESTS + client, 120, 60)]
                                          + [Rule(prefix + kind + account, limit.limit, limit.seconds)])
  {
    ApartKeys(prefix, REQUESTS, kind, client, account);
    LawfulPair(GatewayPolicy(prefix), Rule(prefix + REQUESTS + client, 120, 60),
               Rule(prefix + kind + account, limit.limit, limit.seconds));
  }

  /** So the bounds above hold of the gateway: its rules are lawful for one policy, on every route. */
  lemma GatewayRulesAreLawful(prefix: string, route: Route, client: string, account: string)
    ensures Lawful(GatewayPolicy(prefix), RulesFor(prefix, route, client, account))
  {
    if route.VerifyCode? {
      MailRulesAreLawful(prefix, client, account);
    } else {
      KindsApart();
      Governed(prefix, client);
      Governed(prefix, account);
      if route.UserLogin? {
        AttemptRulesAreLawful(prefix, LOGIN, Limit(10, 300), client, account);
      } else {
        AttemptRulesAreLawful(prefix, VERIFY, Limit(5, 180), client, account);
      }
    }
  }

  /** The open window of the key has admitted fewer than `limit` requests in `seconds`. */
  predicate Under(s: State, key: string, limit: nat, seconds: nat) {
    InWindow(Times(s.log, key), seconds * 1000, s.now) < limit
  }

  /**
   The gateway lets a request through exactly while its client is under 120 requests a minute, and: a
   verification mail, while its account is under 1 a minute and 5 an hour and all accounts together
   under 20 an hour; a login, while its account is under 10 in 5 minutes; a registration or a password
   reset, while its account is under 5 of both in 3 minutes.
   */
  lemma GatewayAdmitsExactly(prefix: string, route: Route, client: string, account: string,
                             ss: seq<State>, es: seq<Event>, i: nat)
    requires LimiterRun(GatewayPolicy(prefix), ss, es) && i < |es|
    requires es[i] == Request(RulesFor(prefix, route, client, account))
    ensures Admits(ss[i], RulesFor(prefix, route, client, account)) <==>
            && Under(ss[i], prefix + "requests:" + client, 120, 60)
            && match route
               case VerifyCode =>
                 && Under(ss[i], prefix + "mail:cooldown:" + account, 1, 60)
                 && Under(ss[i], prefix + "mail:hour:" + account, 5, 3600)
                 && Under(ss[i], prefix + "mail:global", 20, 3600)
               case UserLogin => Under(ss[i], prefix + "login:attempts:" + account, 10, 300)
               case Register => Under(ss[i], prefix + "verify:attempts:" + account, 5, 180)
               case ResetPassword => Under(ss[i], prefix + "verify:attempts:" + account, 5, 180)
  {
    var s, first := ss[i], Rule(prefix + REQUESTS + client, 120, 60);
    var rules := RulesFor(prefix, route, client, account);
    assert Admits(s, rules) <==> HasRoom(s, rules) by {
      RefusedExactlyWhenFull(GatewayPolicy(prefix), ss, es, i, "");
    }
    match route
    case VerifyCode =>
      RoomOfFour(s, first, Rule(prefix + COOLDOWN + account, 1, 60), Rule(prefix + HOUR + account, 5, 3600),
                 Rule(prefix + GLOBAL, 20, 3600));
    case UserLogin => RoomOfPair(s, first, Rule(prefix + LOGIN + account, 10, 300));
    case _ => RoomOfPair(s, first, Rule(prefix + VERIFY + account, 5, 180));
  }

  lemma RoomOfFour(s: State, a: Rule, b: Rule, c: Rule, d: Rule)
    ensures HasRoom(s, [a] + [b, c, d]) <==>
            Under(s, a.key, a.limit, a.seconds) && Under(s, b.key, b.limit, b.seconds)
            && Under(s, c.key, c.limit, c.seconds) && Under(s, d.key, d.limit, d.seconds)
  {
    var rules := [a] + [b, c, d];
    assert rules[0] == a && rules[1] == b && rules[2] == c && rules[3] == d;
  }

  lemma RoomOfPair(s: State, a: Rule, b: Rule)
    ensures HasRoom(s, [a] + [b]) <==> Under(s, a.key, a.limit, a.seconds) && Under(s, b.key, b.limit, b.seconds)
  {
    var rules := [a] + [b];
    assert rules[0] == a && rules[1] == b;
  }

  /** In particular, no hour sees more than 39 mails, to whomever they go. */
  lemma MailPerHour(prefix: string, ss: seq<State>, es: seq<Event>, i: nat, from: int)
    requires LimiterRun(GatewayPolicy(prefix), ss, es) && i < |ss|
    ensures Within(Times(ss[i].log, prefix + GLOBAL), from, from + 3600 * 1000 - 1) <= 39
  {
    Governed(prefix, "");
    assert prefix + GLOBAL + "" == prefix + GLOBAL;
    WindowAdmitsAtMostTwiceTheLimit(GatewayPolicy(prefix), ss, es, i, prefix + GLOBAL, from);
  }

  /** And two mails to one account are at least a minute apart. */
  lemma MailCooldown(prefix: string, ss: seq<State>, es: seq<Event>, i: nat, account: string, a: nat, b: nat)
    requires LimiterRun(GatewayPolicy(prefix), ss, es) && i < |ss|
    requires a < b < |Times(ss[i].log, prefix + COOLDOWN + account)|
    ensures var times := Times(ss[i].log, prefix + COOLDOWN + account); times[b] - times[a] >= 60 * 1000
  {
    Governed(prefix, account);
    AdmissionsAreSpread(GatewayPolicy(prefix), ss, es, i, prefix + COOLDOWN + account, a, b);
  }

  // ------------------------------------------------------------------ the script

  class Counters {
    var counters: map<string, Counter>
    var now: int
    ghost var log: seq<Entry>

    ghost function Abs(): State
      reads this
    {
      State(counters, now, log)
    }

    constructor (now: int)
      ensures Abs() == State(map[], now, [])
    {
      counters, this.now, log := map[], now, [];
    }

    /** GET, with 0 for a missing or expired key. */
    method Get(key: string) returns (count: nat)
      ensures count == CountOf(Abs(), key)
    {
      count := if key in counters && now < counters[key].expires then counters[key].count else 0;
    }

    method TtlOf(key: string) returns (seconds: int)
      ensures seconds == Ttl(Abs(), key)
    {
      seconds := if key in counters && now < counters[key].expires
                 then (counters[key].expires - now + 500) / 1000 else -2;
    }

    method Incr(r: Rule)
      modifies this`counters, this`log
      ensures Abs() == Bump(old(Abs()), r)
    {
      var count := Get(r.key);
      var expires := if count > 0 then counters[r.key].expires else now;
      counters := counters[r.key := Counter(count + 1, expires)];
      if count + 1 == 1 {
        counters := counters[r.key := Counter(1, now + r.seconds * 1000)];
      }
      log := log + [Entry(r.key, now)];
      assert counters == Bump(old(Abs()), r).counters;
    }

    /**
     The script: 0 if every counter had room and all were raised; otherwise nothing changed and the
     answer is how long to wait for the first exhausted key, at least a second.
     */
    method Run(rules: seq<Rule>) returns (wait: int)
      modifies this`counters, this`log
      ensures Abs() == After(old(Abs()), rules)
      ensures wait == 0 <==> Admits(old(Abs()), rules)
      ensures wait != 0 ==>
                exists i: nat :: Blocks(old(Abs()), rules, i) && wait == Max(Ttl(old(Abs()), rules[i].key), 1)
    {
      ghost var s := Abs();
      for i := 0 to |rules|
        invariant Abs() == s && forall j :: 0 <= j < i ==> !Exhausted(s, rules[j])
      {
        var count := Get(rules[i].key);
        if count >= rules[i].limit {
          var ttl := TtlOf(rules[i].key);
          assert Blocks(s, rules, i);
          return Max(ttl, 1);
        }
      }
      for i := 0 to |rules|
        invariant Abs() == BumpAll(s, rules[..i])
      {
        assert rules[..i + 1][..i] == rules[..i];
        Incr(rules[i]);
      }
      assert rules[..|rules|] == rules;
      return 0;
    }
  }

  /** Waiting as told, and half a second for the rounding, the refusing counter has expired. */
  lemma WaitIsEnough(p: Policy, s: State, r: Rule, later: State)
    requires Governs(p, r) && Exhausted(s, r)
    requires later.now >= s.now + 1000 * Max(Ttl(s, r.key), 1) + 500 && Record(later, r.key) == Record(s, r.key)
    ensures !Exhausted(later, r)
  {
  }
}
