/**
 The in-memory sliding-window limiter of common/rate-limit.go: one bounded queue of
 accepted times per key, and a background pass that forgets idle keys. The clock is
 a parameter of every operation.
 */
module RateLimiter {

  datatype State = State(store: map<string, seq<int>>, windows: map<string, int>)

  /** A key present in the store has a queue with at least one entry. */
  predicate Sound(st: State) {
    && (forall k :: k in st.store ==> st.store[k] != [])
    && st.windows.Keys <= st.store.Keys
  }

  /** A Go map read: a missing window is 0. */
  function Window(st: State, key: string): int {
    if key in st.windows then st.windows[key] else 0
  }

  function Widened(st: State, key: string, duration: int): map<string, int> {
    if duration > Window(st, key) then st.windows[key := duration] else st.windows
  }

  predicate RequestAnswer(st: State, key: string, max: int, duration: int, now: int)
    requires Sound(st)
  {
    key in st.store && |st.store[key]| >= max ==> now - st.store[key][0] >= duration
  }

  function AfterRequest(st: State, key: string, max: int, duration: int, now: int): State
    requires Sound(st)
  {
    var queue :=
      if key !in st.store then [now]
      else if |st.store[key]| < max then st.store[key] + [now]
      else if now - st.store[key][0] >= duration then st.store[key][1..] + [now]
      else st.store[key];
    State(st.store[key := queue], Widened(st, key, duration))
  }

  predicate CheckAnswer(st: State, key: string, max: int, duration: int, now: int)
    requires Sound(st)
  {
    max > 0 && RequestAnswer(st, key, max, duration, now)
  }

  function AfterCheck(st: State, key: string, max: int, duration: int): State {
    if max > 0 && key in st.store then st.(windows := Widened(st, key, duration)) else st
  }

  predicate Expired(st: State, key: string, now: int)
    requires key in st.store
  {
    var queue := st.store[key];
    queue == [] || now - queue[|queue| - 1] >= Window(st, key)
  }

  function ExpiredKeys(st: State, now: int): set<string> {
    set k | k in st.store && Expired(st, k, now)
  }

  function AfterCleanup(st: State, now: int): State {
    State(st.store - ExpiredKeys(st, now), st.windows - ExpiredKeys(st, now))
  }

  class InMemoryRateLimiter {
    var store: map<string, seq<int>>
    var windows: map<string, int>

    ghost function View(): State
      reads this
    {
      State(store, windows)
    }

    constructor ()
      ensures View() == State(map[], map[])
    {
      store, windows := map[], map[];
    }

    /** The allocation of a new queue panics on a negative maximum. */
    method Request(key: string, max: int, duration: int, now: int) returns (ok: bool)
      requires Sound(View()) && max >= 0
      modifies this
      ensures ok == RequestAnswer(old(View()), key, max, duration, now)
      ensures View() == AfterRequest(old(View()), key, max, duration, now)
      ensures Sound(View())
    {
      if duration > (if key in windows then windows[key] else 0) {
        windows := windows[key := duration];
      }
      if key in store {
        if |store[key]| < max {
          store := store[key := store[key] + [now]];
          return true;
        }
        if now - store[key][0] >= duration {
          store := store[key := store[key][1..]];
          store := store[key := store[key] + [now]];
          return true;
        }
        assert store[key := store[key]] == store;
        return false;
      }
      store := store[key := [now]];
      return true;
    }

    method Check(key: string, max: int, duration: int, now: int) returns (ok: bool)
      requires Sound(View())
      modifies this
      ensures ok == CheckAnswer(old(View()), key, max, duration, now)
      ensures View() == AfterCheck(old(View()), key, max, duration)
      ensures Sound(View())
    {
      if max <= 0 {
        return false;
      }
      if key in store && duration > (if key in windows then windows[key] else 0) {
        windows := windows[key := duration];
      }
      if key !in store || |store[key]| < max {
        return true;
      }
      return now - store[key][0] >= duration;
    }

    /** One pass of clearExpiredItems. */
    method ClearExpired(now: int)
      requires Sound(View())
      modifies this
      ensures View() == AfterCleanup(old(View()), now)
      ensures Sound(View())
    {
      var keys := store.Keys;
      ghost var gone: set<string> := {};
      while keys != {}
        invariant keys <= store.Keys
        invariant gone == set k | k in old(store) - keys && Expired(old(View()), k, now)
        invariant store == old(store) - gone && windows == old(windows) - gone
        decreases keys
      {
        var key :| key in keys;
        var queue := store[key];
        if queue == [] || now - queue[|queue| - 1] >= (if key in windows then windows[key] else 0) {
          assert Expired(old(View()), key, now);
          store, windows := store - {key}, windows - {key};
          gone := gone + {key};
        }
        keys := keys - {key};
      }
      assert gone == ExpiredKeys(old(View()), now);
    }
  }

  // ---------------------------------------------------------------- whole runs

  datatype Event = Ask(key: string, now: int) | Peek(key: string, now: int) | Cleanup(now: int)

  datatype Limit = Limit(max: nat, duration: int)

  predicate Sane(limits: map<string, Limit>) {
    forall k :: k in limits ==> limits[k].max >= 1 && limits[k].duration > 0
  }

  /** The events all happen by now. */
  predicate EndsBy(es: seq<Event>, now: int) {
    forall i :: 0 <= i < |es| ==> es[i].now <= now
  }

  /** The clock never goes back. */
  predicate Ordered(es: seq<Event>) {
    es == [] || (Ordered(es[..|es| - 1]) && EndsBy(es[..|es| - 1], es[|es| - 1].now))
  }

  /** Every call names a key with a fixed limit, in clock order. */
  predicate Legal(limits: map<string, Limit>, es: seq<Event>) {
    && (forall i :: 0 <= i < |es| && !es[i].Cleanup? ==> es[i].key in limits)
    && Ordered(es)
  }

  function After(limits: map<string, Limit>, es: seq<Event>): (st: State)
    requires Legal(limits, es)
    ensures Sound(st)
  {
    if es == [] then State(map[], map[])
    else
      var st, e := After(limits, es[..|es| - 1]), es[|es| - 1];
      match e
      case Ask(k, now) => AfterRequest(st, k, limits[k].max, limits[k].duration, now)
      case Peek(k, now) => AfterCheck(st, k, limits[k].max, limits[k].duration)
      case Cleanup(now) => AfterCleanup(st, now)
  }

  /** What the limiter answers to one more event after a run. */
  predicate Answer(limits: map<string, Limit>, es: seq<Event>, e: Event)
    requires Legal(limits, es + [e])
  {
    assert Legal(limits, es) && (!e.Cleanup? ==> e.key in limits) by { LegalPrefix(limits, es, e); }
    var st := After(limits, es);
    match e
    case Ask(k, now) => RequestAnswer(st, k, limits[k].max, limits[k].duration, now)
    case Peek(k, now) => CheckAnswer(st, k, limits[k].max, limits[k].duration, now)
    case Cleanup(_) => true
  }

  lemma LegalPrefix(limits: map<string, Limit>, es: seq<Event>, e: Event)
    requires Legal(limits, es + [e])
    ensures Legal(limits, es) && EndsBy(es, e.now)
    ensures !e.Cleanup? ==> e.key in limits
  {
    assert (es + [e])[..|es + [e]| - 1] == es;
    assert (es + [e])[|es|] == e;
    forall i | 0 <= i < |es|
      ensures es[i] == (es + [e])[i]
    {}
  }

  /** How many of the times are younger than the duration. */
  function Young(times: seq<int>, now: int, duration: int): nat {
    if times == [] then 0
    else Young(times[..|times| - 1], now, duration) +
         (if now - times[|times| - 1] < duration then 1 else 0)
  }

  /**
   The specification: the complete list of a key's accepted requests, where a request
   is accepted when fewer than the maximum of them are younger than the duration.
   It never forgets anything and has no queue, no window and no cleanup.
   */
  function Accepted(limits: map<string, Limit>, es: seq<Event>, key: string): seq<int>
    requires key in limits
  {
    if es == [] then []
    else
      var log, e := Accepted(limits, es[..|es| - 1], key), es[|es| - 1];
      if e.Ask? && e.key == key && Young(log, e.now, limits[key].duration) < limits[key].max
      then log + [e.now] else log
  }

  predicate Sorted(s: seq<int>) {
    forall i, j :: 0 <= i <= j < |s| ==> s[i] <= s[j]
  }

  lemma {:induction false} YoungBounds(times: seq<int>, now: int, duration: int)
    ensures Young(times, now, duration) <= |times|
    ensures (forall i :: 0 <= i < |times| ==> now - times[i] >= duration) ==> Young(times, now, duration) == 0
    ensures (forall i :: 0 <= i < |times| ==> now - times[i] < duration) ==> Young(times, now, duration) == |times|
    ensures (exists i :: 0 <= i < |times| && now - times[i] >= duration) ==> Young(times, now, duration) < |times|
  {
    if times != [] {
      YoungBounds(times[..|times| - 1], now, duration);
      if i :| 0 <= i < |times| && now - times[i] >= duration {
        assert i < |times| - 1 ==> times[..|times| - 1][i] == times[i];
      }
    }
  }

  lemma {:induction false} YoungConcat(a: seq<int>, b: seq<int>, now: int, duration: int)
    ensures Young(a + b, now, duration) == Young(a, now, duration) + Young(b, now, duration)
  {
    if b == [] {
      assert a + b == a;
    } else {
      YoungConcat(a, b[..|b| - 1], now, duration);
      assert (a + b)[..|a + b| - 1] == a + b[..|b| - 1];
    }
  }

  /**
   What a queue stands for: the newest part of the full log. Everything missing from
   it is already older than the duration.
   */
  predicate Represents(queue: seq<int>, log: seq<int>, limit: Limit, clock: int) {
    && |queue| <= |log|
    && |queue| <= limit.max
    && log[|log| - |queue|..] == queue
    && Sorted(log)
    && AllBy(log, clock)
    && (forall i :: 0 <= i < |log| - |queue| ==> clock - log[i] >= limit.duration)
  }

  function Queue(st: State, key: string): seq<int> {
    if key in st.store then st.store[key] else []
  }

  predicate Tracks(limits: map<string, Limit>, es: seq<Event>, key: string, clock: int)
    requires Legal(limits, es) && key in limits
  {
    var st := After(limits, es);
    && Represents(Queue(st, key), Accepted(limits, es, key), limits[key], clock)
    && (key in st.store ==> key in st.windows && st.windows[key] == limits[key].duration)
  }

  /** The queue answers as the full log would. */
  lemma QueueAnswers(queue: seq<int>, log: seq<int>, limit: Limit, now: int)
    requires Represents(queue, log, limit, now) && limit.max >= 1
    ensures (queue == [] || |queue| < limit.max || now - queue[0] >= limit.duration)
            <==> Young(log, now, limit.duration) < limit.max
  {
    YoungOfQueue(queue, log, limit, now);
    if queue != [] {
      forall i, j | 0 <= i < j < |queue|
        ensures queue[i] <= queue[j]
      {
        assert queue[i] == log[|log| - |queue| + i] && queue[j] == log[|log| - |queue| + j];
      }
      YoungSorted(queue, now, limit.duration);
    }
  }

  /** Only what is still queued can be young. */
  lemma YoungOfQueue(queue: seq<int>, log: seq<int>, limit: Limit, now: int)
    requires Represents(queue, log, limit, now)
    ensures Young(log, now, limit.duration) == Young(queue, now, limit.duration) <= |queue|
  {
    var past := log[..|log| - |queue|];
    assert log == past + queue;
    YoungConcat(past, queue, now, limit.duration);
    YoungBounds(past, now, limit.duration);
    YoungBounds(queue, now, limit.duration);
  }

  lemma YoungSorted(times: seq<int>, now: int, duration: int)
    requires Sorted(times) && times != []
    ensures now - times[0] < duration ==> Young(times, now, duration) == |times|
    ensures now - times[0] >= duration ==> Young(times, now, duration) < |times|
  {
    YoungBounds(times, now, duration);
    if now - times[0] < duration {
      forall i | 0 <= i < |times|
        ensures now - times[i] < duration
      {
        assert i > 0 ==> times[0] <= times[i];
      }
    }
  }

  lemma QueueAccepts(queue: seq<int>, log: seq<int>, limit: Limit, now: int)
    requires Represents(queue, log, limit, now) && limit.max >= 1
    ensures |queue| < limit.max ==> Represents(queue + [now], log + [now], limit, now)
    ensures |queue| == limit.max && now - queue[0] >= limit.duration
            ==> Represents(queue[1..] + [now], log + [now], limit, now)
  {
    var more := log + [now];
    assert Sorted(more);
    if |queue| < limit.max {
      assert more[|more| - |queue + [now]|..] == queue + [now];
    } else {
      assert more[|more| - |queue|..] == queue[1..] + [now];
      assert queue[0] == log[|log| - |queue|];
    }
  }

  lemma RepresentsLater(queue: seq<int>, log: seq<int>, limit: Limit, clock: int, now: int)
    requires Represents(queue, log, limit, clock) && clock <= now
    ensures Represents(queue, log, limit, now)
  {}

  /** Cleanup only drops a key whose whole log is older than the duration. */
  lemma QueueForgets(queue: seq<int>, log: seq<int>, limit: Limit, now: int)
    requires Represents(queue, log, limit, now)
    requires queue == [] || now - queue[|queue| - 1] >= limit.duration
    ensures Represents([], log, limit, now)
  {
    forall i | 0 <= i < |log|
      ensures now - log[i] >= limit.duration
    {
      if i >= |log| - |queue| {
        assert queue[|queue| - 1] == log[|log| - 1];
      }
    }
  }

  lemma {:induction false} RunTracks(limits: map<string, Limit>, es: seq<Event>, key: string, now: int)
    requires Sane(limits) && Legal(limits, es) && key in limits && EndsBy(es, now)
    ensures Tracks(limits, es, key, now)
  {
    if es != [] {
      var init, e := es[..|es| - 1], es[|es| - 1];
      assert es == init + [e];
      assert EndsBy(init, e.now);
      RunTracks(limits, init, key, e.now);
      StepTracks(limits, init, e, key);
      RepresentsLater(Queue(After(limits, es), key), Accepted(limits, es, key), limits[key], e.now, now);
    }
  }

  /** What the queue of one key becomes, in terms of that queue alone. */
  lemma StepQueue(limits: map<string, Limit>, es: seq<Event>, e: Event, key: string)
    requires Legal(limits, es) && Legal(limits, es + [e]) && key in limits && limits[key].max >= 1
    ensures var st, queue, limit := After(limits, es), Queue(After(limits, es), key), limits[key];
            Queue(After(limits, es + [e]), key) ==
            if e.Ask? && e.key == key then
              if |queue| < limit.max then queue + [e.now]
              else if e.now - queue[0] >= limit.duration then queue[1..] + [e.now]
              else queue
            else if e.Cleanup? && key in st.store && Expired(st, key, e.now) then []
            else queue
  {
    assert (es + [e])[..|es + [e]| - 1] == es;
  }

  lemma StepWindow(limits: map<string, Limit>, es: seq<Event>, e: Event, key: string)
    requires Sane(limits) && Legal(limits, es) && Legal(limits, es + [e]) && key in limits
    requires var st := After(limits, es);
             key in st.store ==> key in st.windows && st.windows[key] == limits[key].duration
    ensures var st := After(limits, es + [e]);
            key in st.store ==> key in st.windows && st.windows[key] == limits[key].duration
  {
    assert (es + [e])[..|es + [e]| - 1] == es;
  }

  lemma StepLog(limits: map<string, Limit>, es: seq<Event>, e: Event, key: string)
    requires key in limits
    ensures var log := Accepted(limits, es, key);
            Accepted(limits, es + [e], key) ==
            if e.Ask? && e.key == key && Young(log, e.now, limits[key].duration) < limits[key].max
            then log + [e.now] else log
  {
    assert (es + [e])[..|es + [e]| - 1] == es;
  }

  lemma StepTracks(limits: map<string, Limit>, es: seq<Event>, e: Event, key: string)
    requires Sane(limits) && Legal(limits, es) && Legal(limits, es + [e]) && key in limits
    requires Tracks(limits, es, key, e.now)
    ensures Tracks(limits, es + [e], key, e.now)
  {
    var st := After(limits, es);
    var queue, log, limit := Queue(st, key), Accepted(limits, es, key), limits[key];
    StepQueue(limits, es, e, key);
    StepWindow(limits, es, e, key);
    StepLog(limits, es, e, key);
    if e.Ask? && e.key == key {
      AskRepresents(queue, log, limit, e.now);
    } else if e.Cleanup? && key in st.store && Expired(st, key, e.now) {
      QueueForgets(queue, log, limit, e.now);
    }
  }

  /** A request moves the queue and the log in step. */
  lemma AskRepresents(queue: seq<int>, log: seq<int>, limit: Limit, now: int)
    requires Represents(queue, log, limit, now) && limit.max >= 1
    ensures Represents(if |queue| < limit.max then queue + [now]
                       else if now - queue[0] >= limit.duration then queue[1..] + [now]
                       else queue,
                       if Young(log, now, limit.duration) < limit.max then log + [now] else log,
                       limit, now)
  {
    QueueAnswers(queue, log, limit, now);
    QueueAccepts(queue, log, limit, now);
  }

  /**
   After every legal run the limiter answers exactly as the specification: a request
   (or a check) is admitted if and only if fewer than the maximum of that key's
   accepted requests are younger than the duration.
   */
  lemma AnswersExactly(limits: map<string, Limit>, es: seq<Event>, e: Event)
    requires Sane(limits) && Legal(limits, es + [e]) && !e.Cleanup?
    ensures e.key in limits
    ensures Answer(limits, es, e) <==>
            Young(Accepted(limits, es, e.key), e.now, limits[e.key].duration) < limits[e.key].max
  {
    LegalPrefix(limits, es, e);
    RunTracks(limits, es, e.key, e.now);
    var st := After(limits, es);
    QueueAnswers(Queue(st, e.key), Accepted(limits, es, e.key), limits[e.key], e.now);
  }

  function WithoutCleanup(es: seq<Event>): seq<Event> {
    if es == [] then []
    else
      var init := WithoutCleanup(es[..|es| - 1]);
      if es[|es| - 1].Cleanup? then init else init + [es[|es| - 1]]
  }

  lemma {:induction false} WithoutCleanupLegal(limits: map<string, Limit>, es: seq<Event>)
    requires Legal(limits, es)
    ensures Legal(limits, WithoutCleanup(es))
    ensures forall now :: EndsBy(es, now) ==> EndsBy(WithoutCleanup(es), now)
  {
    if es != [] {
      var init, e := es[..|es| - 1], es[|es| - 1];
      assert es == init + [e];
      WithoutCleanupLegal(limits, init);
      assert EndsBy(init, e.now);
    }
  }

  lemma {:induction false} CleanupKeepsLog(limits: map<string, Limit>, es: seq<Event>, key: string)
    requires key in limits
    ensures Accepted(limits, WithoutCleanup(es), key) == Accepted(limits, es, key)
  {
    if es != [] {
      CleanupKeepsLog(limits, es[..|es| - 1], key);
      var init := WithoutCleanup(es[..|es| - 1]);
      assert (init + [es[|es| - 1]])[..|init + [es[|es| - 1]]| - 1] == init;
    }
  }

  /** No caller can tell whether, or how often, the cleanup goroutine ran. */
  lemma CleanupUnobservable(limits: map<string, Limit>, es: seq<Event>, e: Event)
    requires Sane(limits) && Legal(limits, es + [e]) && !e.Cleanup?
    ensures Legal(limits, WithoutCleanup(es) + [e])
    ensures Answer(limits, WithoutCleanup(es), e) == Answer(limits, es, e)
  {
    WithoutCleanupLegal(limits, es + [e]);
    assert (es + [e])[..|es + [e]| - 1] == es;
    AnswersExactly(limits, es, e);
    AnswersExactly(limits, WithoutCleanup(es), e);
    CleanupKeepsLog(limits, es, e.key);
  }

  /** A check gives the answer a request at the same moment would get. */
  lemma CheckPredictsRequest(limits: map<string, Limit>, es: seq<Event>, key: string, now: int)
    requires Sane(limits) && Legal(limits, es + [Ask(key, now)])
    ensures Legal(limits, es + [Peek(key, now)])
    ensures Answer(limits, es, Peek(key, now)) == Answer(limits, es, Ask(key, now))
  {
    var ask, peek := es + [Ask(key, now)], es + [Peek(key, now)];
    forall i | 0 <= i < |peek|
      ensures ask[i].now == peek[i].now && ask[i].Cleanup? == peek[i].Cleanup?
      ensures !ask[i].Cleanup? ==> ask[i].key == peek[i].key
    {}
    assert ask[|es|] == Ask(key, now);
    AnswersExactly(limits, es, Ask(key, now));
    AnswersExactly(limits, es, Peek(key, now));
  }

  /** How many of the times fall in the half-open window [from, from + duration). */
  function Within(times: seq<int>, from: int, duration: int): nat {
    if times == [] then 0
    else Within(times[..|times| - 1], from, duration) +
         (if from <= times[|times| - 1] < from + duration then 1 else 0)
  }

  /** Entries max places apart are at least a duration apart. */
  predicate Spaced(log: seq<int>, limit: Limit) {
    forall i {:trigger log[i]} :: 0 <= i < |log| - limit.max ==> log[i + limit.max] - log[i] >= limit.duration
  }

  predicate AllBy(log: seq<int>, now: int) {
    forall i :: 0 <= i < |log| ==> log[i] <= now
  }

  /** With fewer than the maximum young, the entry max places back is old. */
  lemma OldEnough(log: seq<int>, limit: Limit, now: int)
    requires Sorted(log) && Young(log, now, limit.duration) < limit.max <= |log|
    ensures now - log[|log| - limit.max] >= limit.duration
  {
    var past, recent := log[..|log| - limit.max], log[|log| - limit.max..];
    assert log == past + recent;
    YoungConcat(past, recent, now, limit.duration);
    if now - recent[0] < limit.duration {
      forall i | 0 <= i < |recent|
        ensures now - recent[i] < limit.duration
      {
        assert log[|log| - limit.max] <= log[|log| - limit.max + i];
      }
      YoungBounds(recent, now, limit.duration);
    }
  }

  /** Accepting when fewer than the maximum are young keeps the spacing. */
  lemma AcceptSpaced(log: seq<int>, limit: Limit, now: int)
    requires Sorted(log) && Spaced(log, limit) && AllBy(log, now)
    requires Young(log, now, limit.duration) < limit.max
    ensures Sorted(log + [now]) && Spaced(log + [now], limit) && AllBy(log + [now], now)
  {
    if |log| >= limit.max {
      OldEnough(log, limit, now);
    }
    var more := log + [now];
    forall i | 0 <= i < |more| - limit.max
      ensures more[i + limit.max] - more[i] >= limit.duration
    {
      if i + limit.max < |log| {
        assert log[i + limit.max] - log[i] >= limit.duration;
      }
    }
  }

  lemma {:induction false} LogSpaced(limits: map<string, Limit>, es: seq<Event>, key: string, now: int)
    requires Sane(limits) && Ordered(es) && key in limits && EndsBy(es, now)
    ensures Sorted(Accepted(limits, es, key)) && Spaced(Accepted(limits, es, key), limits[key])
    ensures AllBy(Accepted(limits, es, key), now)
  {
    if es != [] {
      var init, e := es[..|es| - 1], es[|es| - 1];
      LogSpaced(limits, init, key, e.now);
      var log := Accepted(limits, init, key);
      if e.Ask? && e.key == key && Young(log, e.now, limits[key].duration) < limits[key].max {
        AcceptSpaced(log, limits[key], e.now);
      }
      AllByLater(Accepted(limits, es, key), e.now, now);
    }
  }

  lemma AllByLater(log: seq<int>, clock: int, now: int)
    requires AllBy(log, clock) && clock <= now
    ensures AllBy(log, now)
  {}

  lemma {:induction false} SpacedWithin(log: seq<int>, limit: Limit, from: int)
    requires Sorted(log) && Spaced(log, limit)
    ensures Within(log, from, limit.duration) <= limit.max
  {
    if log != [] {
      var init := log[..|log| - 1];
      assert Spaced(init, limit) by {
        forall i | 0 <= i < |init| - limit.max
          ensures init[i + limit.max] - init[i] >= limit.duration
        {
          assert log[i + limit.max] - log[i] >= limit.duration;
        }
      }
      SpacedWithin(init, limit, from);
      if from <= log[|log| - 1] < from + limit.duration {
        if |log| > limit.max {
          assert log[|log| - 1 - limit.max + limit.max] - log[|log| - 1 - limit.max] >= limit.duration;
          WithinTail(init, |log| - limit.max, from, limit.duration);
        } else {
          WithinTail(init, 0, from, limit.duration);
        }
      }
    }
  }

  /** When everything before index n lies before the window, only the rest can be in it. */
  lemma {:induction false} WithinTail(times: seq<int>, n: nat, from: int, duration: int)
    requires n <= |times| && forall i :: 0 <= i < n ==> times[i] < from
    ensures Within(times, from, duration) <= |times| - n
  {
    if times != [] {
      if n == |times| {
        WithinTail(times[..|times| - 1], n - 1, from, duration);
      } else {
        WithinTail(times[..|times| - 1], n, from, duration);
      }
    }
  }

  /** No window of one duration, wherever it starts, ever holds more than the maximum. */
  lemma NeverAboveMaximum(limits: map<string, Limit>, es: seq<Event>, key: string, from: int)
    requires Sane(limits) && Legal(limits, es) && key in limits
    ensures Within(Accepted(limits, es, key), from, limits[key].duration) <= limits[key].max
  {
    var now := if es == [] then 0 else es[|es| - 1].now;
    LogSpaced(limits, es, key, now);
    SpacedWithin(Accepted(limits, es, key), limits[key], from);
  }

  /**
   A maximum of zero does not close the gate: Request treats it as one, although
   Check always refuses it.
   */
  lemma ZeroMaximumActsAsOne(st: State, key: string, duration: int, now: int)
    requires Sound(st)
    ensures RequestAnswer(st, key, 0, duration, now) == RequestAnswer(st, key, 1, duration, now)
    ensures AfterRequest(st, key, 0, duration, now) == AfterRequest(st, key, 1, duration, now)
    ensures !CheckAnswer(st, key, 0, duration, now)
    ensures key !in st.store ==> RequestAnswer(st, key, 0, duration, now)
  {}
}
