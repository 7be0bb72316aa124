/** The in-memory rate limiter: one bounded queue of request times per key, with a background task
    that drops queues whose newest entry has expired.

    The main result is that it decides exactly like a sliding-window counter that remembers every
    accepted request for ever, in every run and wherever the background task is scheduled.
 */
module RateLimit {

  type Store = map<string, seq<int>>

  /** The limits of a key: at most `max` requests in any `duration` seconds. */
  datatype Limit = Limit(max: nat, duration: int)

  predicate NoEmptyQueue(store: Store) {
    forall k :: k in store ==> store[k] != []
  }

  predicate Expired(queue: seq<int>, expiration: int, now: int) {
    queue == [] || now - queue[|queue| - 1] > expiration
  }

  class InMemoryRateLimiter {
    var store: Store
    var expiration: int    // whole seconds

    constructor (expiration: int)
      ensures store == map[] && this.expiration == expiration
    {
      this.store := map[];
      this.expiration := expiration;
    }

    /** `now` is the clock reading taken under the mutex. A negative bound makes the source panic when
        it allocates a queue, so the bound is a `nat`. */
    method Request(key: string, maxRequestNum: nat, duration: int, now: int) returns (ok: bool)
      requires NoEmptyQueue(store)
      modifies this`store
      ensures NoEmptyQueue(store)
      ensures ok == Admits(Queue(old(store), key), Limit(maxRequestNum, duration), now)
      ensures store == if ok then old(store)[key := Pushed(Queue(old(store), key), Limit(maxRequestNum, duration), now)]
                       else old(store)
    {
      if key in store {
        var queue := store[key];
        if |queue| < maxRequestNum {
          store := store[key := queue + [now]];
          return true;
        } else if now - queue[0] >= duration {
          queue := queue[1..];
          queue := queue + [now];
          store := store[key := queue];
          return true;
        } else {
          return false;
        }
      } else {
        store := store[key := []];
        store := store[key := store[key] + [now]];
      }
      return true;
    }

    /** One pass of the background task. */
    method ClearExpiredItems(now: int)
      requires NoEmptyQueue(store)
      modifies this`store
      ensures NoEmptyQueue(store)
      ensures store == Cleared(old(store), expiration, now)
    {
      var keys := store.Keys;
      while keys != {}
        invariant keys <= store.Keys <= old(store).Keys
        invariant forall k :: k in store ==> store[k] == old(store)[k]
        invariant forall k :: k in old(store) && k !in keys ==>
                    (k in store <==> !Expired(old(store)[k], expiration, now))
        decreases |keys|
      {
        var key :| key in keys;
        var queue := store[key];
        if |queue| == 0 || now - queue[|queue| - 1] > expiration {
          store := store - {key};
        }
        keys := keys - {key};
      }
    }
  }

  // ---------------------------------------------------------------------------
  // What the two operations do to one key's queue
  // ---------------------------------------------------------------------------

  /** A key without an entry has an empty queue. */
  function Queue(store: Store, key: string): seq<int> {
    if key in store then store[key] else []
  }

  predicate Admits(queue: seq<int>, l: Limit, now: int) {
    queue == [] || |queue| < l.max || now - queue[0] >= l.duration
  }

  function Pushed(queue: seq<int>, l: Limit, now: int): seq<int> {
    if queue == [] || |queue| < l.max then queue + [now] else queue[1..] + [now]
  }

  function Cleared(store: Store, expiration: int, now: int): Store {
    map k | k in store && !Expired(store[k], expiration, now) :: store[k]
  }

  // ---------------------------------------------------------------------------
  // The reference: a sliding window over the whole history
  // ---------------------------------------------------------------------------

  /** How many of the accepted requests are younger than the duration. */
  function Young(history: seq<int>, duration: int, now: int): nat {
    if history == [] then 0
    else (if now - history[0] < duration then 1 else 0) + Young(history[1..], duration, now)
  }

  /** A bound of zero behaves as one: the first request of a key is always accepted. */
  function Bound(l: Limit): nat { if l.max == 0 then 1 else l.max }

  predicate WindowAdmits(history: seq<int>, l: Limit, now: int) {
    Young(history, l.duration, now) < Bound(l)
  }

  // ---------------------------------------------------------------------------
  // The queue represents the history
  // ---------------------------------------------------------------------------

  predicate Sorted(h: seq<int>) {
    forall i, j :: 0 <= i <= j < |h| ==> h[i] <= h[j]
  }

  predicate AllOld(h: seq<int>, duration: int, now: int) {
    forall i :: 0 <= i < |h| ==> now - h[i] >= duration
  }

  /** The queue is the newest part of the history; anything left out while there was room in the
      queue has already expired. */
  ghost predicate Represents(queue: seq<int>, history: seq<int>, l: Limit, clock: int) {
    && Sorted(history)
    && (forall i :: 0 <= i < |history| ==> history[i] <= clock)
    && |queue| <= |history| && |queue| <= Bound(l)
    && history[|history| - |queue|..] == queue
    && (|queue| < Bound(l) ==> AllOld(history[..|history| - |queue|], l.duration, clock))
  }

  lemma {:induction false} YoungSplit(a: seq<int>, b: seq<int>, duration: int, now: int)
    ensures Young(a + b, duration, now) == Young(a, duration, now) + Young(b, duration, now)
  {
    if a == [] {
      assert a + b == b;
    } else {
      assert (a + b)[1..] == a[1..] + b;
      YoungSplit(a[1..], b, duration, now);
    }
  }

  lemma {:induction false} YoungOfOld(a: seq<int>, duration: int, now: int)
    requires AllOld(a, duration, now)
    ensures Young(a, duration, now) == 0
  {
    if a != [] { YoungOfOld(a[1..], duration, now); }
  }

  lemma {:induction false} YoungBounds(a: seq<int>, duration: int, now: int)
    ensures Young(a, duration, now) <= |a|
    ensures (forall i :: 0 <= i < |a| ==> now - a[i] < duration) ==> Young(a, duration, now) == |a|
  {
    if a != [] { YoungBounds(a[1..], duration, now); }
  }

  /** The queue's answer is the window's answer. */
  lemma SameDecision(queue: seq<int>, history: seq<int>, l: Limit, clock: int, now: int)
    requires Represents(queue, history, l, clock) && clock <= now
    ensures Admits(queue, l, now) <==> WindowAdmits(history, l, now)
  {
    var k := |history| - |queue|;
    var dropped := history[..k];
    assert history == dropped + queue;
    YoungSplit(dropped, queue, l.duration, now);
    YoungBounds(queue, l.duration, now);
    if |queue| < Bound(l) {
      YoungOfOld(dropped, l.duration, now);
    } else if now - queue[0] >= l.duration {
      assert queue[0] == history[k];
      YoungOfOld(dropped, l.duration, now);
      YoungSplit([queue[0]], queue[1..], l.duration, now);
      assert [queue[0]] + queue[1..] == queue;
      YoungOfOld([queue[0]], l.duration, now);
      YoungBounds(queue[1..], l.duration, now);
    } else {
      assert forall i :: 0 <= i < |queue| ==> queue[i] == history[k + i];
    }
  }

  /** An accepted request extends queue and history alike. */
  lemma AcceptKeeps(queue: seq<int>, history: seq<int>, l: Limit, clock: int, now: int)
    requires Represents(queue, history, l, clock) && clock <= now && Admits(queue, l, now)
    ensures Represents(Pushed(queue, l, now), history + [now], l, now)
  {
    var queue', history' := Pushed(queue, l, now), history + [now];
    var k, k' := |history| - |queue|, |history'| - |queue'|;
    assert history'[k'..] == queue' by {
      assert forall i :: 0 <= i < |queue| ==> queue[i] == history[k + i];
    }
    if |queue'| < Bound(l) {
      assert history'[..k'] == history[..k];
    }
  }

  /** Time passing, and the background task, keep the relation; clearing needs that a queue it drops
      holds nothing the window still counts. */
  lemma WaitKeeps(queue: seq<int>, history: seq<int>, l: Limit, clock: int, now: int)
    requires Represents(queue, history, l, clock) && clock <= now
    ensures Represents(queue, history, l, now)
  {
  }

  lemma ClearKeeps(queue: seq<int>, history: seq<int>, l: Limit, clock: int, expiration: int, now: int)
    requires Represents(queue, history, l, clock) && clock <= now && queue != []
    requires Expired(queue, expiration, now) && expiration + 1 >= l.duration
    ensures Represents([], history, l, now)
  {
    assert queue[|queue| - 1] == history[|history| - 1];
    assert history[..|history|] == history;
  }

  // ---------------------------------------------------------------------------
  // Runs
  // ---------------------------------------------------------------------------

  datatype Event = Request(key: string, now: int) | Clear(now: int)

  /** The clock does not go back. */
  predicate Monotone(events: seq<Event>) {
    forall i, j :: 0 <= i <= j < |events| ==> events[i].now <= events[j].now
  }

  predicate StartsAfter(events: seq<Event>, clock: int) {
    events != [] ==> clock <= events[0].now
  }

  /** The store after one event, as the two methods above leave it. */
  function Stored(store: Store, e: Event, limits: string -> Limit, expiration: int): Store {
    match e
    case Request(key, now) =>
      if Admits(Queue(store, key), limits(key), now)
      then store[key := Pushed(Queue(store, key), limits(key), now)] else store
    case Clear(now) => Cleared(store, expiration, now)
  }

  /** The limiter's decisions, one per request. */
  function Decisions(store: Store, events: seq<Event>, limits: string -> Limit, expiration: int): seq<bool>
    decreases |events|
  {
    if events == [] then []
    else
      var rest := Decisions(Stored(store, events[0], limits, expiration), events[1..], limits, expiration);
      if events[0].Request?
      then [Admits(Queue(store, events[0].key), limits(events[0].key), events[0].now)] + rest
      else rest
  }

  /** The window's decisions on the same requests; it ignores the background task. */
  function WindowDecisions(history: Store, events: seq<Event>, limits: string -> Limit): seq<bool>
    decreases |events|
  {
    if events == [] then []
    else match events[0]
      case Clear(_) => WindowDecisions(history, events[1..], limits)
      case Request(key, now) =>
        var ok := WindowAdmits(Queue(history, key), limits(key), now);
        [ok] + WindowDecisions(if ok then history[key := Queue(history, key) + [now]] else history, events[1..], limits)
  }

  ghost predicate StoreRepresents(store: Store, history: Store, limits: string -> Limit, clock: int) {
    && NoEmptyQueue(store)
    && forall k :: Represents(Queue(store, k), Queue(history, k), limits(k), clock)
  }

  lemma RequestKeepsStore(store: Store, history: Store, limits: string -> Limit, clock: int, key: string, now: int)
    requires StoreRepresents(store, history, limits, clock) && clock <= now
    ensures Admits(Queue(store, key), limits(key), now) <==> WindowAdmits(Queue(history, key), limits(key), now)
    ensures StoreRepresents(
              if Admits(Queue(store, key), limits(key), now)
              then store[key := Pushed(Queue(store, key), limits(key), now)] else store,
              if WindowAdmits(Queue(history, key), limits(key), now)
              then history[key := Queue(history, key) + [now]] else history,
              limits, now)
  {
    hide Represents, Admits, WindowAdmits;
    SameDecision(Queue(store, key), Queue(history, key), limits(key), clock, now);
    if Admits(Queue(store, key), limits(key), now) {
      AcceptKeeps(Queue(store, key), Queue(history, key), limits(key), clock, now);
    }
    forall k ensures Represents(Queue(store, k), Queue(history, k), limits(k), now) {
      WaitKeeps(Queue(store, k), Queue(history, k), limits(k), clock, now);
    }
  }

  lemma ClearKeepsStore(store: Store, history: Store, limits: string -> Limit, clock: int, expiration: int, now: int)
    requires StoreRepresents(store, history, limits, clock) && clock <= now
    requires forall k :: expiration + 1 >= limits(k).duration
    ensures StoreRepresents(Cleared(store, expiration, now), history, limits, now)
  {
    hide Represents, Expired;
    var store' := Cleared(store, expiration, now);
    forall k ensures Represents(Queue(store', k), Queue(history, k), limits(k), now) {
      WaitKeeps(Queue(store, k), Queue(history, k), limits(k), clock, now);
      if k in store && Expired(store[k], expiration, now) {
        ClearKeeps(store[k], Queue(history, k), limits(k), clock, expiration, now);
      }
    }
  }

  /** The background task does not run. */
  predicate NoClears(events: seq<Event>) {
    forall i :: 0 <= i < |events| ==> events[i].Request?
  }

  lemma {:induction false} RunRefines(store: Store, history: Store, events: seq<Event>, limits: string -> Limit,
                                      expiration: int, clock: int)
    requires StoreRepresents(store, history, limits, clock)
    requires Monotone(events) && StartsAfter(events, clock)
    requires NoClears(events) || forall k :: expiration + 1 >= limits(k).duration
    ensures Decisions(store, events, limits, expiration) == WindowDecisions(history, events, limits)
    decreases |events|
  {
    hide StoreRepresents, Admits, WindowAdmits, Pushed, Cleared;
    if events != [] {
      assert Monotone(events[1..]) && StartsAfter(events[1..], events[0].now);
      match events[0]
      case Clear(now) =>
        ClearKeepsStore(store, history, limits, clock, expiration, now);
        RunRefines(Cleared(store, expiration, now), history, events[1..], limits, expiration, now);
      case Request(key, now) =>
        RequestKeepsStore(store, history, limits, clock, key, now);
        var ok := WindowAdmits(Queue(history, key), limits(key), now);
        RunRefines(Stored(store, events[0], limits, expiration),
                   if ok then history[key := Queue(history, key) + [now]] else history,
                   events[1..], limits, expiration, now);
    }
  }

  // ---------------------------------------------------------------------------
  // Main results
  // ---------------------------------------------------------------------------

  /** In every run with a clock that does not go back, wherever the background task runs, each request
      is accepted iff fewer than the bound of the accepted requests of its key are younger than the
      duration - provided no key's duration exceeds the expiration by more than one second. */
  lemma LimiterIsSlidingWindow(events: seq<Event>, limits: string -> Limit, expiration: int)
    requires Monotone(events)
    requires NoClears(events) || forall k :: expiration + 1 >= limits(k).duration
    ensures Decisions(map[], events, limits, expiration) == WindowDecisions(map[], events, limits)
  {
    var clock := if events == [] then 0 else events[0].now;
    RunRefines(map[], map[], events, limits, expiration, clock);
  }

  function WithoutClears(events: seq<Event>): seq<Event> {
    if events == [] then []
    else if events[0].Clear? then WithoutClears(events[1..])
    else [events[0]] + WithoutClears(events[1..])
  }

  lemma {:induction false} WithoutClearsKeeps(events: seq<Event>, history: Store, limits: string -> Limit, clock: int)
    requires Monotone(events) && StartsAfter(events, clock)
    ensures WindowDecisions(history, WithoutClears(events), limits) == WindowDecisions(history, events, limits)
    ensures Monotone(WithoutClears(events)) && StartsAfter(WithoutClears(events), clock)
    decreases |events|
  {
    hide WindowAdmits;
    if events != [] {
      assert Monotone(events[1..]) && StartsAfter(events[1..], events[0].now);
      match events[0]
      case Clear(_) => WithoutClearsKeeps(events[1..], history, limits, events[0].now);
      case Request(key, now) =>
        var ok := WindowAdmits(Queue(history, key), limits(key), now);
        WithoutClearsKeeps(events[1..], if ok then history[key := Queue(history, key) + [now]] else history, limits, now);
        var w := WithoutClears(events[1..]);
        assert ([events[0]] + w)[1..] == w;
        forall i, j | 0 <= i <= j < |w| + 1 ensures ([events[0]] + w)[i].now <= ([events[0]] + w)[j].now {
          assert i > 0 ==> w[i - 1].now <= w[j - 1].now;
          assert j > 0 ==> w[0].now <= w[j - 1].now;
        }
    }
  }

  /** Running the background task at any times changes no decision. */
  lemma ClearingIsInvisible(events: seq<Event>, limits: string -> Limit, expiration: int)
    requires Monotone(events)
    requires forall k :: expiration + 1 >= limits(k).duration
    ensures Decisions(map[], events, limits, expiration) == Decisions(map[], WithoutClears(events), limits, expiration)
  {
    var clock := if events == [] then 0 else events[0].now;
    WithoutClearsKeeps(events, map[], limits, clock);
    LimiterIsSlidingWindow(events, limits, expiration);
    LimiterIsSlidingWindow(WithoutClears(events), limits, expiration);
  }

  // ---------------------------------------------------------------------------
  // The condition on the expiration is exact
  // ---------------------------------------------------------------------------

  function Zeros(n: nat): seq<int> {
    if n == 0 then [] else Zeros(n - 1) + [0]
  }

  function Fill(key: string, n: nat): seq<Event> {
    if n == 0 then [] else [Request(key, 0)] + Fill(key, n - 1)
  }

  function Holding(key: string, n: nat): Store {
    if n == 0 then map[] else map[key := Zeros(n)]
  }

  lemma {:induction false} ZerosShape(n: nat, duration: int, now: int)
    requires now < duration
    ensures |Zeros(n)| == n && (forall i :: 0 <= i < n ==> Zeros(n)[i] == 0)
    ensures Young(Zeros(n), duration, now) == n
  {
    if n > 0 { ZerosShape(n - 1, duration, now); }
    YoungBounds(Zeros(n), duration, now);
  }

  lemma {:induction false} FillShape(key: string, n: nat, tail: seq<Event>)
    requires Monotone(tail) && StartsAfter(tail, 0)
    ensures Monotone(Fill(key, n) + tail) && StartsAfter(Fill(key, n) + tail, 0)
  {
    hide Monotone;
    if n == 0 {
      assert Fill(key, n) + tail == tail;
    } else {
      FillShape(key, n - 1, tail);
      var rest := Fill(key, n - 1) + tail;
      assert Fill(key, n) + tail == [Request(key, 0)] + rest;
      EarlierFirst(Request(key, 0), rest);
    }
  }

  lemma EarlierFirst(e: Event, rest: seq<Event>)
    requires Monotone(rest) && StartsAfter(rest, e.now)
    ensures Monotone([e] + rest)
  {
    var events := [e] + rest;
    assert forall k :: 0 < k < |events| ==> events[k] == rest[k - 1];
    forall i, j | 0 <= i <= j < |events| ensures events[i].now <= events[j].now {
      if i == 0 && j > 0 { assert rest[0].now <= rest[j - 1].now; }
    }
  }

  /** One more request at time zero is accepted by both while there is room. */
  lemma FillOne(key: string, i: nat, limits: string -> Limit, expiration: int)
    requires i < Bound(limits(key)) && limits(key).duration > 0
    ensures Admits(Queue(Holding(key, i), key), limits(key), 0)
    ensures WindowAdmits(Queue(Holding(key, i), key), limits(key), 0)
    ensures Stored(Holding(key, i), Request(key, 0), limits, expiration) == Holding(key, i + 1)
    ensures Holding(key, i)[key := Queue(Holding(key, i), key) + [0]] == Holding(key, i + 1)
  {
    ZerosShape(i, limits(key).duration, 0);
  }

  /** One accepted request in front of a run. */
  lemma FirstAccepted(key: string, i: nat, limits: string -> Limit, expiration: int, rest: seq<Event>)
    requires i < Bound(limits(key)) && limits(key).duration > 0
    ensures
      var events := [Request(key, 0)] + rest;
      && Decisions(Holding(key, i), events, limits, expiration) == [true] + Decisions(Holding(key, i + 1), rest, limits, expiration)
      && WindowDecisions(Holding(key, i), events, limits) == [true] + WindowDecisions(Holding(key, i + 1), rest, limits)
  {
    hide Admits, WindowAdmits, Holding, Queue, Stored;
    var events := [Request(key, 0)] + rest;
    assert events[0] == Request(key, 0) && events[1..] == rest;
    FillOne(key, i, limits, expiration);
  }

  /** The last decision of a run that fills a queue and then goes on with `tail`. */
  lemma {:induction false} FillThen(key: string, i: nat, limits: string -> Limit, expiration: int, tail: seq<Event>)
    requires i <= Bound(limits(key)) && limits(key).duration > 0
    requires Decisions(Holding(key, Bound(limits(key))), tail, limits, expiration)
             != WindowDecisions(Holding(key, Bound(limits(key))), tail, limits)
    ensures
      var events := Fill(key, Bound(limits(key)) - i) + tail;
      Decisions(Holding(key, i), events, limits, expiration) != WindowDecisions(Holding(key, i), events, limits)
    decreases Bound(limits(key)) - i
  {
    hide Decisions, WindowDecisions, Holding;
    var left := Bound(limits(key)) - i;
    if left == 0 {
      assert Fill(key, left) + tail == tail;
    } else {
      FillThen(key, i + 1, limits, expiration, tail);
      var rest := Fill(key, left - 1) + tail;
      assert Fill(key, left) + tail == [Request(key, 0)] + rest;
      FirstAccepted(key, i, limits, expiration, rest);
      var a := Decisions(Holding(key, i + 1), rest, limits, expiration);
      var b := WindowDecisions(Holding(key, i + 1), rest, limits);
      assert ([true] + a)[1..] == a && ([true] + b)[1..] == b;
    }
  }

  /** With a duration more than a second longer than the expiration, clearing a full queue lets a
      request through that the window rejects. */
  lemma ClearingTooEarlyShows(key: string, limits: string -> Limit, expiration: int) returns (events: seq<Event>)
    requires expiration >= 0 && expiration + 1 < limits(key).duration
    ensures Monotone(events)
    ensures Decisions(map[], events, limits, expiration) != WindowDecisions(map[], events, limits)
  {
    var t := expiration + 1;
    var n := Bound(limits(key));
    var tail := [Clear(t), Request(key, t)];
    assert tail[1..] == [Request(key, t)] && tail[1..][1..] == [];
    ZerosShape(n, limits(key).duration, t);
    assert Cleared(Holding(key, n), expiration, t) == map[];
    assert Decisions(map[], tail[1..], limits, expiration) == [true];
    assert Decisions(Holding(key, n), tail, limits, expiration) == [true];
    assert !WindowAdmits(Queue(Holding(key, n), key), limits(key), t);
    assert WindowDecisions(Holding(key, n), tail[1..], limits)[0] == false;
    assert WindowDecisions(Holding(key, n), tail, limits)[0] == false;
    events := Fill(key, n) + tail;
    FillShape(key, n, tail);
    FillThen(key, 0, limits, expiration, tail);
  }

  /** So the limiter is a sliding window in every run iff no duration exceeds the expiration by more
      than one second, or the background task was never started. It is started when the expiration is
      positive, before that is cut to whole seconds: zero seconds with a task is a fraction of one. */
  lemma SlidingWindowIff(limits: string -> Limit, expiration: int, started: bool)
    requires expiration >= 0
    ensures (forall events :: Monotone(events) && (started || NoClears(events)) ==>
               Decisions(map[], events, limits, expiration) == WindowDecisions(map[], events, limits))
            <==> !started || forall k :: expiration + 1 >= limits(k).duration
  {
    hide Decisions, WindowDecisions, Monotone, NoClears;
    if !started || forall k :: expiration + 1 >= limits(k).duration {
      forall events | Monotone(events) && (started || NoClears(events))
        ensures Decisions(map[], events, limits, expiration) == WindowDecisions(map[], events, limits)
      {
        LimiterIsSlidingWindow(events, limits, expiration);
      }
    } else {
      var k :| expiration + 1 < limits(k).duration;
      var events := ClearingTooEarlyShows(k, limits, expiration);
    }
  }

  // ---------------------------------------------------------------------------
  // The class goes through these runs
  // ---------------------------------------------------------------------------

  function StoreAfter(store: Store, events: seq<Event>, limits: string -> Limit, expiration: int): Store
    decreases |events|
  {
    if events == [] then store else StoreAfter(Stored(store, events[0], limits, expiration), events[1..], limits, expiration)
  }

  function DecisionAt(store: Store, e: Event, limits: string -> Limit): seq<bool> {
    if e.Request? then [Admits(Queue(store, e.key), limits(e.key), e.now)] else []
  }

  lemma {:induction false} RunSnoc(store: Store, events: seq<Event>, e: Event, limits: string -> Limit, expiration: int)
    ensures
      var before := StoreAfter(store, events, limits, expiration);
      && StoreAfter(store, events + [e], limits, expiration) == Stored(before, e, limits, expiration)
      && Decisions(store, events + [e], limits, expiration) == Decisions(store, events, limits, expiration) + DecisionAt(before, e, limits)
    decreases |events|
  {
    hide Stored, Admits;
    if events == [] {
      assert events + [e] == [e] && [e][1..] == [];
    } else {
      assert (events + [e])[1..] == events[1..] + [e];
      RunSnoc(Stored(store, events[0], limits, expiration), events[1..], e, limits, expiration);
    }
  }

  /** Drives a new limiter through any requests and passes of the background task: it decides as the runs
      say, and so, when it is a sliding window, as the window does. */
  method Drive(events: seq<Event>, limits: string -> Limit, expiration: int) returns (decisions: seq<bool>)
    ensures decisions == Decisions(map[], events, limits, expiration)
  {
    hide Decisions, StoreAfter, Admits, Pushed, Cleared;
    var limiter := new InMemoryRateLimiter(expiration);
    decisions := [];
    assert events[..0] == [];
    assert StoreAfter(map[], [], limits, expiration) == map[] && Decisions(map[], [], limits, expiration) == [] by { NoRun(limits, expiration); }
    for i := 0 to |events|
      invariant NoEmptyQueue(limiter.store) && limiter.expiration == expiration
      invariant limiter.store == StoreAfter(map[], events[..i], limits, expiration)
      invariant decisions == Decisions(map[], events[..i], limits, expiration)
    {
      assert events[..i + 1] == events[..i] + [events[i]];
      RunSnoc(map[], events[..i], events[i], limits, expiration);
      match events[i] {
        case Request(key, now) =>
          var l := limits(key);
          var ok := limiter.Request(key, l.max, l.duration, now);
          decisions := decisions + [ok];
        case Clear(now) =>
          limiter.ClearExpiredItems(now);
      }
    }
    assert events[..|events|] == events;
  }

  lemma NoRun(limits: string -> Limit, expiration: int)
    ensures StoreAfter(map[], [], limits, expiration) == map[] && Decisions(map[], [], limits, expiration) == []
  {
  }
}
