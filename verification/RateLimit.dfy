/** The in-memory sliding-window rate limiter: a bounded queue of accepted times per
    key, and a cleaner that deletes whole keys.  The clock reading of each call is a
    parameter.  The reference is a limiter that never forgets an accepted request. */
module RateLimit {
  import opened Basics

  type Store = map<string, seq<int>>

  class InMemoryRateLimiter {
    var store: Store
    const expiration: nat // in whole seconds

    /** Queues are created with their first entry and never shrink. */
    ghost predicate Valid()
      reads this
    {
      QueuesNonEmpty(store)
    }

    constructor Init(expiration: nat)
      ensures Valid() && store == map[] && this.expiration == expiration
    {
      store := map[];
      this.expiration := expiration;
    }

    /** `duration` is in seconds. */
    method Request(key: string, maxRequestNum: nat, duration: int, now: int) returns (accepted: bool)
      requires Valid()
      modifies this
      ensures Valid()
      ensures accepted == Admits(old(store), key, maxRequestNum, duration, now)
      ensures store == Served(old(store), key, maxRequestNum, duration, now)
    {
      if key in store {
        var queue := store[key];
        if |queue| < maxRequestNum {
          store := store[key := queue + [now]];
          return true;
        } else {
          if now - queue[0] >= duration {
            queue := queue[1..];
            store := store[key := queue + [now]];
            return true;
          } else {
            return false;
          }
        }
      } else {
        store := store[key := [now]];
      }
      return true;
    }

    /** One pass of the cleaner. */
    method ClearExpiredItems(now: int)
      requires Valid()
      modifies this
      ensures Valid()
      ensures store == Evicted(old(store), now, expiration)
    {
      var pending := store.Keys;
      while pending != {}
        invariant Valid()
        invariant pending <= old(store).Keys
        invariant forall k :: k in store <==>
          k in old(store) && (k in pending || !Expired(old(store)[k], now, expiration))
        invariant forall k :: k in store ==> store[k] == old(store)[k]
        decreases |pending|
      {
        var key :| key in pending;
        var queue := store[key];
        var size := |queue|;
        if size == 0 || now - queue[size - 1] > expiration {
          store := store - {key};
        }
        pending := pending - {key};
      }
    }
  }

  // ---------- one step on stores ----------

  ghost predicate QueuesNonEmpty(s: Store) {
    forall k :: k in s ==> s[k] != []
  }

  predicate Expired(queue: seq<int>, now: int, expiration: nat) {
    queue == [] || now - queue[|queue| - 1] > expiration
  }

  function Evicted(s: Store, now: int, expiration: nat): (s': Store)
    ensures QueuesNonEmpty(s')
  {
    map k | k in s && !Expired(s[k], now, expiration) :: s[k]
  }

  predicate Admits(s: Store, key: string, limit: nat, window: int, now: int)
    requires QueuesNonEmpty(s)
  {
    key in s ==> |s[key]| < limit || now - s[key][0] >= window
  }

  function Served(s: Store, key: string, limit: nat, window: int, now: int): (s': Store)
    requires QueuesNonEmpty(s)
    ensures QueuesNonEmpty(s')
  {
    if !Admits(s, key, limit, window, now) then s
    else if key !in s then s[key := [now]]
    else if |s[key]| < limit then s[key := s[key] + [now]]
    else s[key := s[key][1..] + [now]]
  }

  // ---------- runs ----------

  datatype Event = Request(key: string, now: int) | Clean(now: int)

  /** Every key has its own fixed limit and window. */
  datatype Policy = Policy(limit: string -> nat, window: string -> int)

  predicate Monotone(events: seq<Event>) {
    forall i, j :: 0 <= i < j < |events| ==> events[i].now <= events[j].now
  }

  /** The limiter's store after a run, and its answers to the requests. */
  function Limiter(events: seq<Event>, p: Policy, expiration: nat): (r: (Store, seq<bool>))
    ensures QueuesNonEmpty(r.0)
  {
    if events == [] then (map[], [])
    else
      var (store, answers) := Limiter(Most(events), p, expiration);
      match Last(events)
      case Request(k, now) =>
        (Served(store, k, p.limit(k), p.window(k), now),
         answers + [Admits(store, k, p.limit(k), p.window(k), now)])
      case Clean(now) => (Evicted(store, now, expiration), answers)
  }

  /** How many of the recorded times are younger than `window`. */
  function Recent(history: seq<int>, window: int, now: int): nat {
    if history == [] then 0
    else Recent(Most(history), window, now) + if now - Last(history) < window then 1 else 0
  }

  /** A limit of zero still lets a key's first request through. */
  function Capacity(limit: nat): nat {
    if limit == 0 then 1 else limit
  }

  /** The times recorded for a key. */
  function TimesOf(s: Store, key: string): seq<int> {
    if key in s then s[key] else []
  }

  /** The reference: it keeps all accepted times and never evicts. */
  function Reference(events: seq<Event>, p: Policy): (Store, seq<bool>) {
    if events == [] then (map[], [])
    else
      var (history, answers) := Reference(Most(events), p);
      match Last(events)
      case Request(k, now) =>
        var ok := Recent(TimesOf(history, k), p.window(k), now) < Capacity(p.limit(k));
        (if ok then history[k := TimesOf(history, k) + [now]] else history, answers + [ok])
      case Clean(_) => (history, answers)
  }

  // ---------- the queue is a window on the history ----------

  predicate Sorted(h: seq<int>) {
    forall i, j :: 0 <= i < j < |h| ==> h[i] <= h[j]
  }

  lemma {:induction false} NoneRecent(h: seq<int>, window: int, now: int)
    requires Sorted(h) && (h != [] ==> now - Last(h) >= window)
    ensures Recent(h, window, now) == 0
  {
    if h != [] {
      NoneRecent(Most(h), window, now);
    }
  }

  /** In a sorted history the n-th youngest entry tells whether n entries are recent. */
  lemma {:induction false} RecentByPosition(h: seq<int>, window: int, now: int, n: nat)
    requires Sorted(h) && n >= 1
    ensures Recent(h, window, now) >= n <==> |h| >= n && now - h[|h| - n] < window
  {
    if h != [] {
      if now - Last(h) >= window {
        NoneRecent(h, window, now);
      } else if n > 1 {
        RecentByPosition(Most(h), window, now, n - 1);
      }
    }
  }

  /** The queue holds the latest accepted times; what it has dropped is too old to matter. */
  ghost predicate Tracks(q: seq<int>, h: seq<int>, capacity: nat, window: int, clock: int) {
    && |q| <= |h| && |q| <= capacity
    && (forall i :: 0 <= i < |q| ==> q[i] == h[|h| - |q| + i])
    && (|q| < capacity ==> forall i :: 0 <= i < |h| - |q| ==> clock - h[i] >= window)
  }

  ghost predicate SortedUpTo(h: seq<int>, clock: int) {
    Sorted(h) && (h != [] ==> Last(h) <= clock)
  }

  lemma RequestOnQueue(s: Store, key: string, limit: nat, window: int, now: int)
    requires QueuesNonEmpty(s) && |TimesOf(s, key)| <= Capacity(limit)
    ensures var q := TimesOf(s, key); var n := Capacity(limit); var s' := Served(s, key, limit, window, now);
      && Admits(s, key, limit, window, now) == (|q| < n || now - q[0] >= window)
      && TimesOf(s', key) == (if |q| < n then q + [now] else if now - q[0] >= window then q[1..] + [now] else q)
      && forall k :: k != key ==> TimesOf(s', k) == TimesOf(s, k)
  {
  }

  lemma AdmissionAgrees(q: seq<int>, h: seq<int>, n: nat, window: int, now: int)
    requires Tracks(q, h, n, window, now) && SortedUpTo(h, now) && n >= 1
    ensures (|q| < n || now - q[0] >= window) <==> Recent(h, window, now) < n
  {
    RecentByPosition(h, window, now, n);
    if |q| == n {
      assert q[0] == h[|h| - n];
    } else if |h| >= n {
      assert now - h[|h| - n] >= window;
    }
  }

  lemma PushTracks(q: seq<int>, h: seq<int>, n: nat, window: int, now: int)
    requires Tracks(q, h, n, window, now) && n >= 1
    ensures Tracks(if |q| < n then q + [now] else q[1..] + [now], h + [now], n, window, now)
  {
    var h' := h + [now];
    if |q| < n {
      forall i | 0 <= i < |q| + 1
        ensures (q + [now])[i] == h'[|h| - |q| + i]
      {
        assert i < |q| ==> q[i] == h[|h| - |q| + i];
      }
    } else {
      forall i | 0 <= i < |q|
        ensures (q[1..] + [now])[i] == h'[|h| + 1 - |q| + i]
      {
        assert i < |q| - 1 ==> q[i + 1] == h[|h| - |q| + (i + 1)];
      }
    }
  }

  lemma LaterTracks(q: seq<int>, h: seq<int>, n: nat, window: int, clock: int, now: int)
    requires Tracks(q, h, n, window, clock) && clock <= now
    ensures Tracks(q, h, n, window, now)
  {
  }

  lemma CleanTracks(s: Store, key: string, h: seq<int>, n: nat, window: int, now: int, expiration: nat)
    requires QueuesNonEmpty(s) && Tracks(TimesOf(s, key), h, n, window, now) && SortedUpTo(h, now)
      && window <= expiration + 1
    ensures Tracks(TimesOf(Evicted(s, now, expiration), key), h, n, window, now)
  {
    if key in s && Expired(s[key], now, expiration) {
      var q := s[key];
      assert q[|q| - 1] == h[|h| - |q| + (|q| - 1)] == Last(h);
      assert forall i :: 0 <= i < |h| ==> h[i] <= Last(h);
    }
  }

  /** A request keeps its own key's queue in step with the history. */
  lemma RequestTracks(store: Store, h: seq<int>, p: Policy, k: string, now: int)
    requires QueuesNonEmpty(store) && SortedUpTo(h, now)
    requires Tracks(TimesOf(store, k), h, Capacity(p.limit(k)), p.window(k), now)
    ensures var ok := Admits(store, k, p.limit(k), p.window(k), now);
      && ok == (Recent(h, p.window(k), now) < Capacity(p.limit(k)))
      && Tracks(TimesOf(Served(store, k, p.limit(k), p.window(k), now), k),
                if ok then h + [now] else h, Capacity(p.limit(k)), p.window(k), now)
  {
    var n, q := Capacity(p.limit(k)), TimesOf(store, k);
    RequestOnQueue(store, k, p.limit(k), p.window(k), now);
    AdmissionAgrees(q, h, n, p.window(k), now);
    PushTracks(q, h, n, p.window(k), now);
  }

  lemma {:induction false} HistorySorted(events: seq<Event>, p: Policy, key: string, clock: int)
    requires Monotone(events) && (events != [] ==> Last(events).now <= clock)
    ensures SortedUpTo(TimesOf(Reference(events, p).0, key), clock)
  {
    if events != [] {
      HistorySorted(Most(events), p, key, Last(events).now);
    }
  }

  ghost predicate InStep(events: seq<Event>, p: Policy, expiration: nat, key: string, clock: int) {
    Tracks(TimesOf(Limiter(events, p, expiration).0, key), TimesOf(Reference(events, p).0, key),
           Capacity(p.limit(key)), p.window(key), clock)
  }

  lemma RequestElsewhere(store: Store, p: Policy, k: string, key: string, now: int)
    requires QueuesNonEmpty(store)
    ensures k != key ==> TimesOf(Served(store, k, p.limit(k), p.window(k), now), key) == TimesOf(store, key)
  {
  }

  /** The times at which requests of `key` were accepted, given the answers. */
  function Accepted(events: seq<Event>, answers: seq<bool>, key: string): seq<int> {
    if events == [] then []
    else if Last(events).Request? && answers != [] then
      var before := Accepted(Most(events), Most(answers), key);
      if Last(answers) && Last(events).key == key then before + [Last(events).now] else before
    else Accepted(Most(events), answers, key)
  }

  /** One event keeps a key's queue in step and adds to its accepted times what the full
      history gets. */
  lemma KeyStep(events: seq<Event>, p: Policy, expiration: nat, key: string)
    requires events != [] && Monotone(events) && p.window(key) <= expiration + 1
    requires InStep(Most(events), p, expiration, key, Last(events).now)
    ensures InStep(events, p, expiration, key, Last(events).now)
    ensures Last(events).Request? && Last(events).key == key ==>
      Last(Limiter(events, p, expiration).1) == Last(Reference(events, p).1)
  {
    var e := Last(events);
    var store, history := Limiter(Most(events), p, expiration).0, Reference(Most(events), p).0;
    HistorySorted(Most(events), p, key, e.now);
    match e {
    case Request(k, now) =>
      RequestElsewhere(store, p, k, key, now);
      if k == key {
        RequestTracks(store, TimesOf(history, key), p, key, now);
      }
    case Clean(now) =>
      CleanTracks(store, key, TimesOf(history, key), Capacity(p.limit(key)), p.window(key), now, expiration);
    }
  }

  lemma AcceptedStep(events: seq<Event>, p: Policy, expiration: nat, key: string)
    requires events != []
    requires Last(events).Request? && Last(events).key == key ==>
      Last(Limiter(events, p, expiration).1) == Last(Reference(events, p).1)
    requires Accepted(Most(events), Limiter(Most(events), p, expiration).1, key)
          == Accepted(Most(events), Reference(Most(events), p).1, key)
    ensures Accepted(events, Limiter(events, p, expiration).1, key)
         == Accepted(events, Reference(events, p).1, key)
  {
    if Last(events).Request? {
      assert Most(Limiter(events, p, expiration).1) == Limiter(Most(events), p, expiration).1;
      assert Most(Reference(events, p).1) == Reference(Most(events), p).1;
    }
  }

  /** What other keys do does not matter for a key: its queue stays in step with the full
      history, and its requests are accepted at the same times. */
  lemma {:induction false} RunTracks(events: seq<Event>, p: Policy, expiration: nat, key: string, clock: int)
    requires Monotone(events) && (events != [] ==> Last(events).now <= clock)
    requires p.window(key) <= expiration + 1
    ensures InStep(events, p, expiration, key, clock)
    ensures Accepted(events, Limiter(events, p, expiration).1, key)
         == Accepted(events, Reference(events, p).1, key)
  {
    if events != [] {
      RunTracks(Most(events), p, expiration, key, Last(events).now);
      KeyStep(events, p, expiration, key);
      AcceptedStep(events, p, expiration, key);
      LaterTracks(TimesOf(Limiter(events, p, expiration).0, key), TimesOf(Reference(events, p).0, key),
                  Capacity(p.limit(key)), p.window(key), Last(events).now, clock);
    }
  }

  // ---------- main results ----------

  /** Bounded queues and whole-key eviction are invisible: every answer is that of the
      limiter that keeps everything. */
  lemma {:induction false} SameAnswers(events: seq<Event>, p: Policy, expiration: nat)
    requires Monotone(events) && forall k :: p.window(k) <= expiration + 1
    ensures Limiter(events, p, expiration).1 == Reference(events, p).1
  {
    if events != [] {
      var e := Last(events);
      SameAnswers(Most(events), p, expiration);
      if e.Request? {
        RunTracks(Most(events), p, expiration, e.key, e.now);
        KeyStep(events, p, expiration, e.key);
      }
    }
  }

  lemma {:induction false} RecentAtMost(history: seq<int>, window: int, now: int)
    ensures Recent(history, window, now) <= |history|
  {
    if history != [] {
      RecentAtMost(Most(history), window, now);
    }
  }

  /** As many requests at once as the limit allows are all accepted, by the limiter ... */
  lemma {:induction false} BurstLimiter(p: Policy, expiration: nat, key: string, n: nat)
    requires n <= Capacity(p.limit(key))
    ensures TimesOf(Limiter(Repeat(Event.Request(key, 0), n), p, expiration).0, key) == Repeat(0, n)
    ensures Limiter(Repeat(Event.Request(key, 0), n), p, expiration).1 == Repeat(true, n)
  {
    if n > 0 {
      BurstLimiter(p, expiration, key, n - 1);
      var events := Repeat(Event.Request(key, 0), n);
      assert Most(events) == Repeat(Event.Request(key, 0), n - 1);
      RequestOnQueue(Limiter(Most(events), p, expiration).0, key, p.limit(key), p.window(key), 0);
    }
  }

  /** ... and by the reference. */
  lemma {:induction false} BurstReference(p: Policy, key: string, n: nat)
    requires n <= Capacity(p.limit(key))
    ensures TimesOf(Reference(Repeat(Event.Request(key, 0), n), p).0, key) == Repeat(0, n)
    ensures Reference(Repeat(Event.Request(key, 0), n), p).1 == Repeat(true, n)
  {
    if n > 0 {
      BurstReference(p, key, n - 1);
      var events := Repeat(Event.Request(key, 0), n);
      assert Most(events) == Repeat(Event.Request(key, 0), n - 1);
      RecentAtMost(Repeat(0, n - 1), p.window(key), 0);
    }
  }

  /** A burst that fills the window, one cleaner pass and one more request. */
  function Witness(p: Policy, expiration: nat, key: string): seq<Event> {
    Repeat(Event.Request(key, 0), Capacity(p.limit(key)))
      + [Event.Clean(expiration + 1)] + [Event.Request(key, expiration + 1)]
  }

  /** The cleaner pass has evicted the whole burst. */
  lemma LimiterCleaned(p: Policy, expiration: nat, key: string)
    ensures var cleaned := Most(Witness(p, expiration, key));
      && TimesOf(Limiter(cleaned, p, expiration).0, key) == []
      && Limiter(cleaned, p, expiration).1 == Repeat(true, Capacity(p.limit(key)))
  {
    var n := Capacity(p.limit(key));
    var cleaned := Most(Witness(p, expiration, key));
    assert Most(cleaned) == Repeat(Event.Request(key, 0), n) && Last(cleaned) == Event.Clean(expiration + 1);
    BurstLimiter(p, expiration, key, n);
  }

  lemma CleanedBurst(p: Policy, expiration: nat, key: string)
    requires p.window(key) > expiration + 1
    ensures var events := Most(Witness(p, expiration, key));
      && TimesOf(Limiter(events, p, expiration).0, key) == []
      && Limiter(events, p, expiration).1 == Reference(events, p).1
      && !(Recent(TimesOf(Reference(events, p).0, key), p.window(key), expiration + 1) < Capacity(p.limit(key)))
  {
    var n := Capacity(p.limit(key));
    var burst := Repeat(Event.Request(key, 0), n);
    var cleaned := Most(Witness(p, expiration, key));
    assert cleaned == burst + [Event.Clean(expiration + 1)];
    assert Most(cleaned) == burst && Last(cleaned) == Event.Clean(expiration + 1);
    LimiterCleaned(p, expiration, key);
    BurstReference(p, key, n);
    RecentByPosition(Repeat(0, n), p.window(key), expiration + 1, n);
  }

  lemma EvictionSeen(p: Policy, expiration: nat, key: string)
    requires p.window(key) > expiration + 1
    ensures var events := Witness(p, expiration, key);
      Monotone(events) && Limiter(events, p, expiration).1 != Reference(events, p).1
  {
    var events := Witness(p, expiration, key);
    assert Last(events) == Event.Request(key, expiration + 1);
    CleanedBurst(p, expiration, key);
    RequestOnQueue(Limiter(Most(events), p, expiration).0, key, p.limit(key), p.window(key), expiration + 1);
    assert Last(Limiter(events, p, expiration).1) && !Last(Reference(events, p).1);
  }

  /** Exactly when eviction is invisible on every run: no window may exceed the
      expiration by more than one second. */
  lemma EvictionInvisibleIff(p: Policy, expiration: nat)
    ensures (forall events :: Monotone(events) ==> Limiter(events, p, expiration).1 == Reference(events, p).1)
       <==> (forall k :: p.window(k) <= expiration + 1)
  {
    if forall k :: p.window(k) <= expiration + 1 {
      forall events | Monotone(events)
        ensures Limiter(events, p, expiration).1 == Reference(events, p).1
      {
        SameAnswers(events, p, expiration);
      }
    } else {
      var k :| p.window(k) > expiration + 1;
      EvictionSeen(p, expiration, k);
    }
  }

  lemma {:induction false} HistoryIsAccepted(events: seq<Event>, p: Policy, key: string)
    ensures Accepted(events, Reference(events, p).1, key) == TimesOf(Reference(events, p).0, key)
  {
    if events != [] {
      HistoryIsAccepted(Most(events), p, key);
      var answers := Reference(events, p).1;
      if Last(events).Request? {
        assert Most(answers) == Reference(Most(events), p).1;
      }
    }
  }

  /** Entries `n` apart are at least `window` apart. */
  predicate Spaced(h: seq<int>, n: nat, window: int) {
    forall i :: 0 <= i < |h| - n ==> h[i + n] - h[i] >= window
  }

  lemma ExtendSpaced(h: seq<int>, n: nat, window: int, now: int)
    requires Sorted(h) && (h != [] ==> Last(h) <= now) && Spaced(h, n, window) && n >= 1
    ensures Sorted(h + [now])
    ensures Recent(h, window, now) < n ==> Spaced(h + [now], n, window)
  {
    RecentByPosition(h, window, now, n);
  }

  lemma {:induction false} HistorySpaced(events: seq<Event>, p: Policy, key: string, clock: int)
    requires Monotone(events) && (events != [] ==> Last(events).now <= clock)
    ensures var h := TimesOf(Reference(events, p).0, key);
      Sorted(h) && (h != [] ==> Last(h) <= clock) && Spaced(h, Capacity(p.limit(key)), p.window(key))
  {
    if events != [] {
      var e := Last(events);
      HistorySpaced(Most(events), p, key, e.now);
      if e.Request? && e.key == key {
        ExtendSpaced(TimesOf(Reference(Most(events), p).0, key), Capacity(p.limit(key)), p.window(key), e.now);
      }
    }
  }

  /** In every run, across evictions and re-created keys, two accepted requests of a key
      that are `limit` acceptances apart are at least `window` seconds apart. */
  lemma AcceptancesSpaced(events: seq<Event>, p: Policy, expiration: nat, key: string)
    requires Monotone(events) && p.window(key) <= expiration + 1
    ensures var times := Accepted(events, Limiter(events, p, expiration).1, key);
      Sorted(times) && Spaced(times, Capacity(p.limit(key)), p.window(key))
  {
    var clock := if events == [] then 0 else Last(events).now;
    RunTracks(events, p, expiration, key, clock);
    HistoryIsAccepted(events, p, key);
    HistorySpaced(events, p, key, clock);
  }

  /** How many times lie in [from, to). */
  function CountIn(h: seq<int>, from: int, to: int): nat {
    if h == [] then 0
    else CountIn(Most(h), from, to) + if from <= Last(h) < to then 1 else 0
  }

  lemma {:induction false} NoneIn(h: seq<int>, from: int, to: int)
    requires Sorted(h) && (h != [] ==> Last(h) < from)
    ensures CountIn(h, from, to) == 0
  {
    if h != [] {
      NoneIn(Most(h), from, to);
    }
  }

  lemma {:induction false} CountByPosition(h: seq<int>, from: int, to: int, n: nat)
    requires Sorted(h) && (h != [] ==> Last(h) < to) && n >= 1
    ensures CountIn(h, from, to) >= n <==> |h| >= n && h[|h| - n] >= from
  {
    if h != [] {
      if Last(h) < from {
        NoneIn(h, from, to);
      } else if n > 1 {
        CountByPosition(Most(h), from, to, n - 1);
      }
    }
  }

  lemma {:induction false} CountInSpaced(h: seq<int>, n: nat, window: int, from: int)
    requires Sorted(h) && Spaced(h, n, window) && n >= 1
    ensures CountIn(h, from, from + window) <= n
  {
    if h != [] {
      if Last(h) >= from + window {
        CountInSpaced(Most(h), n, window, from);
      } else {
        CountByPosition(h, from, from + window, n + 1);
        if |h| > n {
          assert h[|h| - 1 - n + n] - h[|h| - 1 - n] >= window;
        }
      }
    }
  }

  /** No half-open interval of `window` seconds contains more than `limit` acceptances. */
  lemma NoCrowdedWindow(events: seq<Event>, p: Policy, expiration: nat, key: string, from: int)
    requires Monotone(events) && p.window(key) <= expiration + 1
    ensures CountIn(Accepted(events, Limiter(events, p, expiration).1, key), from, from + p.window(key))
         <= Capacity(p.limit(key))
  {
    AcceptancesSpaced(events, p, expiration, key);
    CountInSpaced(Accepted(events, Limiter(events, p, expiration).1, key), Capacity(p.limit(key)), p.window(key), from);
  }

  /** Counting is counting positions. */
  lemma {:induction false} CountIsCardinality(h: seq<int>, from: int, to: int)
    ensures CountIn(h, from, to) == |set i | 0 <= i < |h| && from <= h[i] < to|
  {
    var now := set i | 0 <= i < |h| && from <= h[i] < to;
    if h == [] {
      assert now == {};
    } else {
      CountIsCardinality(Most(h), from, to);
      var before := set i | 0 <= i < |Most(h)| && from <= Most(h)[i] < to;
      var last := |h| - 1;
      assert before == set i | 0 <= i < last && from <= h[i] < to;
      if from <= h[last] < to {
        assert now == before + {last};
      } else {
        assert now == before;
      }
    }
  }

  lemma {:induction false} RecentIsCount(h: seq<int>, window: int, now: int)
    requires forall i :: 0 <= i < |h| ==> h[i] <= now
    ensures Recent(h, window, now) == CountIn(h, now - window + 1, now + 1)
  {
    if h != [] {
      RecentIsCount(Most(h), window, now);
    }
  }

  /** In every run a request is let through exactly when fewer than `limit` requests of its
      key were accepted in the last `window` seconds; a limit of zero counts as one. */
  lemma AdmittedIff(events: seq<Event>, p: Policy, expiration: nat, key: string, now: int)
    requires Monotone(events + [Event.Request(key, now)]) && p.window(key) <= expiration + 1
    ensures var accepted := Accepted(events, Limiter(events, p, expiration).1, key);
      var limit := if p.limit(key) == 0 then 1 else p.limit(key);
      Last(Limiter(events + [Event.Request(key, now)], p, expiration).1) <==>
        CountIn(accepted, now - p.window(key) + 1, now + 1) < limit
  {
    var all := events + [Event.Request(key, now)];
    assert Most(all) == events && Last(all) == Event.Request(key, now);
    MonotonePrefix(events, key, now);
    RunTracks(events, p, expiration, key, now);
    KeyStep(all, p, expiration, key);
    HistoryIsAccepted(events, p, key);
    HistorySorted(events, p, key, now);
    RecentIsCount(TimesOf(Reference(events, p).0, key), p.window(key), now);
  }

  lemma MonotonePrefix(events: seq<Event>, key: string, now: int)
    requires Monotone(events + [Event.Request(key, now)])
    ensures Monotone(events) && (events != [] ==> Last(events).now <= now)
  {
    var all := events + [Event.Request(key, now)];
    assert forall i :: 0 <= i < |events| ==> all[i] == events[i];
    if events != [] {
      assert all[|events| - 1].now <= all[|events|].now;
    }
  }

  // ---------- and exactly when ----------

  lemma {:induction false} AcceptedBurst(key: string, n: nat)
    ensures Accepted(Repeat(Event.Request(key, 0), n), Repeat(true, n), key) == Repeat(0, n)
  {
    if n > 0 {
      AcceptedBurst(key, n - 1);
      assert Most(Repeat(Event.Request(key, 0), n)) == Repeat(Event.Request(key, 0), n - 1);
      assert Most(Repeat(true, n)) == Repeat(true, n - 1);
    }
  }

  /** What the limiter accepts in the witness run: the burst, and one more too early. */
  lemma AcceptedWitness(p: Policy, expiration: nat, key: string)
    ensures var events := Witness(p, expiration, key);
      Monotone(events) && Accepted(events, Limiter(events, p, expiration).1, key)
                       == Repeat(0, Capacity(p.limit(key))) + [expiration + 1]
  {
    var n, events := Capacity(p.limit(key)), Witness(p, expiration, key);
    var cleaned := Most(events);
    assert Last(events) == Event.Request(key, expiration + 1);
    LimiterCleaned(p, expiration, key);
    assert Limiter(events, p, expiration).1 == Repeat(true, n) + [true];
    assert Most(Repeat(true, n) + [true]) == Repeat(true, n);
    assert Most(cleaned) == Repeat(Event.Request(key, 0), n) && Last(cleaned).Clean?;
    AcceptedBurst(key, n);
  }

  lemma {:induction false} CountOfBurst(n: nat, to: int)
    requires to > 0
    ensures CountIn(Repeat(0, n), 0, to) == n
  {
    if n > 0 {
      CountOfBurst(n - 1, to);
      assert Most(Repeat(0, n)) == Repeat(0, n - 1);
    }
  }

  /** The acceptances of a key are spaced in every run exactly when its own window does not
      exceed the expiration by more than one second. */
  lemma SpacedIff(p: Policy, expiration: nat, key: string)
    ensures (forall events :: Monotone(events) ==>
               Spaced(Accepted(events, Limiter(events, p, expiration).1, key), Capacity(p.limit(key)), p.window(key)))
       <==> p.window(key) <= expiration + 1
  {
    if p.window(key) <= expiration + 1 {
      forall events | Monotone(events)
        ensures Spaced(Accepted(events, Limiter(events, p, expiration).1, key), Capacity(p.limit(key)), p.window(key))
      {
        AcceptancesSpaced(events, p, expiration, key);
      }
    } else {
      var events, n := Witness(p, expiration, key), Capacity(p.limit(key));
      AcceptedWitness(p, expiration, key);
      var times := Repeat(0, n) + [expiration + 1];
      assert times[0 + n] - times[0] < p.window(key);
      assert !Spaced(times, n, p.window(key));
    }
  }

  /** More than `limit` acceptances of a key in the window that begins at `from`. */
  ghost predicate Crowded(events: seq<Event>, p: Policy, expiration: nat, key: string, from: int) {
    CountIn(Accepted(events, Limiter(events, p, expiration).1, key), from, from + p.window(key))
    > Capacity(p.limit(key))
  }

  lemma WitnessCrowded(p: Policy, expiration: nat, key: string)
    requires p.window(key) > expiration + 1
    ensures Monotone(Witness(p, expiration, key)) && Crowded(Witness(p, expiration, key), p, expiration, key, 0)
  {
    var n := Capacity(p.limit(key));
    AcceptedWitness(p, expiration, key);
    var times := Repeat(0, n) + [expiration + 1];
    assert Most(times) == Repeat(0, n) && Last(times) == expiration + 1;
    CountOfBurst(n, p.window(key));
  }

  /** And exactly then no interval of the window's length holds more than the limit. */
  lemma NotCrowdedIff(p: Policy, expiration: nat, key: string)
    ensures (forall events, from :: Monotone(events) ==> !Crowded(events, p, expiration, key, from))
       <==> p.window(key) <= expiration + 1
  {
    if p.window(key) <= expiration + 1 {
      forall events, from | Monotone(events)
        ensures !Crowded(events, p, expiration, key, from)
      {
        NoCrowdedWindow(events, p, expiration, key, from);
      }
    } else {
      WitnessCrowded(p, expiration, key);
    }
  }
}
