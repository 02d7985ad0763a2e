/**
 The in-memory rate limiter: one bounded queue of accept times per key, plus a sweeper that drops
 whole queues. It is compared with a log that keeps every accept time for ever.
 */
module RateLimit {
  import opened Options

  type Store = map<string, seq<int>>

  ghost predicate NoEmptyQueue(store: Store) {
    forall k :: k in store ==> store[k] != []
  }

  /** The queue of one key after a request at `now`, or None when the request is turned away. */
  function Admit(queue: Option<seq<int>>, limit: nat, duration: int, now: int): Option<seq<int>>
    requires queue.Some? ==> queue.value != []
  {
    if queue.None? then Some([now])
    else if |queue.value| < limit then Some(queue.value + [now])
    else if now - queue.value[0] >= duration then Some(queue.value[1..] + [now])
    else None
  }

  function RequestStep(store: Store, key: string, limit: nat, duration: int, now: int): Option<Store>
    requires NoEmptyQueue(store)
  {
    var queue := Admit(Lookup(store, key), limit, duration, now);
    if queue.Some? then Some(store[key := queue.value]) else None
  }

  predicate Stale(queue: seq<int>, expiry: int, now: int) {
    queue == [] || now - queue[|queue| - 1] > expiry
  }

  function SweepStep(store: Store, expiry: int, now: int): Store {
    map k | k in store && !Stale(store[k], expiry, now) :: store[k]
  }

  class InMemoryRateLimiter {
    var store: Store
    const expiry: int

    ghost predicate Valid()
      reads this
    {
      NoEmptyQueue(store)
    }

    constructor (expiry: int)
      ensures Valid() && store == map[] && this.expiry == expiry
    {
      store := map[];
      this.expiry := expiry;
    }

    /** A negative limit is not accepted: the source allocates a queue of that capacity. */
    method Request(key: string, limit: nat, duration: int, now: int) returns (ok: bool)
      requires Valid()
      modifies this
      ensures Valid()
      ensures ok <==> RequestStep(old(store), key, limit, duration, now).Some?
      ensures store == if ok then RequestStep(old(store), key, limit, duration, now).value else old(store)
    {
      if key in store {
        var queue := store[key];
        if |queue| < limit {
          store := store[key := queue + [now]];
          return true;
        } else if now - queue[0] >= duration {
          queue := queue[1..];
          store := store[key := queue + [now]];
          return true;
        } else {
          return false;
        }
      } else {
        store := store[key := []];
        store := store[key := store[key] + [now]];
        assert [] + [now] == [now];
      }
      return true;
    }

    /** One round of the sweeper, which visits the keys in any order. */
    method ClearExpiredItems(now: int)
      requires Valid()
      modifies this
      ensures Valid()
      ensures store == SweepStep(old(store), expiry, now)
    {
      var todo := store.Keys;
      while todo != {}
        invariant todo <= store.Keys
        invariant forall k :: k in store ==> k in old(store) && store[k] == old(store)[k]
        invariant forall k :: k in todo ==> k in old(store)
        invariant forall k :: k in old(store) && k !in todo ==>
                    (k in store <==> !Stale(old(store)[k], expiry, now))
        decreases |todo|
      {
        var key :| key in todo;
        todo := todo - {key};
        if Stale(store[key], expiry, now) {
          store := store - {key};
        }
      }
    }
  }

  // ---------------------------------------------------------------------------
  // The sliding-window log
  // ---------------------------------------------------------------------------

  /** The number of logged requests younger than `duration` at `now`. */
  function Young(log: seq<int>, duration: int, now: int): nat {
    if log == [] then 0
    else Young(log[..|log| - 1], duration, now) + (if now - log[|log| - 1] < duration then 1 else 0)
  }

  /** The first request of a key is always admitted, so a limit of 0 acts as a limit of 1. */
  function Effective(limit: nat): nat {
    if limit == 0 then 1 else limit
  }

  predicate WindowAdmits(log: seq<int>, limit: nat, duration: int, now: int) {
    Young(log, duration, now) < Effective(limit)
  }

  ghost predicate Sorted(log: seq<int>) {
    forall i, j :: 0 <= i <= j < |log| ==> log[i] <= log[j]
  }

  /** In a sorted log, `e` entries are young exactly when the `e`-th newest is. */
  lemma {:induction false} YoungIffNthNewest(log: seq<int>, e: nat, duration: int, now: int)
    requires Sorted(log) && e >= 1
    ensures Young(log, duration, now) >= e <==> |log| >= e && now - log[|log| - e] < duration
  {
    if log != [] {
      var front := log[..|log| - 1];
      if e == 1 {
        YoungIffNthNewest(front, 1, duration, now);
      } else {
        YoungIffNthNewest(front, e - 1, duration, now);
        YoungIffNthNewest(front, 1, duration, now);
      }
    }
  }

  // ---------------------------------------------------------------------------
  // Agreement
  // ---------------------------------------------------------------------------

  datatype Rule = Rule(limit: nat, duration: int)

  datatype Event = Request(key: string, at: int) | Sweep(at: int)

  ghost predicate Timely(events: seq<Event>) {
    forall i, j :: 0 <= i <= j < |events| ==> events[i].at <= events[j].at
  }

  /** The answers of the limiter to the requests among `events`. */
  function Answers(rules: string -> Rule, expiry: int, store: Store, events: seq<Event>): seq<bool>
    requires NoEmptyQueue(store)
    decreases |events|
  {
    if events == [] then []
    else
      match events[0]
      case Sweep(now) => Answers(rules, expiry, SweepStep(store, expiry, now), events[1..])
      case Request(key, now) =>
        var next := RequestStep(store, key, rules(key).limit, rules(key).duration, now);
        if next.Some? then [true] + Answers(rules, expiry, next.value, events[1..])
        else [false] + Answers(rules, expiry, store, events[1..])
  }

  /** The answers of the log, which sweeps do not touch. */
  function LogAnswers(rules: string -> Rule, logs: Store, events: seq<Event>): seq<bool>
    decreases |events|
  {
    if events == [] then []
    else
      match events[0]
      case Sweep(_) => LogAnswers(rules, logs, events[1..])
      case Request(key, now) =>
        var log := LogOf(logs, key);
        if WindowAdmits(log, rules(key).limit, rules(key).duration, now)
        then [true] + LogAnswers(rules, logs[key := log + [now]], events[1..])
        else [false] + LogAnswers(rules, logs, events[1..])
  }

  function LogOf(logs: Store, key: string): seq<int> {
    if key in logs then logs[key] else []
  }

  /** The queue is the newest part of the log; what it lacks is too old to matter at time `now`. */
  ghost predicate Mirrors(queue: Option<seq<int>>, log: seq<int>, rule: Rule, now: int) {
    var q := if queue.Some? then queue.value else [];
    && (queue.Some? ==> q != [])
    && Sorted(log) && (forall i :: 0 <= i < |log| ==> log[i] <= now)
    && |q| <= |log| && q == log[|log| - |q|..] && |q| <= Effective(rule.limit)
    && (|q| == Effective(rule.limit) || forall i :: 0 <= i < |log| - |q| ==> now - log[i] >= rule.duration)
  }

  lemma AdmitDecides(queue: Option<seq<int>>, log: seq<int>, rule: Rule, now: int)
    requires Mirrors(queue, log, rule, now)
    ensures Admit(queue, rule.limit, rule.duration, now).Some? <==> WindowAdmits(log, rule.limit, rule.duration, now)
  {
    YoungIffNthNewest(log, Effective(rule.limit), rule.duration, now);
  }

  lemma AdmitMirrors(queue: Option<seq<int>>, log: seq<int>, rule: Rule, now: int)
    requires Mirrors(queue, log, rule, now) && Admit(queue, rule.limit, rule.duration, now).Some?
    ensures Mirrors(Admit(queue, rule.limit, rule.duration, now), log + [now], rule, now)
  {
  }

  lemma AdmitAgrees(queue: Option<seq<int>>, log: seq<int>, rule: Rule, now: int)
    requires Mirrors(queue, log, rule, now)
    ensures Admit(queue, rule.limit, rule.duration, now).Some? <==> WindowAdmits(log, rule.limit, rule.duration, now)
    ensures WindowAdmits(log, rule.limit, rule.duration, now) ==>
              Mirrors(Admit(queue, rule.limit, rule.duration, now), log + [now], rule, now)
  {
    AdmitDecides(queue, log, rule, now);
    if WindowAdmits(log, rule.limit, rule.duration, now) { AdmitMirrors(queue, log, rule, now); }
  }

  lemma SweepAgrees(queue: seq<int>, log: seq<int>, rule: Rule, expiry: int, now: int)
    requires Mirrors(Some(queue), log, rule, now) && Stale(queue, expiry, now) && rule.duration <= expiry + 1
    ensures Mirrors(None, log, rule, now)
  {
    assert log[|log| - 1] == queue[|queue| - 1];
  }

  ghost predicate KeyMirrors(rules: string -> Rule, store: Store, logs: Store, now: int, k: string) {
    Mirrors(Lookup(store, k), LogOf(logs, k), rules(k), now)
  }

  ghost predicate AllMirror(rules: string -> Rule, store: Store, logs: Store, now: int) {
    NoEmptyQueue(store) && forall k :: KeyMirrors(rules, store, logs, now, k)
  }

  lemma TimePasses(rules: string -> Rule, store: Store, logs: Store, now: int, later: int)
    requires AllMirror(rules, store, logs, now) && now <= later
    ensures AllMirror(rules, store, logs, later)
  {
    forall k ensures KeyMirrors(rules, store, logs, later, k) {
      assert KeyMirrors(rules, store, logs, now, k);
    }
  }

  lemma SweepKeepsMirrors(rules: string -> Rule, expiry: int, store: Store, logs: Store, now: int)
    requires AllMirror(rules, store, logs, now) && forall k :: rules(k).duration <= expiry + 1
    ensures AllMirror(rules, SweepStep(store, expiry, now), logs, now)
  {
    var store' := SweepStep(store, expiry, now);
    forall k ensures KeyMirrors(rules, store', logs, now, k) {
      assert KeyMirrors(rules, store, logs, now, k);
      if k in store && k !in store' { SweepAgrees(store[k], LogOf(logs, k), rules(k), expiry, now); }
    }
  }

  lemma RequestKeepsMirrors(rules: string -> Rule, store: Store, logs: Store, key: string, now: int)
    requires AllMirror(rules, store, logs, now)
    ensures var rule := rules(key);
            var next := RequestStep(store, key, rule.limit, rule.duration, now);
            && (next.Some? <==> WindowAdmits(LogOf(logs, key), rule.limit, rule.duration, now))
            && (next.Some? ==> AllMirror(rules, next.value, logs[key := LogOf(logs, key) + [now]], now))
  {
    assert KeyMirrors(rules, store, logs, now, key);
    AdmitAgrees(Lookup(store, key), LogOf(logs, key), rules(key), now);
    var next := RequestStep(store, key, rules(key).limit, rules(key).duration, now);
    if next.Some? {
      var logs' := logs[key := LogOf(logs, key) + [now]];
      forall k ensures KeyMirrors(rules, next.value, logs', now, k) {
        assert KeyMirrors(rules, store, logs, now, k);
      }
    }
  }

  lemma {:induction false} AgreesFrom(rules: string -> Rule, expiry: int, store: Store, logs: Store, now: int,
      events: seq<Event>)
    requires AllMirror(rules, store, logs, now)
    requires Timely(events) && (events != [] ==> now <= events[0].at)
    requires forall k :: rules(k).duration <= expiry + 1
    ensures Answers(rules, expiry, store, events) == LogAnswers(rules, logs, events)
    decreases |events|
  {
    if events != [] {
      var at := events[0].at;
      TimePasses(rules, store, logs, now, at);
      match events[0]
      case Sweep(_) =>
        SweepKeepsMirrors(rules, expiry, store, logs, at);
        AgreesFrom(rules, expiry, SweepStep(store, expiry, at), logs, at, events[1..]);
      case Request(key, _) =>
        RequestKeepsMirrors(rules, store, logs, key, at);
        var next := RequestStep(store, key, rules(key).limit, rules(key).duration, at);
        if next.Some? {
          AgreesFrom(rules, expiry, next.value, logs[key := LogOf(logs, key) + [at]], at, events[1..]);
        } else {
          AgreesFrom(rules, expiry, store, logs, at, events[1..]);
        }
    }
  }

  /**
   For every history of requests under fixed rules and every placement of sweeps, the limiter accepts
   exactly when fewer than the limit of earlier accepted requests are younger than the duration,
   provided no duration exceeds the expiry by more than one second.
   */
  lemma AgreesWithLog(rules: string -> Rule, expiry: int, events: seq<Event>)
    requires Timely(events) && forall k :: rules(k).duration <= expiry + 1
    ensures Answers(rules, expiry, map[], events) == LogAnswers(rules, map[], events)
  {
    AgreesFrom(rules, expiry, map[], map[], if events == [] then 0 else events[0].at, events);
  }

  // ---------------------------------------------------------------------------
  // The condition on the expiry is exact
  // ---------------------------------------------------------------------------

  /** `n` requests at time 0, a sweep one second past the expiry, and one more request. */
  function Burst(key: string, n: nat, expiry: int): seq<Event> {
    if n == 0 then [Sweep(expiry + 1), Request(key, expiry + 1)] else [Request(key, 0)] + Burst(key, n - 1, expiry)
  }

  function Zeros(n: nat): seq<int> {
    seq(n, _ => 0)
  }

  lemma {:induction false} BurstIsTimely(key: string, n: nat, expiry: int)
    requires expiry >= 0
    ensures |Burst(key, n, expiry)| == n + 2 && Timely(Burst(key, n, expiry))
    ensures forall i :: 0 <= i < |Burst(key, n, expiry)| ==> Burst(key, n, expiry)[i].at >= 0
  {
    if n > 0 { BurstIsTimely(key, n - 1, expiry); }
  }

  lemma {:induction false} YoungZeros(n: nat, duration: int, now: int)
    requires now < duration
    ensures Young(Zeros(n), duration, now) == n
  {
    if n > 0 {
      assert Zeros(n)[..n - 1] == Zeros(n - 1);
      YoungZeros(n - 1, duration, now);
    }
  }

  function AllTrue(n: nat): seq<bool> {
    seq(n, _ => true)
  }

  /** The sweep has dropped the whole burst, so the limiter admits the last request. */
  lemma {:induction false} BurstAdmitted(rule: Rule, expiry: int, key: string, n: nat, store: Store)
    requires expiry >= 0 && NoEmptyQueue(store)
    requires key !in store ==> n == Effective(rule.limit)
    requires key in store ==>
               && (n == 0 || |store[key]| < rule.limit)
               && store[key] == Zeros(|store[key]|) && |store[key]| + n == Effective(rule.limit)
    ensures Answers(_ => rule, expiry, store, Burst(key, n, expiry)) == AllTrue(n + 1)
    decreases n
  {
    var events := Burst(key, n, expiry);
    if n == 0 {
      var swept := SweepStep(store, expiry, expiry + 1);
      assert key !in swept;
      assert events[1..][1..] == [];
      assert Answers(_ => rule, expiry, swept, events[1..]) == [true];
    } else {
      var next := RequestStep(store, key, rule.limit, rule.duration, 0);
      var queue := if key in store then store[key] else [];
      assert next.Some? && next.value[key] == Zeros(|queue| + 1);
      assert events[1..] == Burst(key, n - 1, expiry);
      BurstAdmitted(rule, expiry, key, n - 1, next.value);
    }
  }

  lemma LogStep(rules: string -> Rule, logs: Store, key: string, now: int, rest: seq<Event>)
    ensures var log := LogOf(logs, key);
            LogAnswers(rules, logs, [Request(key, now)] + rest) ==
            if WindowAdmits(log, rules(key).limit, rules(key).duration, now)
            then [true] + LogAnswers(rules, logs[key := log + [now]], rest)
            else [false] + LogAnswers(rules, logs, rest)
  {
    assert ([Request(key, now)] + rest)[1..] == rest;
  }

  lemma LastRejected(rules: string -> Rule, expiry: int, key: string, m: nat, logs: Store)
    requires rules(key).duration > expiry + 1 && LogOf(logs, key) == Zeros(m) && m == Effective(rules(key).limit)
    ensures LogAnswers(rules, logs, Burst(key, 0, expiry)) == AllTrue(0) + [false]
  {
    var last := [Request(key, expiry + 1)];
    YoungZeros(m, rules(key).duration, expiry + 1);
    LogStep(rules, logs, key, expiry + 1, []);
    assert last + [] == last && Burst(key, 0, expiry)[1..] == last;
    assert LogAnswers(rules, logs, last) == [false] + LogAnswers(rules, logs, []);
  }

  lemma FirstAdmitted(rules: string -> Rule, key: string, m: nat, logs: Store, rest: seq<Event>)
    requires rules(key).duration > 0 && LogOf(logs, key) == Zeros(m) && m < Effective(rules(key).limit)
    ensures LogAnswers(rules, logs, [Request(key, 0)] + rest) == [true]
        + LogAnswers(rules, logs[key := Zeros(m + 1)], rest)
  {
    YoungZeros(m, rules(key).duration, 0);
    LogStep(rules, logs, key, 0, rest);
    assert Zeros(m) + [0] == Zeros(m + 1);
  }

  /** The log still holds the burst, so it turns the last request away. */
  lemma {:induction false} BurstRejected(rules: string -> Rule, expiry: int, key: string, n: nat, m: nat, logs: Store)
    requires expiry >= 0 && rules(key).duration > expiry + 1
    requires LogOf(logs, key) == Zeros(m) && m + n == Effective(rules(key).limit)
    ensures LogAnswers(rules, logs, Burst(key, n, expiry)) == AllTrue(n) + [false]
    decreases n
  {
    if n == 0 {
      LastRejected(rules, expiry, key, m, logs);
    } else {
      FirstAdmitted(rules, key, m, logs, Burst(key, n - 1, expiry));
      BurstRejected(rules, expiry, key, n - 1, m + 1, logs[key := Zeros(m + 1)]);
      assert [true] + (AllTrue(n - 1) + [false]) == AllTrue(n) + [false];
    }
  }

  ghost predicate NeverDiffers(rule: Rule, expiry: int) {
    forall events :: Timely(events) ==>
      Answers(_ => rule, expiry, map[], events) == LogAnswers(_ => rule, map[], events)
  }

  /** Sweeping is unobservable exactly when the duration exceeds the expiry by at most one second. */
  lemma SweepsUnobservableIff(rule: Rule, expiry: int)
    requires expiry > 0
    ensures NeverDiffers(rule, expiry) <==> rule.duration <= expiry + 1
  {
    if rule.duration <= expiry + 1 {
      forall events | Timely(events)
        ensures Answers(_ => rule, expiry, map[], events) == LogAnswers(_ => rule, map[], events)
      {
        AgreesWithLog(_ => rule, expiry, events);
      }
    } else {
      var n := Effective(rule.limit);
      var events := Burst("k", n, expiry);
      BurstIsTimely("k", n, expiry);
      BurstAdmitted(rule, expiry, "k", n, map[]);
      BurstRejected(_ => rule, expiry, "k", n, 0, map[]);
      assert AllTrue(n + 1)[n] != (AllTrue(n) + [false])[n];
    }
  }
}
