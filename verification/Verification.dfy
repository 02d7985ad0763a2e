/**
 The store of verification codes: one map keyed by purpose followed by key, swept when it grows past
 a size. It is compared with a store keyed by the (purpose, key) pair that never sweeps.
 */
module Verification {

  const MAX_SIZE := 10
  const VALID_MINUTES := 10
  const NANOS_PER_SECOND := 1_000_000_000

  /** `time` is in nanoseconds. */
  datatype Value = Value(code: string, time: int)

  type Entries = map<string, Value>

  /** The elapsed time is turned into whole seconds, dropping the fraction toward zero. */
  function WholeSeconds(elapsed: int): int {
    if elapsed >= 0 then elapsed / NANOS_PER_SECOND else -(-elapsed / NANOS_PER_SECOND)
  }

  predicate Expired(v: Value, now: int) {
    WholeSeconds(now - v.time) >= VALID_MINUTES * 60
  }

  function Sweep(m: Entries, now: int): Entries {
    map k | k in m && !Expired(m[k], now) :: m[k]
  }

  /** Registers at `now`; the sweep that may follow reads the clock again, at `sweepAt`. */
  function RegisterStep(m: Entries, purpose: string, key: string, code: string, now: int, sweepAt: int): Entries {
    var m' := m[purpose + key := Value(code, now)];
    if |m'| > MAX_SIZE then Sweep(m', sweepAt) else m'
  }

  predicate Verifies(m: Entries, purpose: string, key: string, code: string, now: int) {
    purpose + key in m && !Expired(m[purpose + key], now) && code == m[purpose + key].code
  }

  class VerificationStore {
    var entries: Entries

    constructor ()
      ensures entries == map[]
    {
      entries := map[];
    }

    method Register(key: string, code: string, purpose: string, now: int, sweepAt: int)
      modifies this
      ensures entries == RegisterStep(old(entries), purpose, key, code, now, sweepAt)
    {
      entries := entries[purpose + key := Value(code, now)];
      if |entries| > MAX_SIZE {
        RemoveExpiredPairs(sweepAt);
      }
    }

    method Verify(key: string, code: string, purpose: string, now: int) returns (ok: bool)
      ensures ok <==> Verifies(entries, purpose, key, code, now)
    {
      if purpose + key !in entries || WholeSeconds(now - entries[purpose + key].time) >= VALID_MINUTES * 60 {
        return false;
      }
      return code == entries[purpose + key].code;
    }

    method Delete(key: string, purpose: string)
      modifies this
      ensures entries == old(entries) - {purpose + key}
    {
      entries := entries - {purpose + key};
    }

    method RemoveExpiredPairs(now: int)
      modifies this
      ensures entries == Sweep(old(entries), now)
    {
      var todo := entries.Keys;
      while todo != {}
        invariant todo <= entries.Keys && todo <= old(entries).Keys
        invariant forall k :: k in entries ==> k in old(entries) && entries[k] == old(entries)[k]
        invariant forall k :: k in old(entries) && k !in todo ==> (k in entries <==> !Expired(old(entries)[k], now))
        decreases |todo|
      {
        var key :| key in todo;
        todo := todo - {key};
        if Expired(entries[key], now) {
          entries := entries - {key};
        }
      }
    }
  }

  // ---------------------------------------------------------------------------
  // The store that never sweeps
  // ---------------------------------------------------------------------------

  datatype Event =
    | Register(purpose: string, key: string, code: string, at: int, sweepAt: int)
    | Verify(purpose: string, key: string, code: string, at: int)
    | Delete(purpose: string, key: string, at: int)

  function End(e: Event): int {
    if e.Register? then e.sweepAt else e.at
  }

  /** The clock never goes back. */
  ghost predicate Timely(events: seq<Event>, now: int)
    decreases |events|
  {
    events == [] || (now <= events[0].at <= End(events[0]) && Timely(events[1..], End(events[0])))
  }

  ghost predicate UsesOnly(events: seq<Event>, purposes: set<string>) {
    forall i :: 0 <= i < |events| ==> events[i].purpose in purposes
  }

  function Answers(m: Entries, events: seq<Event>): seq<bool>
    decreases |events|
  {
    if events == [] then []
    else
      match events[0]
      case Register(p, k, c, at, sweepAt) => Answers(RegisterStep(m, p, k, c, at, sweepAt), events[1..])
      case Verify(p, k, c, at) => [Verifies(m, p, k, c, at)] + Answers(m, events[1..])
      case Delete(p, k, _) => Answers(m - {p + k}, events[1..])
  }

  type Pairs = map<(string, string), Value>

  function PairAnswers(m: Pairs, events: seq<Event>): seq<bool>
    decreases |events|
  {
    if events == [] then []
    else
      match events[0]
      case Register(p, k, c, at, _) => PairAnswers(m[(p, k) := Value(c, at)], events[1..])
      case Verify(p, k, c, at) =>
        [(p, k) in m && !Expired(m[(p, k)], at) && c == m[(p, k)].code] + PairAnswers(m, events[1..])
      case Delete(p, k, _) => PairAnswers(m - {(p, k)}, events[1..])
  }

  /** No purpose begins another. */
  ghost predicate PrefixFree(purposes: set<string>) {
    forall p, q :: p in purposes && q in purposes && p <= q ==> p == q
  }

  /** Under prefix-free purposes the joined key determines both parts. */
  lemma JoinIsInjective(purposes: set<string>, p: string, k: string, q: string, l: string)
    requires PrefixFree(purposes) && p in purposes && q in purposes && p + k == q + l
    ensures p == q && k == l
  {
    var joined := p + k;
    assert p == joined[..|p|] && q == joined[..|q|];
    assert p <= q || q <= p;
    assert k == (p + k)[|p|..];
    assert l == (q + l)[|q|..];
  }

  /** What the swept store lacks has expired by `now`; the rest is the same. */
  ghost predicate Matches(purposes: set<string>, m: Entries, pairs: Pairs, now: int) {
    forall p, k :: p in purposes ==> PairMatches(m, pairs, now, p, k)
  }

  ghost predicate PairMatches(m: Entries, pairs: Pairs, now: int, p: string, k: string) {
    && (p + k in m ==> (p, k) in pairs && pairs[(p, k)] == m[p + k])
    && (p + k !in m && (p, k) in pairs ==> Expired(pairs[(p, k)], now))
  }

  lemma StaysExpired(v: Value, now: int, later: int)
    requires Expired(v, now) && now <= later
    ensures Expired(v, later)
  {
  }

  lemma MatchesLater(purposes: set<string>, m: Entries, pairs: Pairs, now: int, later: int)
    requires Matches(purposes, m, pairs, now) && now <= later
    ensures Matches(purposes, m, pairs, later)
  {
    forall p, k | p in purposes ensures PairMatches(m, pairs, later, p, k) {
      assert PairMatches(m, pairs, now, p, k);
      if p + k !in m && (p, k) in pairs { StaysExpired(pairs[(p, k)], now, later); }
    }
  }

  lemma RegisterMatches(purposes: set<string>, m: Entries, pairs: Pairs, q: string, l: string, c: string, at: int,
      sweepAt: int)
    requires PrefixFree(purposes) && q in purposes && at <= sweepAt && Matches(purposes, m, pairs, sweepAt)
    ensures Matches(purposes, RegisterStep(m, q, l, c, at, sweepAt), pairs[(q, l) := Value(c, at)], sweepAt)
  {
    var m', pairs' := RegisterStep(m, q, l, c, at, sweepAt), pairs[(q, l) := Value(c, at)];
    forall p, k | p in purposes ensures PairMatches(m', pairs', sweepAt, p, k) {
      assert PairMatches(m, pairs, sweepAt, p, k);
      if p + k == q + l { JoinIsInjective(purposes, p, k, q, l); }
    }
  }

  lemma DeleteMatches(purposes: set<string>, m: Entries, pairs: Pairs, q: string, l: string, now: int)
    requires PrefixFree(purposes) && q in purposes && Matches(purposes, m, pairs, now)
    ensures Matches(purposes, m - {q + l}, pairs - {(q, l)}, now)
  {
    forall p, k | p in purposes ensures PairMatches(m - {q + l}, pairs - {(q, l)}, now, p, k) {
      assert PairMatches(m, pairs, now, p, k);
      if p + k == q + l { JoinIsInjective(purposes, p, k, q, l); }
    }
  }

  lemma {:induction false} AnswersAgree(purposes: set<string>, m: Entries, pairs: Pairs, events: seq<Event>, now: int)
    requires PrefixFree(purposes) && Matches(purposes, m, pairs, now)
    requires Timely(events, now) && UsesOnly(events, purposes)
    ensures Answers(m, events) == PairAnswers(pairs, events)
    decreases |events|
  {
    if events != [] {
      var e := events[0];
      assert e.purpose in purposes;
      MatchesLater(purposes, m, pairs, now, End(e));
      match e
      case Register(p, k, c, at, sweepAt) =>
        RegisterMatches(purposes, m, pairs, p, k, c, at, sweepAt);
        AnswersAgree(purposes, RegisterStep(m, p, k, c, at, sweepAt), pairs[(p, k) := Value(c, at)], events[1..],
            End(e));
      case Verify(p, k, _, at) =>
        assert PairMatches(m, pairs, at, p, k);
        AnswersAgree(purposes, m, pairs, events[1..], End(e));
      case Delete(p, k, _) =>
        DeleteMatches(purposes, m, pairs, p, k, End(e));
        AnswersAgree(purposes, m - {p + k}, pairs - {(p, k)}, events[1..], End(e));
    }
  }

  ghost predicate NeverDiffers(purposes: set<string>) {
    forall events, now :: Timely(events, now) && UsesOnly(events, purposes) ==>
      Answers(map[], events) == PairAnswers(map[], events)
  }

  /** When purpose `q` continues `p`, a code registered for `q` verifies for `p`. */
  lemma PrefixCollides(p: string, q: string)
    requires p <= q && p != q
    ensures var events := [Register(q, "", "123", 0, 0), Verify(p, q[|p|..], "123", 0)];
            Timely(events, 0) && Answers(map[], events) == [true] && PairAnswers(map[], events) == [false]
  {
    var events := [Register(q, "", "123", 0, 0), Verify(p, q[|p|..], "123", 0)];
    assert p + q[|p|..] == q == q + "";
    assert events[1..] == [events[1]] && events[1..][1..] == [];
    var m := RegisterStep(map[], q, "", "123", 0, 0);
    assert m == map[q := Value("123", 0)] && |m| == 1;
    assert Answers(m, events[1..]) == [true] + Answers(m, []);
    var pairs: Pairs := map[(q, "") := Value("123", 0)];
    assert PairAnswers(pairs, events[1..]) == [false] + PairAnswers(pairs, []);
  }

  /** Sweeping and joining the keys are unobservable in every history exactly when no purpose begins another. */
  lemma UnobservableIffPrefixFree(purposes: set<string>)
    ensures NeverDiffers(purposes) <==> PrefixFree(purposes)
  {
    if PrefixFree(purposes) {
      forall events, now | Timely(events, now) && UsesOnly(events, purposes)
        ensures Answers(map[], events) == PairAnswers(map[], events)
      {
        AnswersAgree(purposes, map[], map[], events, now);
      }
    } else {
      var p, q :| p in purposes && q in purposes && p <= q && p != q;
      PrefixCollides(p, q);
      assert UsesOnly([Register(q, "", "123", 0, 0), Verify(p, q[|p|..], "123", 0)], purposes);
    }
  }

  const EMAIL_VERIFICATION := "v"
  const PASSWORD_RESET := "r"

  /** The two purposes in use never collide. */
  lemma PurposesInUse()
    ensures NeverDiffers({EMAIL_VERIFICATION, PASSWORD_RESET})
  {
    UnobservableIffPrefixFree({EMAIL_VERIFICATION, PASSWORD_RESET});
  }
}
