/** The retry loop of a relayed request: over the priorities of one group, or over several groups in turn. */
module RelayRetry {
  import opened Numbers

  datatype Error = Error(
    affinitySkip: bool, channelError: bool, skipRetry: bool, specificChannel: bool, code: int,
    alwaysSkip: bool, retryByStatus: bool, localError: bool)

  predicate ShouldRetry(e: Error, retryTimes: int) {
    if e.affinitySkip then false
    else if e.channelError then true
    else if e.skipRetry then false
    else if retryTimes <= 0 then false
    else if e.specificChannel then false
    else if 200 <= e.code < 300 then false
    else if e.code < 100 || e.code > 599 then true
    else if e.alwaysSkip then false
    else e.retryByStatus
  }

  /** Tasks have rules of their own. */
  predicate ShouldRetryTask(e: Error, retryTimes: int) {
    if e.affinitySkip then false
    else if retryTimes <= 0 then false
    else if e.specificChannel then false
    else if e.code == 429 then true
    else if e.code == 307 then true
    else if 500 <= e.code < 600 then !e.alwaysSkip
    else if e.code == 400 then false
    else if e.code == 408 then false
    else if e.localError then false
    else !(200 <= e.code < 300)
  }

  datatype Reply = Served | BodyUnreadable | Failed(error: Error)

  /**
   The surroundings of a request. `auto` requests go through the groups in turn, others stay in one.
   A task may be locked to one channel. Whether a group has a channel for a priority, whether it can be set
   up and what it answers may change from one attempt to the next.
   */
  datatype Env = Env(
    retryTimes: int, task: bool, locked: bool, auto: bool, autoEnabled: bool, crossGroup: bool, groups: nat,
    available: (nat, nat, int) -> bool, setUp: nat -> bool, reply: nat -> Reply)

  predicate Again(env: Env, e: Error, retryTimes: int) {
    if env.task then ShouldRetryTask(e, retryTimes) else ShouldRetry(e, retryTimes)
  }

  predicate Locked(env: Env) {
    env.task && env.locked
  }

  predicate ByGroups(env: Env) {
    env.auto && !Locked(env)
  }

  /** The retry counter, its flag to stand still once, and the group to start from. */
  datatype Counter = Counter(retry: int, resetNextTry: bool, group: nat)

  function Increased(c: Counter): Counter {
    if c.resetNextTry then c.(resetNextTry := false) else c.(retry := c.retry + 1)
  }

  /** Looking for a group with a channel, from group `i` on. */
  function SelectFrom(env: Env, n: nat, c: Counter, start: nat, i: nat): (r: (bool, Counter))
    decreases env.groups - i
  {
    if i >= env.groups then (false, c)
    else
      var priority := if i > start then 0 else c.retry;
      if !env.available(n, i, priority) then SelectFrom(env, n, c.(group := i + 1, retry := 0), start, i + 1)
      else if env.crossGroup && priority >= env.retryTimes
      then (true, c.(group := i + 1, retry := 0, resetNextTry := true))
      else (true, c.(group := i))
  }

  /** The channel for attempt `n`; the first attempt uses the one chosen before the loop. */
  function Select(env: Env, n: nat, c: Counter): (bool, Counter) {
    if Locked(env) then (c.retry > 0 ==> env.setUp(n), c)
    else if n == 0 then (true, c)
    else if env.auto then
      if !env.autoEnabled then (false, c)
      else
        var (found, c') := SelectFrom(env, n, c, c.group, c.group);
        (found && env.setUp(n), c')
    else (env.available(n, 0, c.retry) && env.setUp(n), c)
  }

  /** How many more attempts the counter leaves. */
  function Budget(env: Env, c: Counter): nat {
    var left := if !ByGroups(env) then env.retryTimes + 1 - c.retry
                else if c.group < env.groups then (env.groups - c.group) * (env.retryTimes + 1) - c.retry
                else 0;
    if left > 0 then left else 0
  }

  predicate Sound(c: Counter) {
    c.retry >= 0 && !c.resetNextTry
  }

  lemma ProductStep(k: int, m: nat)
    ensures (k + 1) * m == k * m + m
  {
  }

  /** Finding a channel in a later group starts that group's count anew. */
  lemma {:induction false} SelectFromIs(env: Env, n: nat, c: Counter, start: nat, i: nat)
    requires c.retry >= 0 && !c.resetNextTry && start <= i && (i > start ==> c.retry == 0)
    ensures var (found, c') := SelectFrom(env, n, c, start, i);
            found ==> exists g :: i <= g < env.groups && FoundIn(env, c, i, g, c')
    decreases env.groups - i
  {
    if i < env.groups {
      var priority := if i > start then 0 else c.retry;
      if !env.available(n, i, priority) {
        var next := c.(group := i + 1, retry := 0);
        SelectFromIs(env, n, next, start, i + 1);
        var (found, c') := SelectFrom(env, n, next, start, i + 1);
        if found {
          var g :| i + 1 <= g < env.groups && FoundIn(env, next, i + 1, g, c');
          assert FoundIn(env, c, i, g, c');
        }
      } else {
        var (found, c') := SelectFrom(env, n, c, start, i);
        assert FoundIn(env, c, i, i, c');
      }
    }
  }

  /** Found in group `g`, `i` being the first one looked at. */
  predicate FoundIn(env: Env, c: Counter, i: nat, g: nat, c': Counter) {
    var retry := if g == i then c.retry else 0;
    if env.crossGroup && retry >= env.retryTimes then c' == Counter(0, true, g + 1) else c' == Counter(retry, false, g)
  }

  lemma FoundSpends(env: Env, c: Counter, g: nat, c': Counter)
    requires Sound(c) && ByGroups(env) && 0 <= c.retry <= env.retryTimes && c.group <= g < env.groups
    requires FoundIn(env, c, c.group, g, c')
    ensures Sound(Increased(c')) && Budget(env, Increased(c')) < Budget(env, c)
  {
    var m, next := env.retryTimes + 1, Increased(c');
    var left, left' := env.groups - c.group, env.groups - next.group;
    ProductOrder(env.groups - g, left, m);
    if next.group == g + 1 {
      ProductStep(left', m);
    } else if g > c.group {
      ProductStep(env.groups - g, m);
      ProductOrder(env.groups - g + 1, left, m);
    }
  }

  /** Every attempt after the first spends some of the budget. */
  lemma SelectSpends(env: Env, n: nat, c: Counter)
    requires Sound(c) && c.retry <= env.retryTimes && n > 0
    ensures var (found, c') := Select(env, n, c);
            found ==> Sound(Increased(c')) && Budget(env, Increased(c')) < Budget(env, c)
  {
    if ByGroups(env) && env.autoEnabled {
      SelectFromIs(env, n, c, c.group, c.group);
      var (found, c') := SelectFrom(env, n, c, c.group, c.group);
      if found {
        var g :| c.group <= g < env.groups && FoundIn(env, c, c.group, g, c');
        FoundSpends(env, c, g, c');
      }
    }
  }

  // ---------------------------------------------------------------------------
  // The loop
  // ---------------------------------------------------------------------------

  /** How the loop ends: with an answer, with an error, or without having run at all. */
  datatype End = Answered | Errored | NeverRan

  datatype Result = Result(end: End, attempts: nat)

  /** The loop from attempt `n` on; `n` attempts have failed so far. */
  function Loop(env: Env, c: Counter, n: nat): Result
    requires Sound(c)
    decreases if n == 0 then 1 else 0, Budget(env, c)
  {
    if c.retry > env.retryTimes then Result(if n == 0 then NeverRan else Errored, n)
    else
      var (found, c') := Select(env, n, c);
      if !found then Result(Errored, n)
      else
        match env.reply(n)
        case BodyUnreadable => Result(Errored, n)
        case Served => Result(Answered, n + 1)
        case Failed(e) =>
          if !Again(env, e, env.retryTimes - c'.retry) then Result(Errored, n + 1)
          else
            assert Sound(Increased(c')) && (n > 0 ==> Budget(env, Increased(c')) < Budget(env, c)) by {
              if n > 0 { SelectSpends(env, n, c); }
            }
            Loop(env, Increased(c'), n + 1)
  }

  /** The request starts with no retries used, in the group chosen before the loop. */
  function Relay(env: Env, group: nat): Result {
    Loop(env, Counter(0, false, group), 0)
  }

  lemma {:induction false} LoopWithinBudget(env: Env, c: Counter, n: nat)
    requires Sound(c) && n > 0
    ensures Loop(env, c, n).attempts <= n + Budget(env, c)
    decreases Budget(env, c)
  {
    if c.retry <= env.retryTimes && Select(env, n, c).0 && env.reply(n).Failed? {
      SelectSpends(env, n, c);
      var next := Increased(Select(env, n, c).1);
      if Again(env, env.reply(n).error, env.retryTimes - Select(env, n, c).1.retry) {
        LoopWithinBudget(env, next, n + 1);
      }
    } else if c.retry <= env.retryTimes && Select(env, n, c).0 {
      SelectSpends(env, n, c);
    }
  }

  /**
   In one group there are at most one more attempt than retries allowed. With automatic groups every group
   from the first one on has that many.
   */
  lemma AttemptsBound(env: Env, group: nat)
    requires env.retryTimes >= 0
    ensures !ByGroups(env) ==> Relay(env, group).attempts <= env.retryTimes + 1
    ensures ByGroups(env) && group < env.groups ==>
              Relay(env, group).attempts <= (env.groups - group) * (env.retryTimes + 1)
    ensures ByGroups(env) && group >= env.groups ==> Relay(env, group).attempts <= 1
  {
    var next := Counter(1, false, group);
    if env.reply(0).Failed? && Again(env, env.reply(0).error, env.retryTimes) {
      assert Relay(env, group) == Loop(env, next, 1);
      LoopWithinBudget(env, next, 1);
    }
    if ByGroups(env) && group < env.groups { ProductOrder(1, env.groups - group, env.retryTimes + 1); }
  }

  /** An error that may be followed by another attempt: not one meant for the client, and none of a pinned channel. */
  predicate Repeatable(env: Env, e: Error) {
    if env.task then !e.affinitySkip && !e.specificChannel && e.code !in {400, 408} && !(200 <= e.code < 300)
    else !e.affinitySkip && (e.channelError || (!e.skipRetry && !e.specificChannel && !(200 <= e.code < 300)))
  }

  /** The attempts that counted: all but the last failed in a way that allows another, and the last one decides. */
  lemma {:induction false} LoopHistory(env: Env, c: Counter, n: nat)
    requires Sound(c)
    ensures var r := Loop(env, c, n);
            && r.attempts >= n
            && (forall k: nat :: n <= k < r.attempts - 1 ==>
                env.reply(k).Failed? && Repeatable(env, env.reply(k).error))
            && (r.end == Answered ==> r.attempts > n && env.reply(r.attempts - 1) == Served)
            && (r.end != Answered && r.attempts > n ==> env.reply(r.attempts - 1).Failed?)
            && (r.end == NeverRan <==> n == 0 && c.retry > env.retryTimes)
    decreases if n == 0 then 1 else 0, Budget(env, c)
  {
    if c.retry <= env.retryTimes && Select(env, n, c).0 && env.reply(n).Failed? {
      if n > 0 { SelectSpends(env, n, c); }
      var next := Increased(Select(env, n, c).1);
      if Again(env, env.reply(n).error, env.retryTimes - Select(env, n, c).1.retry) {
        LoopHistory(env, next, n + 1);
      }
    }
  }

  /** The loop ends in an answer or an error exactly when the number of retries is not negative. */
  lemma EndsIff(env: Env, group: nat)
    ensures Relay(env, group).end != NeverRan <==> env.retryTimes >= 0
    ensures var r := Relay(env, group); r.end == Answered ==> r.attempts > 0 && env.reply(r.attempts - 1) == Served
  {
    LoopHistory(env, Counter(0, false, group), 0);
  }

  /** After its loop a task without an error uses the result of the last attempt; without an attempt there is none. */
  predicate Crashes(env: Env, r: Result) {
    env.task && r.end == NeverRan
  }

  lemma CrashesIff(env: Env, group: nat)
    ensures Crashes(env, Relay(env, group)) <==> env.task && env.retryTimes < 0
  {
    EndsIff(env, group);
  }

  // ---------------------------------------------------------------------------
  // The bound is attained
  // ---------------------------------------------------------------------------

  /** Every group always has a channel and every channel always fails in a way that allows another attempt. */
  ghost predicate AlwaysFails(env: Env) {
    && !env.task && env.auto && env.autoEnabled && env.crossGroup && env.retryTimes >= 1
    && (forall n: nat, g: nat, p: int :: env.available(n, g, p))
    && (forall n: nat ::
        env.setUp(n) && env.reply(n).Failed? && env.reply(n).error.channelError && !env.reply(n).error.affinitySkip)
  }

  lemma {:induction false} FailsThroughout(env: Env, c: Counter, n: nat)
    requires AlwaysFails(env) && Sound(c) && c.retry <= env.retryTimes && n > 0
    ensures Loop(env, c, n) == Result(Errored, n + Budget(env, c))
    decreases Budget(env, c)
  {
    if c.group < env.groups {
      var found, c' := Select(env, n, c).0, Select(env, n, c).1;
      var next := Increased(c');
      SelectSpends(env, n, c);
      assert found && env.available(n, c.group, c.retry);
      if c.retry >= env.retryTimes {
        assert next == Counter(0, false, c.group + 1);
        ProductStep(env.groups - c.group - 1, env.retryTimes + 1);
        ProductOrder(0, env.groups - c.group - 1, env.retryTimes + 1);
      } else {
        assert next == Counter(c.retry + 1, false, c.group);
        ProductOrder(1, env.groups - c.group, env.retryTimes + 1);
      }
      assert Budget(env, next) == Budget(env, c) - 1;
      FailsThroughout(env, next, n + 1);
    }
  }

  /** So with automatic groups the limit on retries holds per group, not per request. */
  lemma BoundIsAttained(env: Env, group: nat)
    requires AlwaysFails(env) && group < env.groups
    ensures Relay(env, group) == Result(Errored, (env.groups - group) * (env.retryTimes + 1))
  {
    var next := Counter(1, false, group);
    assert env.reply(0).Failed? && Again(env, env.reply(0).error, env.retryTimes);
    assert Relay(env, group) == Loop(env, next, 1);
    FailsThroughout(env, next, 1);
    ProductOrder(1, env.groups - group, env.retryTimes + 1);
  }

  // ---------------------------------------------------------------------------
  // The loops themselves
  // ---------------------------------------------------------------------------

  method SelectGroup(env: Env, n: nat, c: Counter) returns (found: bool, c': Counter)
    ensures (found, c') == SelectFrom(env, n, c, c.group, c.group)
  {
    c' := c;
    var i := c.group;
    while i < env.groups
      invariant c.group <= i
      invariant SelectFrom(env, n, c', c.group, i) == SelectFrom(env, n, c, c.group, c.group)
      decreases env.groups - i
    {
      var priority := if i > c.group then 0 else c'.retry;
      if env.available(n, i, priority) {
        if env.crossGroup && priority >= env.retryTimes {
          c' := c'.(group := i + 1, retry := 0, resetNextTry := true);
        } else {
          c' := c'.(group := i);
        }
        return true, c';
      }
      c' := c'.(group := i + 1, retry := 0);
      i := i + 1;
    }
    found := false;
  }

  method GetChannel(env: Env, n: nat, c: Counter) returns (found: bool, c': Counter)
    ensures (found, c') == Select(env, n, c)
  {
    c' := c;
    if Locked(env) {
      found := true;
      if c.retry > 0 { found := env.setUp(n); }
    } else if n == 0 {
      found := true;
    } else if env.auto {
      if !env.autoEnabled { return false, c; }
      found, c' := SelectGroup(env, n, c);
      if found { found := env.setUp(n); }
    } else {
      found := env.available(n, 0, c.retry);
      if found { found := env.setUp(n); }
    }
  }

  method RelayRequest(env: Env, group: nat) returns (r: Result)
    ensures r == Relay(env, group)
  {
    var c, n := Counter(0, false, group), 0;
    while c.retry <= env.retryTimes
      invariant Sound(c) && Loop(env, c, n) == Relay(env, group)
      decreases if n == 0 then 1 else 0, Budget(env, c)
    {
      var found, c' := GetChannel(env, n, c);
      if !found { return Result(Errored, n); }
      var reply := env.reply(n);
      if reply == BodyUnreadable { return Result(Errored, n); }
      if reply == Served { return Result(Answered, n + 1); }
      if !Again(env, reply.error, env.retryTimes - c'.retry) { return Result(Errored, n + 1); }
      if n > 0 { SelectSpends(env, n, c); }
      c, n := Increased(c'), n + 1;
    }
    r := Result(if n == 0 then NeverRan else Errored, n);
  }
}
