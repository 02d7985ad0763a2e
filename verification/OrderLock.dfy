/**
 The per-order lock of the payment handlers: a reference-counted mutex kept in a shared map.

 Every lock, map or counter access of `LockOrder` and `UnlockOrder` is one atomic step of one
 thread. A Go mutex has no owner, so it is a bare flag here, and the map lookup with which
 `UnlockOrder` starts is taken without holding any lock, as in the source.
 */
module OrderLock {

  type TradeNo = string
  type MutexId = nat

  /** The next access of a thread. The first six belong to LockOrder, the last six to UnlockOrder. */
  datatype Pc =
    | Idle
    | TakeCreate
    | LoadEntry
    | StoreEntry
    | CountUp
    | DropCreate
    | TakeMutex
    | Inside
    | ReleaseMutex
    | RetakeCreate
    | CountDown
    | MaybeDelete
    | RedropCreate

  datatype Thread = Thread(pc: Pc, tradeNo: TradeNo, rcm: MutexId)

  datatype Mutex = Mutex(locked: bool, refCount: int)

  datatype State = State(threads: seq<Thread>, createLocked: bool, locks: map<TradeNo, MutexId>, heap: seq<Mutex>)

  /** Between createLock.Lock() and createLock.Unlock(). */
  predicate InCreate(pc: Pc) {
    pc.LoadEntry? || pc.StoreEntry? || pc.CountUp? || pc.DropCreate? || pc.CountDown? || pc.MaybeDelete?
        || pc.RedropCreate?
  }

  /** Between refCount++ and refCount--. */
  predicate Counted(pc: Pc) {
    pc.DropCreate? || pc.TakeMutex? || pc.Inside? || pc.ReleaseMutex? || pc.RetakeCreate? || pc.CountDown?
  }

  /** Has a mutex object in hand. */
  predicate Attached(pc: Pc) {
    Counted(pc) || pc.CountUp? || pc.MaybeDelete?
  }

  /** Between mu.Lock() and mu.Unlock(). */
  predicate InMutex(pc: Pc) {
    pc.Inside? || pc.ReleaseMutex?
  }

  ghost predicate RefsOk(s: State) {
    && (forall t :: 0 <= t < |s.threads| && Attached(s.threads[t].pc) ==> s.threads[t].rcm < |s.heap|)
    && (forall n :: n in s.locks ==> s.locks[n] < |s.heap|)
  }

  /** Lock steps wait for the flag to clear; every other access can always be made. */
  ghost predicate Enabled(s: State, t: nat)
    requires t < |s.threads| && RefsOk(s)
  {
    match s.threads[t].pc
    case Idle => false
    case TakeCreate => !s.createLocked
    case RetakeCreate => !s.createLocked
    case TakeMutex => !s.heap[s.threads[t].rcm].locked
    case _ => true
  }

  /** An unlock that Go answers with a fatal error. */
  ghost predicate Crashes(s: State, t: nat)
    requires t < |s.threads| && RefsOk(s)
  {
    match s.threads[t].pc
    case DropCreate => !s.createLocked
    case RedropCreate => !s.createLocked
    case ReleaseMutex => !s.heap[s.threads[t].rcm].locked
    case _ => false
  }

  function Move(s: State, t: nat, th: Thread): State
    requires t < |s.threads|
  {
    s.(threads := s.threads[t := th])
  }

  /** The effect of the next access of thread `t`. */
  ghost function After(s: State, t: nat): (s': State)
    requires t < |s.threads| && RefsOk(s) && Enabled(s, t)
    ensures RefsOk(s')
  {
    var th := s.threads[t];
    match th.pc
    case TakeCreate => Move(s, t, th.(pc := LoadEntry)).(createLocked := true)
    case LoadEntry =>
      if th.tradeNo in s.locks
      then Move(s, t, th.(pc := CountUp, rcm := s.locks[th.tradeNo]))
      else Move(s, t, th.(pc := StoreEntry))
    case StoreEntry =>
      Move(s, t, th.(pc := CountUp, rcm := |s.heap|))
        .(locks := s.locks[th.tradeNo := |s.heap|], heap := s.heap + [Mutex(false, 0)])
    case CountUp =>
      Move(s, t, th.(pc := DropCreate))
        .(heap := s.heap[th.rcm := s.heap[th.rcm].(refCount := s.heap[th.rcm].refCount + 1)])
    case DropCreate => Move(s, t, th.(pc := TakeMutex)).(createLocked := false)
    case TakeMutex =>
      Move(s, t, th.(pc := Inside)).(heap := s.heap[th.rcm := s.heap[th.rcm].(locked := true)])
    case Inside =>
      // UnlockOrder returns at once, leaving everything locked, when the entry is gone.
      if th.tradeNo in s.locks
      then Move(s, t, th.(pc := ReleaseMutex, rcm := s.locks[th.tradeNo]))
      else Move(s, t, th.(pc := Idle))
    case ReleaseMutex =>
      Move(s, t, th.(pc := RetakeCreate)).(heap := s.heap[th.rcm := s.heap[th.rcm].(locked := false)])
    case RetakeCreate => Move(s, t, th.(pc := CountDown)).(createLocked := true)
    case CountDown =>
      Move(s, t, th.(pc := MaybeDelete))
        .(heap := s.heap[th.rcm := s.heap[th.rcm].(refCount := s.heap[th.rcm].refCount - 1)])
    case MaybeDelete =>
      var s1 := Move(s, t, th.(pc := RedropCreate));
      if s.heap[th.rcm].refCount == 0 then s1.(locks := s.locks - {th.tradeNo}) else s1
    case RedropCreate => Move(s, t, th.(pc := Idle)).(createLocked := false)
  }

  /** A handler on thread `t` calls LockOrder for order `n`. */
  function Begin(s: State, t: nat, n: TradeNo): State
    requires t < |s.threads|
  {
    Move(s, t, Thread(TakeCreate, n, 0))
  }

  ghost predicate Init(s: State) {
    && (forall t :: 0 <= t < |s.threads| ==> s.threads[t].pc == Idle)
    && !s.createLocked && s.locks == map[] && s.heap == []
  }

  ghost predicate LockStep(s: State, s': State) {
    RefsOk(s) && exists t :: 0 <= t < |s.threads| && Enabled(s, t) && s' == After(s, t)
  }

  ghost predicate BeginStep(s: State, s': State) {
    exists t, n :: 0 <= t < |s.threads| && s.threads[t].pc == Idle && s' == Begin(s, t, n)
  }

  /** The threads that the reference count of order `n` stands for. */
  ghost function Users(s: State, n: TradeNo): set<nat> {
    set t: nat | t < |s.threads| && s.threads[t].tradeNo == n && Counted(s.threads[t].pc)
  }

  // ---------------------------------------------------------------------------
  // The invariant
  // ---------------------------------------------------------------------------

  ghost predicate Creator(s: State, t: int) {
    0 <= t < |s.threads| && InCreate(s.threads[t].pc)
  }

  ghost predicate UserOf(s: State, t: int, n: TradeNo) {
    0 <= t < |s.threads| && s.threads[t].tradeNo == n && Attached(s.threads[t].pc)
  }

  ghost predicate HolderOf(s: State, t: int, n: TradeNo) {
    0 <= t < |s.threads| && s.threads[t].tradeNo == n && InMutex(s.threads[t].pc)
  }

  ghost predicate CreateOk(s: State) {
    && (forall t, u :: Creator(s, t) && Creator(s, u) ==> t == u)
    && (s.createLocked <==> exists t :: Creator(s, t))
  }

  /** All threads with an order's mutex in hand have the same one: the one in the map. */
  ghost predicate SharedOk(s: State) {
    && (forall t, n :: UserOf(s, t, n) ==> n in s.locks && s.locks[n] == s.threads[t].rcm)
    && (forall t :: 0 <= t < |s.threads| && s.threads[t].pc == StoreEntry ==> s.threads[t].tradeNo !in s.locks)
    && (forall m, n :: m in s.locks && n in s.locks && s.locks[m] == s.locks[n] ==> m == n)
  }

  /** The reference count is the number of users, and an order without users has no entry. */
  ghost predicate CountOk(s: State)
    requires RefsOk(s)
  {
    && (forall n :: n in s.locks ==> s.heap[s.locks[n]].refCount == |Users(s, n)|)
    && (forall n :: n in s.locks ==> exists t :: UserOf(s, t, n))
  }

  ghost predicate MutexOk(s: State)
    requires RefsOk(s)
  {
    && (forall t, n :: HolderOf(s, t, n) ==> s.heap[s.threads[t].rcm].locked)
    && (forall t, u, n :: HolderOf(s, t, n) && HolderOf(s, u, n) ==> t == u)
    && (forall n :: n in s.locks && s.heap[s.locks[n]].locked ==> exists t :: HolderOf(s, t, n))
  }

  ghost predicate Inv(s: State) {
    RefsOk(s) && CreateOk(s) && SharedOk(s) && CountOk(s) && MutexOk(s)
  }

  lemma InitInv(s: State)
    requires Init(s)
    ensures Inv(s)
  {
  }

  /** Only thread `t` changes what it counts for. */
  lemma UsersAfterMove(s: State, t: nat, s': State, n: TradeNo)
    requires t < |s.threads| == |s'.threads| && s'.threads == s.threads[t := s'.threads[t]]
    ensures Users(s', n) == Users(s, n) - {t} + (if s'.threads[t].tradeNo == n && Counted(s'.threads[t].pc) then {t}
        else {})
  {
  }

  lemma UsersCardAfterMove(s: State, t: nat, s': State)
    requires t < |s.threads| == |s'.threads| && s'.threads == s.threads[t := s'.threads[t]]
    requires s'.threads[t].tradeNo == s.threads[t].tradeNo
    ensures var n := s.threads[t].tradeNo;
            |Users(s', n)| == |Users(s, n)| - (if Counted(s.threads[t].pc) then 1 else 0)
                              + (if Counted(s'.threads[t].pc) then 1 else 0)
  {
    var n := s.threads[t].tradeNo;
    UsersAfterMove(s, t, s', n);
    assert t in Users(s, n) <==> Counted(s.threads[t].pc);
    assert t in Users(s', n) <==> Counted(s'.threads[t].pc);
    assert Users(s, n) - {t} == Users(s', n) - {t};
    assert |Users(s, n) - {t}| == |Users(s, n)| - (if Counted(s.threads[t].pc) then 1 else 0);
    assert |Users(s', n) - {t}| == |Users(s', n)| - (if Counted(s'.threads[t].pc) then 1 else 0);
  }

  lemma BeginInv(s: State, t: nat, n: TradeNo)
    requires Inv(s) && t < |s.threads| && s.threads[t].pc == Idle
    ensures Inv(Begin(s, t, n))
  {
    var s' := Begin(s, t, n);
    assert forall u :: u != t && 0 <= u < |s.threads| ==> s'.threads[u] == s.threads[u];
    assert forall u :: Creator(s, u) <==> Creator(s', u);
    assert forall u, m :: UserOf(s, u, m) <==> UserOf(s', u, m);
    assert forall u, m :: HolderOf(s, u, m) <==> HolderOf(s', u, m);
    forall m ensures Users(s', m) == Users(s, m) { UsersAfterMove(s, t, s', m); }
  }

  // ---------------------------------------------------------------------------
  // One step, order by order
  // ---------------------------------------------------------------------------

  /** A step of `t` touches no other thread and nothing of any order but its own. */
  ghost predicate Frame(s: State, t: nat, s': State)
    requires t < |s.threads| && RefsOk(s)
  {
    var n := s.threads[t].tradeNo;
    && RefsOk(s')
    && |s'.threads| == |s.threads|
    && s'.threads == s.threads[t := s'.threads[t]]
    && s'.threads[t].tradeNo == n
    && (forall m :: m != n ==> (m in s'.locks <==> m in s.locks))
    && (forall m :: m != n && m in s.locks ==> s'.locks[m] == s.locks[m] && s'.heap[s.locks[m]] == s.heap[s.locks[m]])
  }

  ghost function Count(s: State, n: TradeNo): int
    requires RefsOk(s) && n in s.locks
  {
    s.heap[s.locks[n]].refCount
  }

  ghost predicate Locked(s: State, n: TradeNo)
    requires RefsOk(s) && n in s.locks
  {
    s.heap[s.locks[n]].locked
  }

  /** What a step of `t` does to the entry of its own order. */
  ghost predicate OwnEffect(s: State, t: nat, s': State)
    requires t < |s.threads| && RefsOk(s) && Frame(s, t, s')
  {
    var pc, pc', n := s.threads[t].pc, s'.threads[t].pc, s.threads[t].tradeNo;
    && (n in s'.locks <==> pc.StoreEntry? || (n in s.locks && !(pc.MaybeDelete? && Count(s, n) == 0)))
    && (Attached(pc') ==> n in s'.locks && s'.locks[n] == s'.threads[t].rcm)
    && (n in s'.locks ==>
          if pc.StoreEntry? then s'.locks[n] == |s.heap| && Count(s', n) == 0 && !Locked(s', n)
          else
            && s'.locks[n] == s.locks[n]
            && Count(s', n) == Count(s, n) + (if pc.CountUp? then 1 else if pc.CountDown? then -1 else 0)
            && Locked(s', n) == (pc.TakeMutex? || (Locked(s, n) && !pc.ReleaseMutex?)))
  }

  /** How the program counter of `t` moves, given that its order still has an entry inside the lock. */
  ghost predicate PcEffect(s: State, t: nat, s': State)
    requires t < |s.threads| == |s'.threads|
  {
    var n, pc' := s.threads[t].tradeNo, s'.threads[t].pc;
    match s.threads[t].pc
    case TakeCreate => pc' == LoadEntry && !s.createLocked && s'.createLocked
    case LoadEntry => pc' == (if n in s.locks then CountUp else StoreEntry) && s'.createLocked == s.createLocked
    case StoreEntry => pc' == CountUp && s'.createLocked == s.createLocked
    case CountUp => pc' == DropCreate && s'.createLocked == s.createLocked
    case DropCreate => pc' == TakeMutex && !s'.createLocked
    case TakeMutex => pc' == Inside && s'.createLocked == s.createLocked
    case Inside => pc' == ReleaseMutex && s'.createLocked == s.createLocked
    case ReleaseMutex => pc' == RetakeCreate && s'.createLocked == s.createLocked
    case RetakeCreate => pc' == CountDown && !s.createLocked && s'.createLocked
    case CountDown => pc' == MaybeDelete && s'.createLocked == s.createLocked
    case MaybeDelete => pc' == RedropCreate && s'.createLocked == s.createLocked
    case RedropCreate => pc' == Idle && !s'.createLocked
    case Idle => false
  }

  /** What a step needs to know of the state: its mutex is the one in the map, and no order shares it. */
  ghost predicate Linked(s: State, t: nat) {
    && t < |s.threads| && RefsOk(s)
    && (Attached(s.threads[t].pc) ==>
          s.threads[t].tradeNo in s.locks && s.locks[s.threads[t].tradeNo] == s.threads[t].rcm)
    && (forall m :: m in s.locks && m != s.threads[t].tradeNo && Attached(s.threads[t].pc) ==>
                      s.locks[m] != s.threads[t].rcm)
  }

  lemma StepFrame(s: State, t: nat)
    requires Linked(s, t) && Enabled(s, t)
    ensures Frame(s, t, After(s, t))
  {
  }

  lemma StepOwnEffect(s: State, t: nat)
    requires Linked(s, t) && Enabled(s, t) && Frame(s, t, After(s, t))
    requires s.threads[t].pc.StoreEntry? ==> s.threads[t].tradeNo !in s.locks
    ensures OwnEffect(s, t, After(s, t))
  {
  }

  lemma StepPcEffect(s: State, t: nat)
    requires Linked(s, t) && Enabled(s, t)
    ensures PcEffect(s, t, After(s, t))
  {
  }

  ghost predicate Effect(s: State, t: nat, s': State) {
    && Inv(s) && t < |s.threads|
    && Frame(s, t, s') && OwnEffect(s, t, s') && PcEffect(s, t, s')
    && (s.threads[t].pc.TakeMutex? ==> s.threads[t].tradeNo in s.locks && !Locked(s, s.threads[t].tradeNo))
  }

  lemma StepCreateOk(s: State, t: nat, s': State)
    requires Effect(s, t, s')
    ensures CreateOk(s')
  {
    assert forall u :: u != t ==> (Creator(s, u) <==> Creator(s', u));
    assert Creator(s, t) <==> InCreate(s.threads[t].pc);
    assert Creator(s', t) <==> InCreate(s'.threads[t].pc);
    if s'.createLocked && !Creator(s', t) {
      var u :| Creator(s, u);
      assert Creator(s', u);
    }
  }

  /** An entry whose count has come down to zero has no user left but the thread about to delete it. */
  lemma LastUser(s: State, t: nat, u: nat)
    requires Inv(s) && t < |s.threads| && s.threads[t].pc.MaybeDelete?
    requires s.threads[t].tradeNo in s.locks && Count(s, s.threads[t].tradeNo) == 0
    requires UserOf(s, u, s.threads[t].tradeNo)
    ensures u == t
  {
    assert u !in Users(s, s.threads[t].tradeNo);
    assert Creator(s, u) && Creator(s, t);
  }

  lemma StepSharedOk(s: State, t: nat, s': State)
    requires Effect(s, t, s')
    ensures SharedOk(s')
  {
    var n := s.threads[t].tradeNo;
    forall u, m | UserOf(s', u, m) ensures m in s'.locks && s'.locks[m] == s'.threads[u].rcm {
      if u != t {
        assert UserOf(s, u, m);
        if m == n && s.threads[t].pc.MaybeDelete? && Count(s, n) == 0 { LastUser(s, t, u); }
      }
    }
    forall u | 0 <= u < |s'.threads| && s'.threads[u].pc == StoreEntry ensures s'.threads[u].tradeNo !in s'.locks {
      if u != t && s.threads[t].pc.StoreEntry? { assert Creator(s, u) && Creator(s, t); }
    }
  }

  lemma StepCountOk(s: State, t: nat, s': State)
    requires Effect(s, t, s')
    ensures CountOk(s')
  {
    var n := s.threads[t].tradeNo;
    forall m | m in s'.locks
      ensures Count(s', m) == |Users(s', m)| && exists u :: UserOf(s', u, m)
    {
      UsersAfterMove(s, t, s', m);
      if m == n {
        StepCountOwn(s, t, s');
        StepKeepsUser(s, t, s');
      } else {
        var u :| UserOf(s, u, m);
        assert UserOf(s', u, m);
      }
    }
  }

  lemma StepCountOwn(s: State, t: nat, s': State)
    requires Effect(s, t, s') && s.threads[t].tradeNo in s'.locks
    ensures Count(s', s.threads[t].tradeNo) == |Users(s', s.threads[t].tradeNo)|
  {
    var n := s.threads[t].tradeNo;
    UsersCardAfterMove(s, t, s');
    if s.threads[t].pc.StoreEntry? {
      forall u ensures u !in Users(s, n) { assert u in Users(s, n) ==> UserOf(s, u, n); }
      assert Users(s, n) == {};
    }
  }

  lemma StepKeepsUser(s: State, t: nat, s': State)
    requires Effect(s, t, s') && s.threads[t].tradeNo in s'.locks
    ensures exists u :: UserOf(s', u, s.threads[t].tradeNo)
  {
    var n := s.threads[t].tradeNo;
    if Attached(s'.threads[t].pc) {
      assert UserOf(s', t, n);
    } else if s.threads[t].pc.MaybeDelete? {
      var u :| u in Users(s, n);
      assert UserOf(s', u, n);
    } else {
      var u :| UserOf(s, u, n);
      assert UserOf(s', u, n);
    }
  }

  lemma StepMutexOk(s: State, t: nat, s': State)
    requires Effect(s, t, s') && SharedOk(s')
    ensures MutexOk(s')
  {
    var n := s.threads[t].tradeNo;
    assert InMutex(s.threads[t].pc) <==> HolderOf(s, t, n);
    assert InMutex(s'.threads[t].pc) <==> HolderOf(s', t, n);
    forall u, m | u != t ensures HolderOf(s, u, m) <==> HolderOf(s', u, m) {}
    forall u, m | HolderOf(s', u, m) ensures s'.heap[s'.threads[u].rcm].locked {
      StepHolderLocked(s, t, s', u, m);
    }
    forall u, v, m | HolderOf(s', u, m) && HolderOf(s', v, m) ensures u == v {
      StepHolderUnique(s, t, s', u, v, m);
    }
    forall m | m in s'.locks && Locked(s', m) ensures exists u :: HolderOf(s', u, m) {
      if m != n || !HolderOf(s', t, n) {
        var u :| HolderOf(s, u, m);
        assert HolderOf(s', u, m);
      }
    }
  }

  lemma StepHolderLocked(s: State, t: nat, s': State, u: nat, m: TradeNo)
    requires Effect(s, t, s') && SharedOk(s') && HolderOf(s', u, m)
    ensures s'.heap[s'.threads[u].rcm].locked
  {
    assert UserOf(s', u, m);
    if u != t {
      assert HolderOf(s, u, m) && UserOf(s, u, m);
      assert s.threads[t].pc.ReleaseMutex? ==> HolderOf(s, t, s.threads[t].tradeNo);
    } else if s.threads[t].pc.Inside? {
      assert HolderOf(s, t, m) && UserOf(s, t, m);
    }
  }

  lemma StepHolderUnique(s: State, t: nat, s': State, u: nat, v: nat, m: TradeNo)
    requires Effect(s, t, s') && HolderOf(s', u, m) && HolderOf(s', v, m)
    ensures u == v
  {
    if u != t { assert HolderOf(s, u, m) && UserOf(s, u, m); }
    if v != t { assert HolderOf(s, v, m) && UserOf(s, v, m); }
    assert s.threads[t].pc.Inside? ==> HolderOf(s, t, s.threads[t].tradeNo);
  }

  lemma StepInv(s: State, t: nat)
    requires Inv(s) && t < |s.threads| && Enabled(s, t)
    ensures Inv(After(s, t))
  {
    assert Attached(s.threads[t].pc) ==> UserOf(s, t, s.threads[t].tradeNo);
    StepFrame(s, t);
    StepOwnEffect(s, t);
    StepPcEffect(s, t);
    StepCreateOk(s, t, After(s, t));
    StepSharedOk(s, t, After(s, t));
    StepCountOk(s, t, After(s, t));
    StepMutexOk(s, t, After(s, t));
  }

  // ---------------------------------------------------------------------------
  // What holds in every interleaving
  // ---------------------------------------------------------------------------

  /** Mutual exclusion, and the unlocked lookup of UnlockOrder finds the very mutex the thread locked. */
  lemma MutualExclusion(s: State)
    requires Inv(s)
    ensures forall t, u | 0 <= t < |s.threads| && 0 <= u < |s.threads| && InMutex(s.threads[t].pc)
                          && InMutex(s.threads[u].pc) && s.threads[t].tradeNo == s.threads[u].tradeNo :: t == u
    ensures forall t :: 0 <= t < |s.threads| && s.threads[t].pc == Inside ==>
              s.threads[t].tradeNo in s.locks && s.locks[s.threads[t].tradeNo] == s.threads[t].rcm
    ensures forall t :: 0 <= t < |s.threads| ==> !Crashes(s, t)
  {
    forall t, u | 0 <= t < |s.threads| && 0 <= u < |s.threads| && InMutex(s.threads[t].pc)
      && InMutex(s.threads[u].pc) && s.threads[t].tradeNo == s.threads[u].tradeNo
      ensures t == u
    {
      assert HolderOf(s, t, s.threads[t].tradeNo) && HolderOf(s, u, s.threads[t].tradeNo);
    }
    forall t | 0 <= t < |s.threads| ensures !Crashes(s, t) && (s.threads[t].pc == Inside ==>
              s.threads[t].tradeNo in s.locks && s.locks[s.threads[t].tradeNo] == s.threads[t].rcm) {
      assert Attached(s.threads[t].pc) ==> UserOf(s, t, s.threads[t].tradeNo);
      assert InCreate(s.threads[t].pc) ==> Creator(s, t);
      assert InMutex(s.threads[t].pc) ==> HolderOf(s, t, s.threads[t].tradeNo);
    }
  }

  /** While some handler is between LockOrder and the end of UnlockOrder, some such handler can move. */
  lemma NoDeadlock(s: State, t: nat) returns (u: nat)
    requires Inv(s) && t < |s.threads| && s.threads[t].pc != Idle
    ensures u < |s.threads| && Enabled(s, u)
  {
    if s.createLocked {
      u :| Creator(s, u);
    } else if Enabled(s, t) {
      u := t;
    } else {
      assert UserOf(s, t, s.threads[t].tradeNo);
      u :| HolderOf(s, u, s.threads[t].tradeNo);
    }
  }

  /** The map holds exactly the orders with a handler that counts for them or is about to. */
  lemma EntriesAreInFlight(s: State)
    requires Inv(s)
    ensures forall n :: n in s.locks <==> exists t :: UserOf(s, t, n)
    ensures (forall t :: 0 <= t < |s.threads| ==> s.threads[t].pc == Idle) ==> s.locks == map[] && !s.createLocked
  {
    if forall t :: 0 <= t < |s.threads| ==> s.threads[t].pc == Idle {
      forall n ensures n !in s.locks {}
      assert s.locks.Keys == {};
    }
  }

  ghost predicate Next(s: State, s': State) {
    LockStep(s, s') || BeginStep(s, s')
  }

  /** A run of any length of any number of threads, interleaved in any order. */
  ghost predicate IsRun(run: seq<State>) {
    |run| > 0 && Init(run[0]) && forall i :: 0 <= i < |run| - 1 ==> Next(run[i], run[i + 1])
  }

  lemma {:induction false} RunsKeepInv(run: seq<State>)
    requires IsRun(run)
    ensures Inv(run[|run| - 1])
  {
    if |run| == 1 {
      InitInv(run[0]);
    } else {
      var k := |run| - 2;
      RunsKeepInv(run[..k + 1]);
      var s, s' := run[k], run[k + 1];
      assert Next(s, s');
      if BeginStep(s, s') {
        var t, n :| 0 <= t < |s.threads| && s.threads[t].pc == Idle && s' == Begin(s, t, n);
        BeginInv(s, t, n);
      } else {
        var t :| 0 <= t < |s.threads| && Enabled(s, t) && s' == After(s, t);
        StepInv(s, t);
      }
    }
  }

  // ---------------------------------------------------------------------------
  // Draining
  // ---------------------------------------------------------------------------

  /** Accesses a thread still has to make before it is idle again. */
  function Remaining(pc: Pc): nat {
    match pc
    case Idle => 0
    case TakeCreate => 12
    case LoadEntry => 11
    case StoreEntry => 10
    case CountUp => 9
    case DropCreate => 8
    case TakeMutex => 7
    case Inside => 6
    case ReleaseMutex => 5
    case RetakeCreate => 4
    case CountDown => 3
    case MaybeDelete => 2
    case RedropCreate => 1
  }

  function TotalRemaining(ts: seq<Thread>): nat {
    if ts == [] then 0 else Remaining(ts[0].pc) + TotalRemaining(ts[1..])
  }

  lemma {:induction false} TotalAfterMove(ts: seq<Thread>, t: nat, th: Thread)
    requires t < |ts|
    ensures TotalRemaining(ts[t := th]) == TotalRemaining(ts) - Remaining(ts[t].pc) + Remaining(th.pc)
  {
    if t == 0 {
      assert ts[t := th][1..] == ts[1..];
    } else {
      assert ts[t := th][1..] == ts[1..][t - 1 := th];
      TotalAfterMove(ts[1..], t - 1, th);
    }
  }

  lemma StepProgress(s: State, t: nat)
    requires Inv(s) && t < |s.threads| && Enabled(s, t)
    ensures TotalRemaining(After(s, t).threads) < TotalRemaining(s.threads)
  {
    assert Attached(s.threads[t].pc) ==> UserOf(s, t, s.threads[t].tradeNo);
    StepFrame(s, t);
    StepPcEffect(s, t);
    MoveProgress(s, t, After(s, t));
  }

  lemma MoveProgress(s: State, t: nat, s': State)
    requires t < |s.threads| == |s'.threads| && s'.threads == s.threads[t := s'.threads[t]] && PcEffect(s, t, s')
    ensures TotalRemaining(s'.threads) < TotalRemaining(s.threads)
  {
    TotalAfterMove(s.threads, t, s'.threads[t]);
  }

  /** A run in which no further handler calls LockOrder. */
  ghost predicate IsDrain(run: seq<State>) {
    |run| > 0 && Inv(run[0]) && forall i :: 0 <= i < |run| - 1 ==> LockStep(run[i], run[i + 1])
  }

  /**
   However the threads are scheduled, without new calls the protocol comes to rest after at most
   as many accesses as were outstanding, and it can only rest with every thread idle and no entry
   left in the map.
   */
  lemma {:induction false} Drains(run: seq<State>)
    requires IsDrain(run)
    ensures |run| - 1 <= TotalRemaining(run[0].threads)
    ensures var s := run[|run| - 1];
            && Inv(s)
            && ((forall t :: 0 <= t < |s.threads| ==> !Enabled(s, t)) ==>
                  s.locks == map[] && forall t :: 0 <= t < |s.threads| ==> s.threads[t].pc == Idle)
    decreases |run|
  {
    if |run| == 1 {
      var s := run[0];
      if t :| 0 <= t < |s.threads| && s.threads[t].pc != Idle {
        var u := NoDeadlock(s, t);
      } else {
        EntriesAreInFlight(s);
      }
    } else {
      assert LockStep(run[0], run[1]);
      var t :| 0 <= t < |run[0].threads| && Enabled(run[0], t) && run[1] == After(run[0], t);
      StepInv(run[0], t);
      StepProgress(run[0], t);
      forall i | 0 <= i < |run[1..]| - 1 ensures LockStep(run[1..][i], run[1..][i + 1]) {
        assert LockStep(run[i + 1], run[i + 1 + 1]);
      }
      Drains(run[1..]);
    }
  }
}
