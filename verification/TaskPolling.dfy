/**
 Any number of pollers, on any number of machines, finishing the same task, while its owner may look at it.
 Each works on its own copy of the row. A poller's write asks for the status the copy was read with, and
 comes with a bill when it ends the task. Two kinds of write come without one: a poller that cannot find the
 channel, or the id of the task upstream, marks the task failed without asking; and an owner's look at a task
 of some providers writes down whatever the upstream says, for ended tasks too, asking for the status it read.
 */
module TaskPolling {
  import opened Numbers
  import opened Options
  import opened VideoTask

  predicate Done(s: Status) {
    s == Success || s == Failure
  }

  datatype Worker =
    | Idle
    | Loaded(snapshot: Status, copy: int)
    | Billing(outcome: Status, copy: int)
    | Looking(snapshot: Status, copy: int)

  /**
   The row, the money and the workers; how often a bill was won, how many refunds were paid, how often a task
   that had ended ran again and how often one ended without a bill; and whether a write was lost after money
   was due.
   */
  datatype State = State(
    status: Status, quota: int, paid: int, workers: seq<Worker>,
    wins: nat, refunds: nat, revivals: nat, silentEnds: nat, lost: bool)

  datatype Action =
    | Load
    | Report(status: Option<Status>, changed: bool, writeOk: bool)
    | Bill(actual: int, moveOk: bool, recordOk: bool)
    | Strike(asks: bool, writeOk: bool)
    | Look
    | Show(seen: Option<Status>, changed: bool, writeOk: bool)

  function Goes(s: State, i: nat, w: Worker): State
    requires i < |s.workers|
  {
    s.(workers := s.workers[i := w])
  }

  /** The row is overwritten without a bill: by a copy with a new status, or by a bare status. */
  function Overwritten(s: State, i: nat, status: Status, quota: int): State
    requires i < |s.workers|
  {
    Goes(s, i, Idle).(status := status, quota := quota,
                      revivals := if Done(s.status) && !Done(status) then s.revivals + 1 else s.revivals,
                      silentEnds := if !Done(s.status) && Done(status) then s.silentEnds + 1 else s.silentEnds)
  }

  /** Writing a poller's copy back; `guarded` says whether the write asks for the status the copy was read with. */
  function WriteBack(s: State, i: nat, status: Status, guarded: bool): State
    requires i < |s.workers| && s.workers[i].Loaded?
  {
    var p := s.workers[i];
    if guarded && s.status != p.snapshot then Goes(s, i, Idle)
    else if Done(status) && status != p.snapshot
    then Goes(s, i, Billing(status, p.copy)).(status := status, quota := p.copy, wins := s.wins + 1)
    else Overwritten(s, i, status, p.copy)
  }

  /** The winner settles a success to the actual quota, if there is one, and refunds a failure. */
  function Billed(s: State, i: nat, a: Action): State
    requires i < |s.workers| && s.workers[i].Billing? && a.Bill?
  {
    var p, s' := s.workers[i], Goes(s, i, Idle);
    if p.outcome == Success then
      if a.actual <= 0 || a.actual == p.copy || !a.moveOk then s'
      else if a.recordOk then s'.(paid := s.paid + a.actual - p.copy, quota := a.actual)
      else s'.(paid := s.paid + a.actual - p.copy, lost := true)
    else if p.copy == 0 then s'
    else if a.moveOk then s'.(paid := s.paid - p.copy, refunds := s.refunds + 1)
    else s'.(lost := true)
  }

  /** The poller fails the task without a bill; the sweep of very old tasks asks for the status, the others do not. */
  predicate Strikes(s: State, i: nat, a: Action) {
    && i < |s.workers| && s.workers[i].Loaded? && a.Strike? && a.writeOk
    && (a.asks ==> s.status == s.workers[i].snapshot)
  }

  /** The status an owner's look writes down. */
  function Seen(w: Worker, a: Action): Status
    requires w.Looking? && a.Show?
  {
    if a.seen.Some? then a.seen.value else w.snapshot
  }

  /** The look differs from the row it read, and the row still has that status. */
  predicate Shows(s: State, i: nat, a: Action) {
    && i < |s.workers| && s.workers[i].Looking? && a.Show? && a.writeOk && s.status == s.workers[i].snapshot
    && (Seen(s.workers[i], a) != s.workers[i].snapshot || a.changed)
  }

  /** One step of worker `i`; a step that does not fit where the worker is changes nothing. */
  function Next(s: State, i: nat, a: Action, guarded: bool): State
    requires i < |s.workers|
  {
    match (s.workers[i], a)
    case (Idle, Load) => if Done(s.status) then s else Goes(s, i, Loaded(s.status, s.quota))
    case (Idle, Look) => Goes(s, i, Looking(s.status, s.quota))
    case (Loaded(snapshot, _), Report(status, changed, writeOk)) =>
      if status == None || !writeOk || (status.value == snapshot && !changed) then Goes(s, i, Idle)
      else WriteBack(s, i, status.value, guarded)
    case (Billing(_, _), Bill(_, _, _)) => Billed(s, i, a)
    case (Loaded(_, _), Strike(_, _)) =>
      if Strikes(s, i, a) then Overwritten(s, i, Failure, s.quota) else Goes(s, i, Idle)
    case (Looking(_, copy), Show(_, _, _)) =>
      if Shows(s, i, a) then Overwritten(s, i, Seen(s.workers[i], a), copy) else Goes(s, i, Idle)
    case _ => s
  }

  function Start(quota: int, n: nat): State {
    State(NotStart, quota, quota, seq(n, _ => Idle), 0, 0, 0, 0, false)
  }

  /** A schedule: who moves, and how. Moves of workers that do not exist change nothing. */
  type Schedule = seq<(nat, Action)>

  function Moved(s: State, move: (nat, Action), guarded: bool): State {
    if move.0 < |s.workers| then Next(s, move.0, move.1, guarded) else s
  }

  function Run(s: State, schedule: Schedule, guarded: bool): State
    decreases |schedule|
  {
    if schedule == [] then s else Run(Moved(s, schedule[0], guarded), schedule[1..], guarded)
  }

  /** The state after the first `k` moves. */
  function After(s: State, schedule: Schedule, k: nat): State
    requires k <= |schedule|
  {
    if k == 0 then s else Moved(After(s, schedule, k - 1), schedule[k - 1], true)
  }

  lemma {:induction false} RunIsAfter(s: State, schedule: Schedule)
    ensures Run(s, schedule, true) == After(s, schedule, |schedule|)
    decreases |schedule|
  {
    if schedule != [] {
      var s1, rest := Moved(s, schedule[0], true), schedule[1..];
      RunIsAfter(s1, rest);
      assert After(s, schedule, |schedule|) == After(s1, rest, |rest|) by { AfterCons(s, schedule, |schedule|); }
    }
  }

  lemma {:induction false} AfterCons(s: State, schedule: Schedule, k: nat)
    requires 0 < k <= |schedule|
    ensures After(s, schedule, k) == After(Moved(s, schedule[0], true), schedule[1..], k - 1)
  {
    if k > 1 { AfterCons(s, schedule, k - 1); }
  }

  // ---------------------------------------------------------------------------
  // How often a task is billed
  // ---------------------------------------------------------------------------

  function Pending(workers: seq<Worker>): nat {
    if workers == [] then 0
    else Pending(workers[..|workers| - 1]) + if workers[|workers| - 1].Billing? then 1 else 0
  }

  lemma {:induction false} PendingUpdate(workers: seq<Worker>, i: nat, w: Worker)
    requires i < |workers|
    ensures Pending(workers[i := w]) ==
            Pending(workers) - (if workers[i].Billing? then 1 else 0) + (if w.Billing? then 1 else 0)
    ensures workers[i].Billing? ==> Pending(workers) >= 1
  {
    var n := |workers| - 1;
    if i < n {
      PendingUpdate(workers[..n], i, w);
      assert workers[i := w][..n] == workers[..n][i := w];
    } else {
      assert workers[i := w][..n] == workers[..n];
    }
  }

  /**
   Pollers only load tasks that run; every end is a bill won or a silent one, every revival follows an end;
   and a refund is a bill that was won and is not pending any more.
   */
  ghost predicate Counted(s: State) {
    && (forall i :: 0 <= i < |s.workers| && s.workers[i].Loaded? ==> !Done(s.workers[i].snapshot))
    && s.wins + s.silentEnds == s.revivals + (if Done(s.status) then 1 else 0)
    && s.refunds + Pending(s.workers) <= s.wins
  }

  lemma GoesCounted(s: State, i: nat, w: Worker)
    requires Counted(s) && i < |s.workers| && !w.Billing? && !s.workers[i].Billing?
    requires w.Loaded? ==> !Done(w.snapshot)
    ensures Counted(Goes(s, i, w))
  {
    PendingUpdate(s.workers, i, w);
  }

  lemma OverwrittenCounted(s: State, i: nat, status: Status, quota: int)
    requires Counted(s) && i < |s.workers| && !s.workers[i].Billing?
    ensures Counted(Overwritten(s, i, status, quota))
  {
    GoesCounted(s, i, Idle);
  }

  lemma WriteBackCounted(s: State, i: nat, status: Status)
    requires Counted(s) && i < |s.workers| && s.workers[i].Loaded?
    ensures Counted(WriteBack(s, i, status, true))
  {
    var p := s.workers[i];
    PendingUpdate(s.workers, i, Billing(status, p.copy));
    GoesCounted(s, i, Idle);
    OverwrittenCounted(s, i, status, p.copy);
  }

  lemma NextCounted(s: State, i: nat, a: Action)
    requires Counted(s) && i < |s.workers|
    ensures Counted(Next(s, i, a, true))
  {
    if !s.workers[i].Billing? { GoesCounted(s, i, Idle); }
    match (s.workers[i], a)
    case (Idle, Load) => if !Done(s.status) { GoesCounted(s, i, Loaded(s.status, s.quota)); }
    case (Idle, Look) => GoesCounted(s, i, Looking(s.status, s.quota));
    case (Loaded(_, _), Report(status, _, _)) => if status.Some? { WriteBackCounted(s, i, status.value); }
    case (Billing(_, _), Bill(_, _, _)) => PendingUpdate(s.workers, i, Idle);
    case (Loaded(_, _), Strike(_, _)) => OverwrittenCounted(s, i, Failure, s.quota);
    case (Looking(_, copy), Show(_, _, _)) => OverwrittenCounted(s, i, Seen(s.workers[i], a), copy);
    case _ =>
  }

  lemma {:induction false} NonePending(n: nat)
    ensures Pending(seq(n, _ => Idle)) == 0
  {
    if n > 0 {
      NonePending(n - 1);
      assert seq(n, _ => Idle)[..n - 1] == seq(n - 1, _ => Idle);
    }
  }

  lemma {:induction false} AfterCounted(s: State, schedule: Schedule, k: nat)
    requires Counted(s) && k <= |schedule|
    ensures Counted(After(s, schedule, k))
  {
    if k > 0 {
      AfterCounted(s, schedule, k - 1);
      var s1, move := After(s, schedule, k - 1), schedule[k - 1];
      if move.0 < |s1.workers| { NextCounted(s1, move.0, move.1); }
    }
  }

  /** The move takes an ended task back to a running one; only a look can. */
  predicate Revives(s: State, i: nat, a: Action) {
    Shows(s, i, a) && Done(s.status) && !Done(Seen(s.workers[i], a))
  }

  /** The move ends a running task without a bill: it is struck, or an owner is the first to see its end. */
  predicate EndsUnbilled(s: State, i: nat, a: Action) {
    !Done(s.status) && (Strikes(s, i, a) || (Shows(s, i, a) && Done(Seen(s.workers[i], a))))
  }

  /** How many of the first `k` moves revive the task. */
  function Revivals(s: State, schedule: Schedule, k: nat): nat
    requires k <= |schedule|
  {
    if k == 0 then 0
    else Revivals(s, schedule, k - 1) +
         if Revives(After(s, schedule, k - 1), schedule[k - 1].0, schedule[k - 1].1) then 1 else 0
  }

  /** How many of the first `k` moves end the task without a bill. */
  function UnbilledEnds(s: State, schedule: Schedule, k: nat): nat
    requires k <= |schedule|
  {
    if k == 0 then 0
    else UnbilledEnds(s, schedule, k - 1) +
         if EndsUnbilled(After(s, schedule, k - 1), schedule[k - 1].0, schedule[k - 1].1) then 1 else 0
  }

  lemma NextCounts(s: State, i: nat, a: Action)
    requires Counted(s)
    ensures var s' := Moved(s, (i, a), true);
            && s'.revivals == s.revivals + (if Revives(s, i, a) then 1 else 0)
            && s'.silentEnds == s.silentEnds + (if EndsUnbilled(s, i, a) then 1 else 0)
  {
  }

  lemma {:induction false} AfterCounts(s: State, schedule: Schedule, k: nat)
    requires Counted(s) && k <= |schedule|
    ensures After(s, schedule, k).revivals == s.revivals + Revivals(s, schedule, k)
    ensures After(s, schedule, k).silentEnds == s.silentEnds + UnbilledEnds(s, schedule, k)
  {
    if k > 0 {
      AfterCounts(s, schedule, k - 1);
      AfterCounted(s, schedule, k - 1);
      NextCounts(After(s, schedule, k - 1), schedule[k - 1].0, schedule[k - 1].1);
    }
  }

  /**
   In every interleaving the number of bills is one for every move that revives the task, and one more once
   it has ended, less the moves that end it without a bill; refunds are no more than that. So it is billed at
   most once exactly when the ends without a bill make up for the revivals.
   */
  lemma BillsAre(quota: int, n: nat, schedule: Schedule)
    ensures var s0 := Start(quota, n); var s := Run(s0, schedule, true);
            var revivals := Revivals(s0, schedule, |schedule|); var unbilled := UnbilledEnds(s0, schedule, |schedule|);
            && s.wins == revivals + (if Done(s.status) then 1 else 0) - unbilled
            && s.refunds <= s.wins <= revivals + 1
            && (s.wins <= 1 <==> revivals + (if Done(s.status) then 1 else 0) <= unbilled + 1)
  {
    NonePending(n);
    RunIsAfter(Start(quota, n), schedule);
    AfterCounted(Start(quota, n), schedule, |schedule|);
    AfterCounts(Start(quota, n), schedule, |schedule|);
  }

  // ---------------------------------------------------------------------------
  // When the books balance
  // ---------------------------------------------------------------------------

  function Owed(status: Status, quota: int): int {
    if status == Failure then 0 else quota
  }

  ghost predicate Quiet(s: State) {
    forall i :: 0 <= i < |s.workers| ==> !s.workers[i].Billing?
  }

  ghost predicate OneBill(s: State) {
    forall i, j :: 0 <= i < j < |s.workers| ==> !(s.workers[i].Billing? && s.workers[j].Billing?)
  }

  /** A bill in hand is for the end on record, and nothing has been moved yet. */
  ghost predicate BillFits(s: State, w: Worker) {
    w.Billing? ==> Done(s.status) && w.outcome == s.status && w.copy == s.quota == s.paid
  }

  /** At most one bill is in hand, and it fits; and with none in hand the user has paid what is owed. */
  ghost predicate InOrder(s: State) {
    && OneBill(s) && (forall i :: 0 <= i < |s.workers| ==> BillFits(s, s.workers[i]))
    && (Quiet(s) ==> Balanced(Ledger(s.status, s.quota, s.paid)))
  }

  /** A bill whose write was lost: the new quota of a success, or the refund of a failure. */
  predicate LosesBill(w: Worker, a: Action)
    requires w.Billing? && a.Bill?
  {
    if w.outcome == Success then a.actual > 0 && a.actual != w.copy && a.moveOk && !a.recordOk
    else w.copy != 0 && !a.moveOk
  }

  /** A poller's write goes through. */
  predicate Writes(s: State, i: nat, a: Action) {
    && i < |s.workers| && s.workers[i].Loaded? && a.Report? && a.status.Some? && a.writeOk
    && s.status == s.workers[i].snapshot && (a.status.value != s.workers[i].snapshot || a.changed)
  }

  /**
   What keeps the books in order. A poller's write must carry the quota on record and a bill must not be
   lost. A write without a bill must leave what is owed as it is; and while a bill is in hand, the row.
   */
  ghost predicate Harmless(s: State, i: nat, a: Action)
    requires i < |s.workers|
  {
    var w := s.workers[i];
    && (Writes(s, i, a) ==> w.copy == s.quota)
    && (w.Billing? && a.Bill? ==> !LosesBill(w, a))
    && (Strikes(s, i, a) && s.status != Failure ==> Quiet(s) && s.quota == 0)
    && (Shows(s, i, a) ==>
          if Quiet(s) then Owed(Seen(w, a), w.copy) == Owed(s.status, s.quota)
          else Seen(w, a) == s.status && w.copy == s.quota)
  }

  lemma OthersStay(s: State, i: nat, s': State)
    requires i < |s.workers| && |s'.workers| == |s.workers| && s'.workers == s.workers[i := s'.workers[i]]
    ensures forall k :: 0 <= k < |s.workers| && k != i ==> s'.workers[k] == s.workers[k]
    ensures !s.workers[i].Billing? && !s'.workers[i].Billing? ==>
              (Quiet(s') <==> Quiet(s)) && (OneBill(s') <==> OneBill(s))
    ensures s.workers[i].Billing? && !s'.workers[i].Billing? && OneBill(s) ==> Quiet(s') && OneBill(s')
    ensures Quiet(s) && s'.workers[i].Billing? ==> !Quiet(s') && OneBill(s')
  {
    assert forall k :: 0 <= k < |s.workers| && k != i ==> s'.workers[k] == s.workers[k];
    if Quiet(s') && !s.workers[i].Billing? {
      forall k | 0 <= k < |s.workers| ensures !s.workers[k].Billing? {
        assert k == i || s'.workers[k] == s.workers[k];
      }
    }
  }

  /** A worker that picks up or lays down something other than a bill changes nothing. */
  lemma GoesInOrder(s: State, i: nat, w: Worker)
    requires i < |s.workers| && !s.workers[i].Billing? && !w.Billing? && InOrder(s)
    ensures InOrder(Goes(s, i, w))
  {
    OthersStay(s, i, Goes(s, i, w));
  }

  lemma OverwrittenIff(s: State, i: nat, status: Status, quota: int)
    requires InOrder(s) && i < |s.workers| && !s.workers[i].Billing?
    ensures InOrder(Overwritten(s, i, status, quota)) <==>
              if Quiet(s) then Owed(status, quota) == Owed(s.status, s.quota)
              else status == s.status && quota == s.quota
  {
    var s' := Overwritten(s, i, status, quota);
    OthersStay(s, i, s');
    if !Quiet(s) {
      var k :| 0 <= k < |s.workers| && s.workers[k].Billing?;
      assert BillFits(s, s.workers[k]) && s'.workers[k] == s.workers[k];
      assert BillFits(s', s'.workers[k]) <==> status == s.status && quota == s.quota;
    }
  }

  lemma WritesIff(s: State, i: nat, a: Action)
    requires Counted(s) && InOrder(s) && Writes(s, i, a)
    ensures InOrder(Next(s, i, a, true)) <==> s.workers[i].copy == s.quota
  {
    var s', p := Next(s, i, a, true), s.workers[i];
    assert Quiet(s) by {
      forall k | 0 <= k < |s.workers| ensures !s.workers[k].Billing? { assert BillFits(s, s.workers[k]); }
    }
    if Done(a.status.value) {
      OthersStay(s, i, s');
      assert BillFits(s', s'.workers[i]) <==> p.copy == s.quota;
    } else {
      OverwrittenIff(s, i, a.status.value, p.copy);
    }
  }

  lemma BilledIff(s: State, i: nat, a: Action)
    requires InOrder(s) && i < |s.workers| && s.workers[i].Billing? && a.Bill?
    ensures InOrder(Billed(s, i, a)) <==> !LosesBill(s.workers[i], a)
  {
    OthersStay(s, i, Billed(s, i, a));
    assert BillFits(s, s.workers[i]);
  }

  /** From books in order, a step keeps them in order exactly when it is harmless. */
  lemma InOrderIff(s: State, i: nat, a: Action)
    requires Counted(s) && InOrder(s) && i < |s.workers|
    ensures InOrder(Next(s, i, a, true)) <==> Harmless(s, i, a)
  {
    match (s.workers[i], a)
    case (Idle, Load) => GoesInOrder(s, i, Loaded(s.status, s.quota));
    case (Idle, Look) => GoesInOrder(s, i, Looking(s.status, s.quota));
    case (Loaded(_, _), Report(_, _, _)) => if Writes(s, i, a) { WritesIff(s, i, a); } else { GoesInOrder(s, i, Idle); }
    case (Billing(_, _), Bill(_, _, _)) => BilledIff(s, i, a);
    case (Loaded(_, _), Strike(_, _)) =>
      if Strikes(s, i, a) { OverwrittenIff(s, i, Failure, s.quota); } else { GoesInOrder(s, i, Idle); }
      if s.status == Failure { assert Overwritten(s, i, Failure, s.quota).status == s.status; }
    case (Looking(_, copy), Show(_, _, _)) =>
      if Shows(s, i, a) { OverwrittenIff(s, i, Seen(s.workers[i], a), copy); } else { GoesInOrder(s, i, Idle); }
    case _ =>
  }

  ghost predicate InOrderAfter(s: State, schedule: Schedule, k: nat)
    requires k <= |schedule|
  {
    InOrder(After(s, schedule, k))
  }

  ghost predicate HarmlessAt(s: State, schedule: Schedule, k: nat)
    requires k < |schedule|
  {
    var s1, move := After(s, schedule, k), schedule[k];
    move.0 < |s1.workers| ==> Harmless(s1, move.0, move.1)
  }

  lemma StartInOrder(quota: int, n: nat)
    ensures Counted(Start(quota, n)) && InOrder(Start(quota, n))
  {
    NonePending(n);
  }

  /**
   In every interleaving of any number of pollers and owners, the books are in order after every move exactly
   when every move is harmless where it comes: no bill is lost, no poller writes back an old quota, and no
   write without a bill changes what is owed, or the row a bill in hand is for.
   */
  lemma InOrderThroughoutIff(quota: int, n: nat, schedule: Schedule, k: nat)
    requires k <= |schedule|
    ensures (forall m: nat :: m <= k ==> InOrderAfter(Start(quota, n), schedule, m)) <==>
            forall m: nat :: m < k ==> HarmlessAt(Start(quota, n), schedule, m)
  {
    var s := Start(quota, n);
    StartInOrder(quota, n);
    var good := (m: nat) => m <= |schedule| && InOrderAfter(s, schedule, m);
    var fine := (m: nat) => m < |schedule| && HarmlessAt(s, schedule, m);
    forall m: nat | m < k && good(m) ensures good(m + 1) <==> fine(m) {
      AfterCounted(s, schedule, m);
      var s1, move := After(s, schedule, m), schedule[m];
      if move.0 < |s1.workers| { InOrderIff(s1, move.0, move.1); }
    }
    StepsIff(good, fine, k);
    assert forall m: nat :: m <= k ==> (good(m) <==> InOrderAfter(s, schedule, m));
    assert forall m: nat :: m < k ==> (fine(m) <==> HarmlessAt(s, schedule, m));
  }

  // ---------------------------------------------------------------------------
  // When an end is final
  // ---------------------------------------------------------------------------

  /** The move gives an ended task another status: a success is struck, or a look sees something else. */
  predicate Overturns(s: State, i: nat, a: Action) {
    (Strikes(s, i, a) && s.status != Failure) || (Shows(s, i, a) && Seen(s.workers[i], a) != s.status)
  }

  ghost predicate HasStatus(s: State, schedule: Schedule, k: nat, status: Status)
    requires k <= |schedule|
  {
    After(s, schedule, k).status == status
  }

  ghost predicate OverturnsAt(s: State, schedule: Schedule, k: nat)
    requires k < |schedule|
  {
    Overturns(After(s, schedule, k), schedule[k].0, schedule[k].1)
  }

  lemma StatusChangesIff(s: State, i: nat, a: Action)
    requires Counted(s) && Done(s.status) && i < |s.workers|
    ensures Next(s, i, a, true).status == s.status <==> !Overturns(s, i, a)
  {
  }

  /** An ended task keeps its status throughout exactly when no move overturns it. */
  lemma EndIsFinalIff(s: State, schedule: Schedule, k: nat)
    requires Counted(s) && Done(s.status) && k <= |schedule|
    ensures (forall m: nat :: m <= k ==> HasStatus(s, schedule, m, s.status)) <==>
            forall m: nat :: m < k ==> !OverturnsAt(s, schedule, m)
  {
    var good := (m: nat) => m <= |schedule| && HasStatus(s, schedule, m, s.status);
    var fine := (m: nat) => m < |schedule| && !OverturnsAt(s, schedule, m);
    forall m: nat | m < k && good(m) ensures good(m + 1) <==> fine(m) {
      AfterCounted(s, schedule, m);
      var s1, move := After(s, schedule, m), schedule[m];
      if move.0 < |s1.workers| { StatusChangesIff(s1, move.0, move.1); }
    }
    StepsIff(good, fine, k);
    assert forall m: nat :: m <= k ==> (good(m) <==> HasStatus(s, schedule, m, s.status));
    assert forall m: nat :: m < k ==> (fine(m) <==> !OverturnsAt(s, schedule, m));
  }

  // ---------------------------------------------------------------------------
  // Pollers by themselves
  // ---------------------------------------------------------------------------

  /** No task is struck, no look that goes through begins or ends at an ended status, and no bill is lost. */
  predicate Undisturbed(s: State, i: nat, a: Action) {
    && !Strikes(s, i, a)
    && (Shows(s, i, a) ==> !Done(s.status) && !Done(Seen(s.workers[i], a)))
    && (i < |s.workers| && s.workers[i].Billing? && a.Bill? ==> !LosesBill(s.workers[i], a))
  }

  /** While the task runs, every copy of the running task has the quota on record. */
  ghost predicate Fresh(s: State) {
    !Done(s.status) ==> forall i :: 0 <= i < |s.workers| ==>
      (s.workers[i].Loaded? || s.workers[i].Looking?) && !Done(s.workers[i].snapshot) ==> s.workers[i].copy == s.quota
  }

  lemma UndisturbedStep(s: State, i: nat, a: Action)
    requires Counted(s) && InOrder(s) && Fresh(s) && i < |s.workers| && Undisturbed(s, i, a)
    ensures Harmless(s, i, a) && Fresh(Next(s, i, a, true))
    ensures Done(s.status) ==> Next(s, i, a, true).status == s.status
    ensures Next(s, i, a, true).revivals == s.revivals && Next(s, i, a, true).silentEnds == s.silentEnds
  {
    var s' := Next(s, i, a, true);
    assert forall k :: 0 <= k < |s.workers| && k != i ==> s'.workers[k] == s.workers[k];
    assert BillFits(s, s.workers[i]);
    if Shows(s, i, a) {
      assert Quiet(s) by {
        forall k | 0 <= k < |s.workers| ensures !s.workers[k].Billing? { assert BillFits(s, s.workers[k]); }
      }
    }
  }

  ghost predicate AllUndisturbed(s: State, schedule: Schedule) {
    forall k: nat :: k < |schedule| ==> UndisturbedAt(s, schedule, k)
  }

  ghost predicate UndisturbedAt(s: State, schedule: Schedule, k: nat)
    requires k < |schedule|
  {
    Undisturbed(After(s, schedule, k), schedule[k].0, schedule[k].1)
  }

  lemma {:induction false} UndisturbedAfter(quota: int, n: nat, schedule: Schedule, k: nat)
    requires AllUndisturbed(Start(quota, n), schedule) && k <= |schedule|
    ensures var s := After(Start(quota, n), schedule, k);
            Counted(s) && InOrder(s) && Fresh(s) && s.revivals == s.silentEnds == 0
  {
    StartInOrder(quota, n);
    if k > 0 {
      UndisturbedAfter(quota, n, schedule, k - 1);
      var s, move := After(Start(quota, n), schedule, k - 1), schedule[k - 1];
      assert UndisturbedAt(Start(quota, n), schedule, k - 1);
      if move.0 < |s.workers| {
        UndisturbedStep(s, move.0, move.1);
        InOrderIff(s, move.0, move.1);
        NextCounted(s, move.0, move.1);
      }
    }
  }

  /**
   Left to the pollers, with no bill lost, a task is billed exactly once when it ends and not before; until
   then the user has paid its quota, and afterwards, when the winner is through, the recorded quota of a
   success and nothing for a failure.
   */
  lemma PollersBillOnce(quota: int, n: nat, schedule: Schedule)
    requires AllUndisturbed(Start(quota, n), schedule)
    ensures var s := Run(Start(quota, n), schedule, true);
            && s.wins == (if Done(s.status) then 1 else 0) && OneBill(s)
            && (Quiet(s) ==> s.paid == Owed(s.status, s.quota))
  {
    RunIsAfter(Start(quota, n), schedule);
    UndisturbedAfter(quota, n, schedule, |schedule|);
  }

  // ---------------------------------------------------------------------------
  // What goes wrong otherwise
  // ---------------------------------------------------------------------------

  lemma RunCons(s: State, move: (nat, Action), rest: Schedule, guarded: bool)
    ensures Run(s, [move] + rest, guarded) == Run(Moved(s, move, guarded), rest, guarded)
  {
    assert ([move] + rest)[1..] == rest;
  }

  /** A poller fails the task and refunds it, its owner looks and sees it run. */
  const FAIL_AND_REVIVE: Schedule := [
    (0, Load), (0, Report(Some(Failure), true, true)), (0, Bill(0, true, true)), (1, Look),
    (1, Show(Some(InProgress), true, true))]

  function Times(round: Schedule, n: nat): Schedule {
    if n == 0 then [] else round + Times(round, n - 1)
  }

  /** The state after `k` such rounds. */
  function AfterRounds(quota: int, k: nat): State {
    State(if k == 0 then NotStart else InProgress, quota, quota - k * quota, [Idle, Idle], k, k, k, 0, false)
  }

  lemma FailsRound(quota: int, k: nat)
    requires quota != 0
    ensures var s, r := AfterRounds(quota, k), FAIL_AND_REVIVE;
            Moved(Moved(Moved(s, r[0], true), r[1], true), r[2], true) ==
            s.(status := Failure, paid := s.paid - quota, wins := k + 1, refunds := k + 1)
  {
    var s, r := AfterRounds(quota, k), FAIL_AND_REVIVE;
    var s2 := Moved(Moved(s, r[0], true), r[1], true);
    assert s2.workers == [Billing(Failure, quota), Idle];
    assert Moved(s2, r[2], true).workers == [Idle, Idle];
  }

  lemma OneRound(quota: int, k: nat, rest: Schedule)
    requires quota != 0
    ensures Run(AfterRounds(quota, k), FAIL_AND_REVIVE + rest, true) == Run(AfterRounds(quota, k + 1), rest, true)
  {
    var s, r := AfterRounds(quota, k), FAIL_AND_REVIVE;
    var s1 := Moved(s, r[0], true);
    var s2 := Moved(s1, r[1], true);
    var s3 := s.(status := Failure, paid := s.paid - quota, wins := k + 1, refunds := k + 1);
    assert Moved(s2, r[2], true) == s3 by { FailsRound(quota, k); }
    var s4 := Goes(s3, 1, Looking(Failure, quota));
    var s5 := AfterRounds(quota, k + 1);
    assert Moved(s4, r[4], true) == s5 by {
      assert s4.workers[1 := Idle] == [Idle, Idle];
      assert (k + 1) * quota == k * quota + quota;
    }
    assert r + rest == [r[0]] + ([r[1]] + ([r[2]] + ([r[3]] + ([r[4]] + rest))));
    RunCons(s, r[0], [r[1]] + ([r[2]] + ([r[3]] + ([r[4]] + rest))), true);
    RunCons(s1, r[1], [r[2]] + ([r[3]] + ([r[4]] + rest)), true);
    RunCons(s2, r[2], [r[3]] + ([r[4]] + rest), true);
    RunCons(s3, r[3], [r[4]] + rest, true);
    RunCons(s4, r[4], rest, true);
  }

  lemma {:induction false} RoundsRun(quota: int, k: nat, n: nat)
    requires quota != 0
    ensures Run(AfterRounds(quota, k), Times(FAIL_AND_REVIVE, n), true) == AfterRounds(quota, k + n)
    decreases n
  {
    if n > 0 {
      OneRound(quota, k, Times(FAIL_AND_REVIVE, n - 1));
      RoundsRun(quota, k + 1, n - 1);
    }
  }

  /**
   Every look that brings a failed task back lets it be refunded once more: after n of them it has been
   refunded n times, however large n is, and no bound on the refunds holds but the one by the revivals.
   */
  lemma RefundedEveryTime(quota: int, n: nat)
    requires quota != 0
    ensures var s := Run(Start(quota, 2), Times(FAIL_AND_REVIVE, n), true);
            s.refunds == s.wins == s.revivals == n && s.paid == quota - n * quota && Quiet(s) && !s.lost
  {
    assert Start(quota, 2) == AfterRounds(quota, 0) by { assert Start(quota, 2).workers == [Idle, Idle]; }
    RoundsRun(quota, 0, n);
  }

  /** So failed, seen running and failed again, a task has been refunded twice and its user gains a quota. */
  lemma RefundedTwice(quota: int)
    requires quota != 0
    ensures var s := Run(Start(quota, 2), FAIL_AND_REVIVE + FAIL_AND_REVIVE, true);
            s.refunds == s.wins == 2 && s.paid == -quota && Quiet(s) && !s.lost
  {
    assert Times(FAIL_AND_REVIVE, 0) == [];
    assert Times(FAIL_AND_REVIVE, 1) == FAIL_AND_REVIVE + [] == FAIL_AND_REVIVE;
    assert Times(FAIL_AND_REVIVE, 2) == FAIL_AND_REVIVE + FAIL_AND_REVIVE;
    RefundedEveryTime(quota, 2);
  }

  lemma {:induction false} AllIdleStays(s: State, later: Schedule)
    requires Done(s.status) && (forall i :: 0 <= i < |s.workers| ==> s.workers[i] == Idle)
    requires forall k: nat :: k < |later| ==> !later[k].1.Look?
    ensures Run(s, later, true) == s
    decreases |later|
  {
    if later != [] {
      assert !later[0].1.Look?;
      assert Moved(s, later[0], true) == s;
      AllIdleStays(s, later[1..]);
    }
  }

  /** An owner's look that sees the end before any poller does records it; no poller ever bills the task. */
  lemma {:induction false} SeenEndIsNotBilled(quota: int, n: nat, end: Status, later: Schedule)
    requires n > 0 && Done(end) && forall k: nat :: k < |later| ==> !later[k].1.Look?
    ensures var s := Run(Start(quota, n), [(0, Look), (0, Show(Some(end), true, true))] + later, true);
            s.status == end && s.wins == 0 && s.paid == quota
  {
    var look, show := (0, Look), (0, Show(Some(end), true, true));
    var s0 := Start(quota, n);
    var s1 := Moved(s0, look, true);
    var s2 := Moved(s1, show, true);
    assert [look, show] + later == [look] + ([show] + later);
    RunCons(s0, look, [show] + later, true);
    RunCons(s1, show, later, true);
    AllIdleStays(s2, later);
  }

  /** A look at a success taken before its settlement was recorded puts the old quota back. */
  lemma OldQuotaComesBack(quota: int, actual: int)
    requires actual > 0 && actual != quota
    ensures var s := Run(Start(quota, 2), [(0, Load), (0, Report(Some(Success), true, true)), (1, Look),
                           (0, Bill(actual, true, true)), (1, Show(None, true, true))], true);
            s.status == Success && s.quota == quota && s.paid == actual && Quiet(s) && !s.lost
  {
    var done, bill, show := Report(Some(Success), true, true), Bill(actual, true, true), Show(None, true, true);
    var s0 := Start(quota, 2);
    var s1 := Next(s0, 0, Load, true);
    var s2 := Next(s1, 0, done, true);
    var s3 := Next(s2, 1, Look, true);
    var s4 := Next(s3, 0, bill, true);
    var s5 := Next(s4, 1, show, true);
    assert s3.workers == [Billing(Success, quota), Looking(Success, quota)];
    assert s4.workers == [Idle, Looking(Success, quota)] && s5.workers == [Idle, Idle];
    assert Run(s5, [], true) == s5;
    assert Run(s4, [(1, show)], true) == s5;
    assert Run(s3, [(0, bill), (1, show)], true) == s5;
    assert Run(s2, [(1, Look), (0, bill), (1, show)], true) == s5;
    assert Run(s1, [(0, done), (1, Look), (0, bill), (1, show)], true) == s5;
  }

  /** A success that was billed is overturned by a poller that loaded the task before and then finds no channel. */
  lemma SuccessIsOverturned(quota: int)
    ensures var s := Run(Start(quota, 2), [(0, Load), (1, Load), (0, Report(Some(Success), true, true)),
                           (0, Bill(0, true, true)), (1, Strike(false, true))], true);
            s.status == Failure && s.paid == quota && s.wins == 1 && Quiet(s) && !s.lost
  {
    var done, strike, bill := Report(Some(Success), true, true), Strike(false, true), Bill(0, true, true);
    var s0 := Start(quota, 2);
    var s1 := Next(s0, 0, Load, true);
    var s2 := Next(s1, 1, Load, true);
    var s3 := Next(s2, 0, done, true);
    var s4 := Next(s3, 0, bill, true);
    var s5 := Next(s4, 1, strike, true);
    assert s4.workers == [Idle, Loaded(NotStart, quota)];
    assert s5.workers == [Idle, Idle];
    assert Run(s5, [], true) == s5;
    assert Run(s4, [(1, strike)], true) == s5;
    assert Run(s3, [(0, bill), (1, strike)], true) == s5;
    assert Run(s2, [(0, done), (0, bill), (1, strike)], true) == s5;
    assert Run(s1, [(1, Load), (0, done), (0, bill), (1, strike)], true) == s5;
  }

  /** Without the guard two pollers that loaded the same row both refund it. */
  lemma GuardIsNeeded(quota: int)
    requires quota != 0
    ensures var fail := Report(Some(Failure), true, true); var bill := Bill(0, true, true);
            var s := Run(Start(quota, 2), [(0, Load), (1, Load), (0, fail), (1, fail), (0, bill), (1, bill)], false);
            s.wins == 2 && s.paid == -quota
  {
    var fail, bill := Report(Some(Failure), true, true), Bill(0, true, true);
    var s0 := Start(quota, 2);
    var s1 := Next(s0, 0, Load, false);
    var s2 := Next(s1, 1, Load, false);
    var s3 := Next(s2, 0, fail, false);
    var s4 := Next(s3, 1, fail, false);
    var s5 := Next(s4, 0, bill, false);
    var s6 := Next(s5, 1, bill, false);
    assert s4.wins == 2 && s4.workers == [Billing(Failure, quota), Billing(Failure, quota)];
    assert s6.paid == -quota;
    assert Run(s6, [], false) == s6;
    assert Run(s5, [(1, bill)], false) == s6;
    assert Run(s4, [(0, bill), (1, bill)], false) == s6;
    assert Run(s3, [(1, fail), (0, bill), (1, bill)], false) == s6;
    assert Run(s2, [(0, fail), (1, fail), (0, bill), (1, bill)], false) == s6;
    assert Run(s1, [(1, Load), (0, fail), (1, fail), (0, bill), (1, bill)], false) == s6;
  }
}
