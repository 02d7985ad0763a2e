/** The bill of one video task over repeated polls of its status. */
module VideoTask {
  import opened Numbers
  import opened Options

  datatype Status = NotStart | Submitted | Queued | InProgress | Success | Failure | Unknown

  /** The status an upstream answer stands for; an empty one means failure, others are not understood. */
  function Recognise(status: string): Option<Status> {
    if status == "" then Some(Failure)
    else if status == "SUBMITTED" then Some(Submitted)
    else if status == "QUEUED" then Some(Queued)
    else if status == "IN_PROGRESS" then Some(InProgress)
    else if status == "SUCCESS" then Some(Success)
    else if status == "FAILURE" then Some(Failure)
    else None
  }

  /** What decides the price of a finished task. */
  datatype Usage = Usage(
    totalTokens: int, modelNamed: bool, hasRatioSetting: bool, modelRatio: real, groupKnown: bool, groupRatio: real)

  /** The quota by tokens, when the task is billed by tokens at all. */
  function ActualQuota(u: Usage): Option<int> {
    if u.totalTokens > 0 && u.modelNamed && u.hasRatioSetting && u.modelRatio > 0.0 && u.groupKnown
    then Some(Truncate(u.totalTokens as real * u.modelRatio * u.groupRatio))
    else None
  }

  /** The task row, and what the user has paid for the task so far, on balance. */
  datatype Ledger = Ledger(status: Status, quota: int, paid: int)

  /**
   One poll: the answer, and whether the money move, the write of the row and the refund succeed. When the
   channel of the task is gone, the row is marked failed and that is all.
   */
  datatype Poll =
    | Poll(answer: string, usage: Usage, moveOk: bool, saveOk: bool, refundOk: bool)
    | NoChannel(saveOk: bool)

  function Reported(p: Poll): Option<Status> {
    if p.NoChannel? then Some(Failure) else Recognise(p.answer)
  }

  /** A poll that reports success has a difference to the actual quota to charge or return. */
  predicate SettlementDue(l: Ledger, p: Poll) {
    && p.Poll? && Reported(p) == Some(Success)
    && ActualQuota(p.usage).Some? && ActualQuota(p.usage).value != l.quota
  }

  predicate Settles(l: Ledger, p: Poll) {
    SettlementDue(l, p) && p.moveOk
  }

  predicate RefundDue(l: Ledger, p: Poll) {
    p.Poll? && Reported(p) == Some(Failure) && l.status != Failure && l.quota != 0
  }

  function Step(l: Ledger, p: Poll): Ledger {
    var status := Reported(p);
    if status == None then l
    else
      var quota := if Settles(l, p) then ActualQuota(p.usage).value else l.quota;
      var paid := if Settles(l, p) then l.paid + quota - l.quota else l.paid;
      if !p.saveOk then l.(paid := paid)
      else if RefundDue(l, p) && p.refundOk && l.quota >= 0 then Ledger(status.value, quota, paid - l.quota)
      else Ledger(status.value, quota, paid)
  }

  /** The user has paid the quota on record, or nothing once the task has failed. */
  predicate Balanced(l: Ledger) {
    l.paid == if l.status == Failure then 0 else l.quota
  }

  /** Money moved but the new quota was not recorded. */
  predicate SettlementForgotten(l: Ledger, p: Poll) {
    Settles(l, p) && !p.saveOk
  }

  /** The failure was recorded but the refund did not go through; a negative one never does. */
  predicate RefundLost(l: Ledger, p: Poll) {
    RefundDue(l, p) && p.saveOk && !(p.refundOk && l.quota >= 0)
  }

  /** A refunded task came back to life with its old quota. */
  predicate Revived(l: Ledger, p: Poll) {
    l.status == Failure && l.quota != 0 && p.saveOk && Reported(p).Some? && Reported(p).value != Failure
  }

  /** The task was marked failed for want of a channel, and nothing was returned. */
  predicate Abandoned(l: Ledger, p: Poll) {
    p.NoChannel? && p.saveOk && l.status != Failure && l.quota != 0
  }

  predicate Harmless(l: Ledger, p: Poll) {
    !SettlementForgotten(l, p) && !RefundLost(l, p) && !Revived(l, p) && !Abandoned(l, p)
  }

  /** A poll keeps the books balanced exactly when none of four things happens. */
  lemma BalancedIff(l: Ledger, p: Poll)
    requires Balanced(l)
    ensures Balanced(Step(l, p)) <==> Harmless(l, p)
  {
  }

  function Run(l: Ledger, polls: seq<Poll>): Ledger {
    if polls == [] then l else Step(Run(l, polls[..|polls| - 1]), polls[|polls| - 1])
  }

  ghost predicate HarmlessAt(l: Ledger, polls: seq<Poll>, k: nat)
    requires k < |polls|
  {
    Harmless(Run(l, polls[..k]), polls[k])
  }

  ghost predicate BalancedAfter(l: Ledger, polls: seq<Poll>, k: nat)
    requires k <= |polls|
  {
    Balanced(Run(l, polls[..k]))
  }

  lemma RunSnoc(l: Ledger, polls: seq<Poll>, k: nat)
    requires k < |polls|
    ensures Run(l, polls[..k + 1]) == Step(Run(l, polls[..k]), polls[k])
  {
    assert polls[..k + 1][..k] == polls[..k];
  }

  /**
   Over a whole run, with any writes failing, the books are balanced after the first k polls and every
   number before exactly when each of these polls is harmless where it comes.
   */
  lemma RunBalancedIff(l: Ledger, polls: seq<Poll>, k: nat)
    requires Balanced(l) && k <= |polls|
    ensures (forall m: nat :: m <= k ==> BalancedAfter(l, polls, m)) <==>
        forall m: nat :: m < k ==> HarmlessAt(l, polls, m)
  {
    var good := (m: nat) => m <= |polls| && BalancedAfter(l, polls, m);
    var fine := (m: nat) => m < |polls| && HarmlessAt(l, polls, m);
    assert polls[..0] == [];
    forall m: nat | m < k && good(m) ensures good(m + 1) <==> fine(m) {
      RunSnoc(l, polls, m);
      BalancedIff(Run(l, polls[..m]), polls[m]);
    }
    StepsIff(good, fine, k);
    assert forall m: nat :: m <= k ==> (good(m) <==> BalancedAfter(l, polls, m));
    assert forall m: nat :: m < k ==> (fine(m) <==> HarmlessAt(l, polls, m));
  }

  /**
   In particular when only tasks that have not ended are polled, and the row and the refund are written:
   the settlement may fail as often as it likes.
   */
  predicate Ordinary(l: Ledger, p: Poll) {
    p.Poll? && p.saveOk && p.refundOk && l.status != Success && l.status != Failure && l.quota >= 0
  }

  lemma OrdinaryRunBalanced(l: Ledger, polls: seq<Poll>)
    requires Balanced(l) && forall k: nat :: k < |polls| ==> Ordinary(Run(l, polls[..k]), polls[k])
    ensures Balanced(Run(l, polls))
  {
    forall k: nat | k < |polls| ensures HarmlessAt(l, polls, k) {
      assert Ordinary(Run(l, polls[..k]), polls[k]);
    }
    RunBalancedIff(l, polls, |polls|);
    assert BalancedAfter(l, polls, |polls|) && polls[..|polls|] == polls;
  }

  /**
   The same answer again changes nothing, exactly when the first poll left nothing to settle and the row
   says what was reported; or what is left fails again.
   */
  lemma RepeatedPollIdleIff(l: Ledger, p: Poll, again: Poll)
    requires p.Poll? && again.Poll? && again.answer == p.answer && again.usage == p.usage
    ensures var owed := SettlementDue(l, p) && !(p.moveOk && p.saveOk);
            Step(Step(l, p), again) == Step(l, p) <==>
              !(owed && again.moveOk) && (p.saveOk || !again.saveOk || Reported(p) in {None, Some(l.status)})
  {
  }

  /** A refunded task that is reported running and then failed is refunded again. */
  lemma RevivedIsRefundedTwice(quota: int, usage: Usage)
    requires quota > 0
    ensures var l := Ledger(InProgress, quota, quota);
            var polls := [Poll("FAILURE", usage, true, true, true), Poll("QUEUED", usage, true, true, true),
                          Poll("", usage, true, true, true)];
            Run(l, polls) == Ledger(Failure, quota, -quota)
  {
    var l := Ledger(InProgress, quota, quota);
    var f, q := Poll("FAILURE", usage, true, true, true), Poll("QUEUED", usage, true, true, true);
    var e := Poll("", usage, true, true, true);
    assert Run(l, [f]) == Ledger(Failure, quota, 0) by { assert [f][..0] == []; }
    assert Run(l, [f, q]) == Ledger(Queued, quota, 0) by { assert [f, q][..1] == [f]; }
    assert [f, q, e][..2] == [f, q];
  }

  /** The task as the poller handles it. */
  class Task {
    var status: Status
    var quota: int
    var paid: int

    constructor (quota: int)
      ensures status == NotStart && this.quota == quota && paid == quota
    {
      this.status, this.quota, this.paid := NotStart, quota, quota;
    }

    method Update(p: Poll) returns (ok: bool)
      modifies this
      ensures Ledger(status, quota, paid) == Step(old(Ledger(status, quota, paid)), p)
      ensures ok <==> p.Poll? && Recognise(p.answer).Some?
    {
      if p.NoChannel? {
        if p.saveOk { status := Failure; }
        return false;
      }
      var recognised := Recognise(p.answer);
      if recognised == None { return false; }
      var preStatus, preQuota, newQuota, shouldRefund := status, quota, quota, false;
      if recognised.value == Success {
        var actual := ActualQuota(p.usage);
        if actual.Some? {
          var quotaDelta := actual.value - preQuota;
          if quotaDelta > 0 {
            if p.moveOk { paid, newQuota := paid + quotaDelta, actual.value; }
          } else if quotaDelta < 0 {
            if p.moveOk { paid, newQuota := paid - (-quotaDelta), actual.value; }
          }
        }
      } else if recognised.value == Failure {
        shouldRefund := preQuota != 0 && preStatus != Failure;
      }
      if p.saveOk { status, quota := recognised.value, newQuota; } else { shouldRefund := false; }
      if shouldRefund && p.refundOk && preQuota >= 0 { paid := paid - preQuota; }
      ok := true;
    }
  }
}
