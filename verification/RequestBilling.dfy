/** The money of a whole relayed request: the retry loop and its billing session together. */
module RequestBilling {
  import opened Options
  import opened RelayRetry
  import Billing

  /** What the attempts do with the session: they may reserve more, any number of times. */
  type Work = nat -> seq<Billing.Call>

  ghost predicate OnlyReserves(work: Work) {
    forall k: nat, i: nat :: i < |work(k)| ==> work(k)[i].Reserve?
  }

  /** Which of the writes at the end succeed. */
  datatype Writes = Writes(settleFunding: bool, settleToken: bool, returnFunding: bool, returnExtra: bool,
      returnToken: bool)

  /** The session after the attempts `first` to `n - 1`. */
  function Held(s: Billing.Session, work: Work, first: nat, n: nat): Billing.Session
    decreases n
  {
    if n <= first then s else Billing.Run(Held(s, work, first, n - 1), work(n - 1))
  }

  /**
   The session when the loop is over. A request opens it before the loop, a task in attempt `first`; a free
   model has none.
   */
  function AtEnd(env: Env, group: nat, free: bool, first: nat, s: Billing.Session,
      work: Work): Option<Billing.Session> {
    var attempts := Relay(env, group).attempts;
    if free || (env.task && attempts <= first) then None
    else Some(Held(s, work, if env.task then first else 0, attempts))
  }

  /** An answer settles, an error returns; what fails then is only logged. */
  function Finish(end: End, held: Option<Billing.Session>, actual: int, w: Writes): Option<Billing.Session> {
    if held.None? then None
    else match end
      case Answered => Some(Billing.Step(held.value, Billing.Settle(actual, w.settleFunding, w.settleToken)))
      case Errored => Some(Billing.Step(held.value, Billing.Refund(w.returnFunding, w.returnExtra, w.returnToken)))
      case NeverRan => held
  }

  /** A session that is neither settled nor refunded, with its books right. */
  ghost predicate Holding(s: Billing.Session) {
    && Billing.Kept(s, Billing.Pending)
    && Billing.FundingBooks(s, Billing.Pending) && Billing.TokenBooks(s, Billing.Pending)
  }

  lemma ReserveHolds(s: Billing.Session, c: Billing.Call)
    requires Holding(s) && c.Reserve?
    ensures Holding(Billing.Step(s, c))
  {
    Billing.StepKept(s, Billing.Pending, c);
    Billing.StepFunding(s, Billing.Pending, c);
    Billing.StepToken(s, Billing.Pending, c);
  }

  lemma {:induction false} ReservesHold(s: Billing.Session, calls: seq<Billing.Call>)
    requires Holding(s) && forall i: nat :: i < |calls| ==> calls[i].Reserve?
    ensures Holding(Billing.Run(s, calls))
  {
    if calls != [] {
      var n := |calls| - 1;
      ReservesHold(s, calls[..n]);
      ReserveHolds(Billing.Run(s, calls[..n]), calls[n]);
    }
  }

  lemma {:induction false} AttemptsHold(s: Billing.Session, work: Work, first: nat, n: nat)
    requires Billing.Open(s) && OnlyReserves(work)
    ensures Holding(Held(s, work, first, n))
    decreases n
  {
    if n > first {
      AttemptsHold(s, work, first, n - 1);
      ReservesHold(Held(s, work, first, n - 1), work(n - 1));
    }
  }

  lemma FinishFlags(end: End, held: Billing.Session, actual: int, w: Writes)
    requires Holding(held)
    ensures var s' := Finish(end, Some(held), actual, w).value;
            && (s'.settled <==> end == Answered && (w.settleFunding || actual == held.preConsumed))
            && (s'.refunded <==> end == Errored && Billing.NeedsRefund(held))
  {
  }

  /**
   However the attempts go: the session is settled exactly when the request was answered and the funding
   could be adjusted or did not need to be; it is refunded exactly when the request ended in an error and
   anything had been taken; so it is never both, and neither happens twice.
   */
  lemma SettledXorRefunded(env: Env, group: nat, free: bool, first: nat, s: Billing.Session, work: Work, actual: int,
      w: Writes)
    requires Billing.Open(s) && OnlyReserves(work) && AtEnd(env, group, free, first, s, work).Some?
    ensures var held := AtEnd(env, group, free, first, s, work).value;
            var s' := Finish(Relay(env, group).end, Some(held), actual, w).value;
            && Holding(held)
            && (s'.settled <==> Relay(env, group).end == Answered && (w.settleFunding || actual == held.preConsumed))
            && (s'.refunded <==> Relay(env, group).end == Errored && Billing.NeedsRefund(held))
  {
    AttemptsHold(s, work, if env.task then first else 0, Relay(env, group).attempts);
    FinishFlags(Relay(env, group).end, AtEnd(env, group, free, first, s, work).value, actual, w);
  }

  /** What the funding has paid in the end, for what the session held. */
  function Cost(end: End, held: Billing.Session, actual: int, w: Writes): int {
    var all := held.preConsumed + held.fundingAdrift;
    match end
    case Answered => if w.settleFunding then actual + held.fundingAdrift else all
    case Errored =>
      if held.source == Billing.Wallet then (if held.preConsumed > 0 && w.returnFunding then 0 else all)
      else all - (if w.returnFunding then held.preConsumed - held.extraReserved else 0)
               - (if w.returnExtra then held.extraReserved else 0)
    case NeverRan => all
  }

  lemma FinishCosts(end: End, held: Billing.Session, actual: int, w: Writes)
    requires Holding(held)
    ensures var taken := Finish(end, Some(held), actual, w).value.fundingTaken;
            && taken == Cost(end, held, actual, w)
            && (end == Errored && w.returnFunding && w.returnExtra ==>
                  (taken == 0 <==> held.fundingAdrift == 0 || (held.source == Billing.Wallet && held.preConsumed > 0)))
  {
  }

  /**
   An answered request costs its actual quota, or keeps its reserve when the settlement failed; one that
   ends in an error costs nothing, or what could not be returned; one that never ran keeps its reserve. What
   failed rollbacks of the attempts set adrift is paid on top, and comes back only to a wallet that is refunded.
   */
  lemma RequestCosts(env: Env, group: nat, free: bool, first: nat, s: Billing.Session, work: Work, actual: int,
      w: Writes)
    requires Billing.Open(s) && OnlyReserves(work) && AtEnd(env, group, free, first, s, work).Some?
    ensures var held := AtEnd(env, group, free, first, s, work).value;
            var end := Relay(env, group).end;
            var s' := Finish(end, Some(held), actual, w).value;
            && s'.fundingTaken == Cost(end, held, actual, w)
            && (end == Errored && w.returnFunding && w.returnExtra ==>
                  (s'.fundingTaken == 0 <==>
                     held.fundingAdrift == 0 || (held.source == Billing.Wallet && held.preConsumed > 0)))
  {
    AttemptsHold(s, work, if env.task then first else 0, Relay(env, group).attempts);
    FinishCosts(Relay(env, group).end, AtEnd(env, group, free, first, s, work).value, actual, w);
  }

  /**
   With a negative number of retries nothing is sent: a request keeps its whole reserve and gets no error,
   and a task crashes before it has taken anything.
   */
  lemma NegativeRetries(env: Env, group: nat, free: bool, first: nat, s: Billing.Session, work: Work, actual: int,
      w: Writes)
    requires Billing.Open(s) && OnlyReserves(work) && env.retryTimes < 0
    ensures var held := AtEnd(env, group, free, first, s, work);
            && Relay(env, group).attempts == 0
            && (env.task ==> Crashes(env, Relay(env, group)) && held.None?)
            && (!env.task && !free ==>
                Finish(Relay(env, group).end, held, actual, w) == Some(s) && s.fundingTaken == s.preConsumed)
  {
    EndsIff(env, group);
  }
}
