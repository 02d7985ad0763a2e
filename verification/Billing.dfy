/**
 The billing of one request: a quota taken in advance from a funding source and from the token, more
 reserved on the way, and in the end either settled to the actual quota or returned.
 */
module Billing {

  datatype Source = Wallet | Subscription

  /**
   The session, and beside it what has been taken from the funding source and from the token on balance.
   A write that fails after money has moved is only logged: `fundingAdrift` and `tokenAdrift` are what has
   been taken, more than the outcome of the request accounts for, because of such writes.
   */
  datatype Session = Session(
    source: Source, playground: bool, trusted: bool,
    preConsumed: int, tokenConsumed: int, extraReserved: int, sourceConsumed: int,
    settled: bool, refunded: bool,
    fundingTaken: int, tokenTaken: int, fundingAdrift: int, tokenAdrift: int)

  /** A new session after a successful advance; a subscription is never trusted and takes at least one. */
  function Opened(source: Source, playground: bool, quota: nat, trust: bool): Session {
    var trusted := trust && source == Wallet;
    var q := if trusted then 0 else if source == Subscription && quota == 0 then 1 else quota;
    Session(source, playground, trusted, q, q, 0, q, false, false, q, if playground then 0 else q, 0, 0)
  }

  datatype Call =
    | Reserve(target: int, fundOk: bool, tokenOk: bool, rollbackOk: bool)
    | Settle(actual: int, fundOk: bool, tokenOk: bool)
    | Refund(fundOk: bool, extraOk: bool, tokenOk: bool)

  predicate NeedsRefund(s: Session) {
    !s.settled && !s.refunded && (s.tokenConsumed > 0 || (s.source == Subscription && s.sourceConsumed > 0))
  }

  function Reserved(s: Session, c: Call): Session
    requires c.Reserve?
  {
    var d := c.target - s.preConsumed;
    var source := if s.source == Wallet then s.sourceConsumed + d else s.sourceConsumed;
    if s.settled || s.refunded || s.trusted || d <= 0 || !c.fundOk then s
    else if !s.playground && !c.tokenOk then
      if c.rollbackOk then s
      else s.(fundingTaken := s.fundingTaken + d, fundingAdrift := s.fundingAdrift + d, sourceConsumed := source)
    else s.(preConsumed := s.preConsumed + d, tokenConsumed := s.tokenConsumed + d,
        extraReserved := s.extraReserved + d,
            sourceConsumed := source, fundingTaken := s.fundingTaken + d,
            tokenTaken := if s.playground then s.tokenTaken else s.tokenTaken + d)
  }

  /** A failed adjustment of the token is logged; the session counts as settled all the same. */
  function Settled(s: Session, c: Call): Session
    requires c.Settle?
  {
    var d := c.actual - s.preConsumed;
    if s.settled || (d != 0 && !c.fundOk) then s
    else if d == 0 then s.(settled := true)
    else s.(settled := true, fundingTaken := s.fundingTaken + d,
            tokenTaken := if s.playground || !c.tokenOk then s.tokenTaken else s.tokenTaken + d,
            tokenAdrift := if s.playground || c.tokenOk then s.tokenAdrift else s.tokenAdrift - d)
  }

  /**
   Each part is returned if it was taken. A wallet knows everything it has given, and returns with the
   rest what an earlier rollback could not.
   */
  function Refunded(s: Session, c: Call): Session
    requires c.Refund?
  {
    if !NeedsRefund(s) then s
    else
      var source := if s.sourceConsumed > 0 then s.sourceConsumed else 0;
      var extra := if s.extraReserved > 0 && s.source == Subscription then s.extraReserved else 0;
      var token := if s.tokenConsumed > 0 && !s.playground then s.tokenConsumed else 0;
      s.(refunded := true,
         fundingTaken := s.fundingTaken - (if c.fundOk then source else 0) - (if c.extraOk then extra else 0),
         tokenTaken := s.tokenTaken - (if c.tokenOk then token else 0),
         fundingAdrift :=
           (if s.source == Wallet && source > 0 then 0 else s.fundingAdrift)
           + (if c.fundOk then 0 else source) + (if c.extraOk then 0 else extra),
         tokenAdrift := s.tokenAdrift + if c.tokenOk then 0 else token)
  }

  function Step(s: Session, c: Call): Session {
    match c
    case Reserve(_, _, _, _) => Reserved(s, c)
    case Settle(_, _, _) => Settled(s, c)
    case Refund(_, _, _) => Refunded(s, c)
  }

  // ---------------------------------------------------------------------------
  // Every sequence of calls
  // ---------------------------------------------------------------------------

  /** Where the request stands: holding its reserve, charged, returned, or charged after it had been returned. */
  datatype Outcome = Pending | Charged(actual: int) | Returned | Undercharged(actual: int, reserve: int)

  /** How the session stands after the call, when it stood at `o` before. */
  function Judge(s: Session, o: Outcome, c: Call): Outcome {
    if !s.settled && Step(s, c).settled && c.Settle? then
      (if o == Returned then Undercharged(c.actual, s.preConsumed) else Charged(c.actual))
    else if o == Pending && Step(s, c).refunded then Returned
    else o
  }

  /** The flags and the amounts the session keeps agree with where it stands, whatever was lost. */
  ghost predicate Kept(s: Session, o: Outcome) {
    && s.settled == (o.Charged? || o.Undercharged?) && s.refunded == (o == Returned || o.Undercharged?)
    && s.tokenConsumed == s.preConsumed && 0 <= s.extraReserved <= s.preConsumed
    && (s.source == Subscription ==> s.sourceConsumed == s.preConsumed - s.extraReserved > 0)
    && (o.Undercharged? ==> o.reserve == s.preConsumed)
  }

  /** What has been taken from one side, when `reserve` is what that side holds in advance. */
  function Due(o: Outcome, reserve: int): int {
    match o
    case Pending => reserve
    case Charged(actual) => actual
    case Returned => 0
    case Undercharged(actual, held) => actual - held
  }

  ghost predicate FundingBooks(s: Session, o: Outcome) {
    && s.fundingAdrift >= 0 && s.fundingTaken == Due(o, s.preConsumed) + s.fundingAdrift
    && (o == Pending && s.source == Wallet ==> s.sourceConsumed == s.preConsumed + s.fundingAdrift)
  }

  ghost predicate TokenBooks(s: Session, o: Outcome) {
    s.tokenTaken == (if s.playground then 0 else Due(o, s.preConsumed)) + s.tokenAdrift
  }

  /** A session before its first settlement or refund, with nothing adrift. */
  ghost predicate Open(s: Session) {
    Kept(s, Pending) && FundingBooks(s, Pending) && TokenBooks(s, Pending) && s.fundingAdrift == s.tokenAdrift == 0
  }

  function Run(s: Session, calls: seq<Call>): Session {
    if calls == [] then s else Step(Run(s, calls[..|calls| - 1]), calls[|calls| - 1])
  }

  function Verdict(s: Session, calls: seq<Call>): Outcome {
    if calls == [] then Pending
    else
      var n := |calls| - 1;
      Judge(Run(s, calls[..n]), Verdict(s, calls[..n]), calls[n])
  }

  lemma StepKept(s: Session, o: Outcome, c: Call)
    requires Kept(s, o)
    ensures Kept(Step(s, c), Judge(s, o, c))
  {
    match c
    case Reserve(_, _, _, _) =>
    case Settle(_, _, _) =>
    case Refund(_, _, _) =>
  }

  lemma StepFunding(s: Session, o: Outcome, c: Call)
    requires Kept(s, o) && FundingBooks(s, o)
    ensures FundingBooks(Step(s, c), Judge(s, o, c))
  {
    match c
    case Reserve(_, _, _, _) =>
    case Settle(_, _, _) =>
    case Refund(_, _, _) =>
  }

  lemma StepToken(s: Session, o: Outcome, c: Call)
    requires Kept(s, o) && TokenBooks(s, o)
    ensures TokenBooks(Step(s, c), Judge(s, o, c))
  {
    match c
    case Reserve(_, _, _, _) =>
    case Settle(_, _, _) =>
    case Refund(_, _, _) =>
  }

  /**
   Whatever calls are made, in whatever order and however often, and whichever of their writes fail: the
   request is charged once, with the actual quota of the first settlement that went through, or returned in
   full, or still holds exactly its reserve; only a settlement after a return charges less. The funding and
   the token have each given exactly that and what lost writes set adrift.
   */
  lemma {:induction false} RunBooks(s: Session, calls: seq<Call>)
    requires Open(s)
    ensures var s', o := Run(s, calls), Verdict(s, calls);
            Kept(s', o) && FundingBooks(s', o) && TokenBooks(s', o)
  {
    if calls != [] {
      var n := |calls| - 1;
      var s1, o1 := Run(s, calls[..n]), Verdict(s, calls[..n]);
      RunBooks(s, calls[..n]);
      StepKept(s1, o1, calls[n]);
      StepFunding(s1, o1, calls[n]);
      StepToken(s1, o1, calls[n]);
    }
  }

  /** The call could not take back what it had taken from the funding, or not return it. */
  predicate LosesFunding(s: Session, c: Call) {
    match c
    case Reserve(target, fundOk, tokenOk, rollbackOk) =>
      && !s.settled && !s.refunded && !s.trusted && target > s.preConsumed
      && fundOk && !s.playground && !tokenOk && !rollbackOk
    case Settle(_, _, _) => false
    case Refund(fundOk, extraOk, _) =>
      && NeedsRefund(s)
      && ((s.sourceConsumed > 0 && !fundOk) || (s.source == Subscription && s.extraReserved > 0 && !extraOk))
  }

  /** The call could not adjust the token, or not return what it had taken from it. */
  predicate LosesToken(s: Session, c: Call) {
    match c
    case Reserve(_, _, _, _) => false
    case Settle(actual, fundOk, tokenOk) =>
      !s.settled && actual != s.preConsumed && fundOk && !s.playground && !tokenOk
    case Refund(_, _, tokenOk) => NeedsRefund(s) && s.tokenConsumed > 0 && !s.playground && !tokenOk
  }

  ghost predicate LosesFundingAt(s: Session, calls: seq<Call>, k: nat)
    requires k < |calls|
  {
    LosesFunding(Run(s, calls[..k]), calls[k])
  }

  ghost predicate LosesTokenAt(s: Session, calls: seq<Call>, k: nat)
    requires k < |calls|
  {
    LosesToken(Run(s, calls[..k]), calls[k])
  }

  /** Nothing is adrift on a side none of whose writes was lost, whatever happened on the other. */
  lemma {:induction false} NothingAdrift(s: Session, calls: seq<Call>)
    requires Open(s)
    ensures (forall k: nat :: k < |calls| ==> !LosesFundingAt(s, calls, k)) ==> Run(s, calls).fundingAdrift == 0
    ensures (forall k: nat :: k < |calls| ==> !LosesTokenAt(s, calls, k)) ==> Run(s, calls).tokenAdrift == 0
  {
    if calls != [] {
      var n := |calls| - 1;
      forall k: nat | k < n
        ensures LosesFundingAt(s, calls[..n], k) == LosesFundingAt(s, calls, k)
        ensures LosesTokenAt(s, calls[..n], k) == LosesTokenAt(s, calls, k)
      {
        assert calls[..n][..k] == calls[..k];
      }
      NothingAdrift(s, calls[..n]);
      assert LosesFundingAt(s, calls, n) == LosesFunding(Run(s, calls[..n]), calls[n]);
      assert LosesTokenAt(s, calls, n) == LosesToken(Run(s, calls[..n]), calls[n]);
    }
  }

  /** What a wallet's failed rollback set adrift comes back with the refund, if there is one. */
  lemma RollbackComesBack(s: Session, target: int, extraOk: bool, tokenOk: bool)
    requires Open(s) && s.source == Wallet && !s.playground && !s.trusted && target > s.preConsumed
    ensures var s1 := Step(s, Reserve(target, true, false, false));
            var s2 := Step(s1, Refund(true, extraOk, tokenOk));
            && s1.fundingTaken == target && s1.fundingAdrift == target - s.preConsumed
            && (s2.fundingTaken == 0 <==> s.preConsumed > 0)
  {
  }

  lemma OpenedIsOpen(source: Source, playground: bool, quota: nat, trust: bool)
    ensures Open(Opened(source, playground, quota, trust))
  {
  }

  /** Once charged or returned, no further call moves anything, except that a return can still be settled. */
  lemma EndIsFinal(s: Session, o: Outcome, c: Call)
    requires Kept(s, o) && o != Pending && !(c.Settle? && o == Returned)
    ensures Step(s, c) == s
  {
  }

  /** If the token cannot be adjusted, the funding is settled all the same, and no later call returns it. */
  lemma SettledFundingStays(s: Session, actual: int, calls: seq<Call>)
    requires Open(s) && actual != s.preConsumed
    ensures var s' := Run(Step(s, Settle(actual, true, false)), calls);
            s'.settled && s'.fundingTaken == actual && s'.fundingAdrift == 0
  {
    SettledIsFinal(Step(s, Settle(actual, true, false)), calls);
  }

  lemma {:induction false} SettledIsFinal(s: Session, calls: seq<Call>)
    requires s.settled
    ensures Run(s, calls) == s
  {
    if calls != [] { SettledIsFinal(s, calls[..|calls| - 1]); }
  }

  /** The hole: settling after a return charges too little, by everything that had been reserved. */
  lemma SettledAfterReturn(s: Session, actual: int, tokenOk: bool)
    requires Kept(s, Returned) && FundingBooks(s, Returned)
    ensures var s' := Step(s, Settle(actual, true, tokenOk));
            && s'.settled && s'.fundingTaken == actual - s.preConsumed + s.fundingAdrift
            && (s'.fundingTaken < actual <==> s.fundingAdrift < s.preConsumed)
  {
  }

  /** The session object. */
  class BillingSession {
    var session: Session

    constructor (source: Source, playground: bool, quota: nat, trust: bool)
      ensures session == Opened(source, playground, quota, trust)
    {
      session := Opened(source, playground, quota, trust);
    }

    method ReserveMore(target: int, fundOk: bool, tokenOk: bool, rollbackOk: bool) returns (ok: bool)
      modifies this
      ensures session == Step(old(session), Reserve(target, fundOk, tokenOk, rollbackOk))
      ensures var s := old(session);
              ok <==> s.settled || s.refunded || s.trusted || target <= session.preConsumed
    {
      var s := session;
      if s.settled || s.refunded || s.trusted || target <= s.preConsumed { return true; }
      var delta := target - s.preConsumed;
      if !fundOk { return false; }
      s := s.(fundingTaken := s.fundingTaken + delta);
      if s.source == Wallet { s := s.(sourceConsumed := s.sourceConsumed + delta); }
      if !s.playground {
        if !tokenOk {
          if rollbackOk {
            s := s.(fundingTaken := s.fundingTaken - delta);
            if s.source == Wallet { s := s.(sourceConsumed := s.sourceConsumed - delta); }
          } else {
            s := s.(fundingAdrift := s.fundingAdrift + delta);
          }
          session := s;
          return false;
        }
        s := s.(tokenTaken := s.tokenTaken + delta);
      }
      session := s.(preConsumed := s.preConsumed + delta, tokenConsumed := s.tokenConsumed + delta,
                    extraReserved := s.extraReserved + delta);
      return true;
    }

    method SettleActual(actual: int, fundOk: bool, tokenOk: bool) returns (ok: bool)
      modifies this
      ensures session == Step(old(session), Settle(actual, fundOk, tokenOk))
      ensures ok <==>
                && session.settled
                && (old(session).settled || session.preConsumed == actual || session.playground || tokenOk)
    {
      if session.settled { return true; }
      var delta := actual - session.preConsumed;
      if delta == 0 {
        session := session.(settled := true);
        return true;
      }
      if !fundOk { return false; }
      session := session.(fundingTaken := session.fundingTaken + delta);
      ok := true;
      if !session.playground {
        if tokenOk {
          session := session.(tokenTaken := session.tokenTaken + delta);
        } else {
          ok := false;
          session := session.(tokenAdrift := session.tokenAdrift - delta);
        }
      }
      session := session.(settled := true);
    }

    method ReturnAll(fundOk: bool, extraOk: bool, tokenOk: bool)
      modifies this
      ensures session == Step(old(session), Refund(fundOk, extraOk, tokenOk))
    {
      var s := session;
      if s.settled || s.refunded || !NeedsRefund(s) { return; }
      var funding, token := s.fundingTaken, s.tokenTaken;
      var fundingAdrift, tokenAdrift := s.fundingAdrift, s.tokenAdrift;
      if s.sourceConsumed > 0 {
        if s.source == Wallet { fundingAdrift := 0; }
        if fundOk {
          funding := funding - s.sourceConsumed;
        } else {
          fundingAdrift := fundingAdrift + s.sourceConsumed;
        }
      }
      if s.extraReserved > 0 && s.source == Subscription {
        if extraOk {
          funding := funding - s.extraReserved;
        } else {
          fundingAdrift := fundingAdrift + s.extraReserved;
        }
      }
      if s.tokenConsumed > 0 && !s.playground {
        if tokenOk { token := token - s.tokenConsumed; } else { tokenAdrift := tokenAdrift + s.tokenConsumed; }
      }
      session := s.(refunded := true, fundingTaken := funding, tokenTaken := token,
                    fundingAdrift := fundingAdrift, tokenAdrift := tokenAdrift);
    }
  }
}
