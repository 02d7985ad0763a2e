/**
 Crediting of paid orders, and activation of paid subscriptions, by the handlers that run under the order lock.

 A handler reads the order row, decides, writes the row back whole and, for Epay, adds the quota
 in a further access. Steps of all handlers interleave with the steps of the lock protocol. The
 database calls that are one transaction in the source are one step here. `ok` is the outcome
 the database gives to the access, `subOk` to its reading of the subscription order: if that fails,
 the order counts as one that does not exist.
 */
module TopUpCredit {
  import opened Numbers
  import opened Options
  import opened OrderLock

  datatype Status = Pending | Success | Failed | Expired

  /** A row that stands for a subscription is stored without a provider. */
  datatype Provider = Epay | Stripe | Creem | Waffo | WaffoPancake | NoProvider

  datatype Order = Order(user: nat, amount: int, money: real, provider: Provider, payMethod: string, status: Status)

  /** An order for a subscription, in a table of its own. */
  datatype Subscription = Subscription(user: nat, money: real, provider: Provider, payMethod: string, status: Status)

  datatype Handler =
    | EpayNotify(payMethod: string)
    | SubscriptionNotify(provider: Provider, payMethod: string)
    | AdminComplete
    | StripeFulfil
    | StripeFail
    | StripeExpire

  /** What a handler has done so far, with its private copy of the row it read. */
  datatype Work =
    | Waiting(handler: Handler)
    | EpayLoaded(copy: Order)
    | EpaySaved(copy: Order)
    | FailLoaded(copy: Order)
    | RechargeDue
    | ExpiryDue
    | Finished

  /** A credit, with the row it was made for. */
  datatype Credit = Credit(tradeNo: TradeNo, order: Order, quota: real)

  /**
   `ledger`, `unpaid` and `activations` record the credits made, the orders whose quota write failed and
   the subscriptions started; `placed` are the top-up orders pending at the start or placed since; `start`
   and `before` are the balances and the already successful orders the run began with.
   */
  datatype World = World(
    lock: State,
    work: seq<Work>,
    orders: map<TradeNo, Order>,
    subs: map<TradeNo, Subscription>,
    balance: map<nat, real>,
    perUnit: real,
    ledger: seq<Credit>,
    unpaid: set<TradeNo>,
    activations: seq<TradeNo>,
    placed: set<TradeNo>,
    start: map<nat, real>,
    before: set<TradeNo>)

  function UnitsToQuota(units: real, perUnit: real): real {
    Truncate(units * perUnit) as real
  }

  function EpayQuota(o: Order, perUnit: real): real {
    UnitsToQuota(o.amount as real, perUnit)
  }

  /** What Recharge adds: money times the unit, without truncation. */
  function RechargeQuota(money: real, perUnit: real): real {
    money * perUnit
  }

  function AdminQuota(o: Order, perUnit: real): real {
    if o.provider == Stripe then UnitsToQuota(o.money, perUnit) else EpayQuota(o, perUnit)
  }

  function NumberOf(w: World, t: nat): TradeNo
    requires t < |w.lock.threads|
  {
    w.lock.threads[t].tradeNo
  }

  /** The effect of one database access: the handler's next stage, the rows it writes, what it pays the order's user. */
  datatype Outcome = Outcome(next: Work, row: Option<Order>, pay: Option<real>, giveUp: bool, sub: Option<Subscription>)

  const NOTHING := Outcome(Finished, None, None, false, None)

  /** The row of a top-up that stands for a subscription: inserted, or an existing one marked successful. */
  function SubscriptionRow(row: Option<Order>, sub: Subscription): Option<Order> {
    if row.None? then Some(Order(sub.user, 0, sub.money, NoProvider, sub.payMethod, Success))
    else if row.value.payMethod == "" || row.value.payMethod == sub.payMethod
    then Some(row.value.(money := sub.money, payMethod := sub.payMethod, status := Success))
    else None
  }

  /** Completing a subscription order is one transaction; `ok` also stands for finding the plan. */
  function Complete(row: Option<Order>, sub: Subscription, provider: Provider, payMethod: string, ok: bool): Outcome {
    if sub.provider != provider || sub.status != Pending || SubscriptionRow(row, sub).None? || !ok then NOTHING
    else NOTHING.(row := SubscriptionRow(row, sub),
                  sub := Some(sub.(status := Success, payMethod := if payMethod != "" then payMethod
                      else sub.payMethod)))
  }

  /** The next database access of a handler at stage `k`, given the rows under its number. */
  function Decide(k: Work, row: Option<Order>, sub: Option<Subscription>, ok: bool, perUnit: real): Outcome
    requires k != Finished
  {
    var nothing := NOTHING;
    var pending := row.Some? && row.value.status == Pending;
    match k
    case Waiting(EpayNotify(paid)) =>
      if pending && row.value.provider == Epay && ok
      then nothing.(next := EpayLoaded(row.value.(payMethod := paid, status := Success)))
      else nothing
    case EpayLoaded(o) =>
      if ok then nothing.(next := EpaySaved(o), row := Some(o)) else nothing
    case EpaySaved(o) =>
      if ok && EpayQuota(o, perUnit) >= 0.0
      then nothing.(pay := Some(EpayQuota(o, perUnit)))
      else nothing.(giveUp := true)
    case Waiting(AdminComplete) =>
      if pending && AdminQuota(row.value, perUnit) > 0.0 && ok
      then nothing.(row := Some(row.value.(status := Success)),
                    pay := Some(AdminQuota(row.value, perUnit)))
      else nothing
    case Waiting(SubscriptionNotify(provider, payMethod)) =>
      if sub.None? then nothing else Complete(row, sub.value, provider, payMethod, ok)
    case Waiting(StripeFulfil) =>
      if sub.None? then nothing.(next := RechargeDue) else Complete(row, sub.value, Stripe, "", ok)
    case RechargeDue =>
      if pending && row.value.provider == Stripe && ok
      then nothing.(row := Some(row.value.(status := Success)),
                    pay := Some(RechargeQuota(row.value.money, perUnit)))
      else nothing
    case Waiting(StripeFail) =>
      if pending && row.value.provider == Stripe && ok
      then nothing.(next := FailLoaded(row.value.(status := Failed)))
      else nothing
    case FailLoaded(o) =>
      if ok then nothing.(row := Some(o)) else nothing
    case Waiting(StripeExpire) =>
      if sub.None? then nothing.(next := ExpiryDue)
      else if sub.value.provider == Stripe && sub.value.status == Pending && ok
      then nothing.(sub := Some(sub.value.(status := Expired)))
      else nothing
    case ExpiryDue =>
      if pending && row.value.provider == Stripe && ok
      then nothing.(row := Some(row.value.(status := Expired)))
      else nothing
  }

  function Row(w: World, n: TradeNo): Option<Order> {
    Lookup(w.orders, n)
  }

  ghost predicate Shaped(w: World) {
    && |w.work| == |w.lock.threads|
    && (forall n :: n in w.orders ==> w.orders[n].user in w.balance)
    && (forall n :: n in w.subs ==> w.subs[n].user in w.balance)
  }

  /** The access starts a subscription. */
  predicate Activates(out: Outcome) {
    out.sub.Some? && out.sub.value.status == Success
  }

  /** The world after thread `t`'s access; the order it pays is the one it has in hand. */
  function Apply(w: World, t: nat, out: Outcome): World
    requires t < |w.work| == |w.lock.threads| && (out.pay.Some? ==> out.row.Some? || NumberOf(w, t) in w.orders)
  {
    var n := NumberOf(w, t);
    var orders := if out.row.Some? then w.orders[n := out.row.value] else w.orders;
    w.(work := w.work[t := out.next],
       orders := orders,
       subs := if out.sub.Some? then w.subs[n := out.sub.value] else w.subs,
       balance := if out.pay.Some? && orders[n].user in w.balance
                  then w.balance[orders[n].user := w.balance[orders[n].user] + out.pay.value]
                  else w.balance,
       ledger := if out.pay.Some? then w.ledger + [Credit(n, orders[n], out.pay.value)] else w.ledger,
       unpaid := if out.giveUp then w.unpaid + {n} else w.unpaid,
       activations := if Activates(out) then w.activations + [n] else w.activations)
  }

  /** The subscription order as the access reads it. */
  function SubscriptionRead(w: World, n: TradeNo, subOk: bool): Option<Subscription> {
    if subOk then Lookup(w.subs, n) else None
  }

  function Chosen(w: World, t: nat, ok: bool, subOk: bool): Outcome
    requires t < |w.work| == |w.lock.threads| && w.work[t] != Finished
  {
    var n := NumberOf(w, t);
    Decide(w.work[t], Row(w, n), SubscriptionRead(w, n, subOk), ok, w.perUnit)
  }

  /** The next database access of the handler on thread `t`, which is inside the order lock. */
  function Perform(w: World, t: nat, ok: bool, subOk: bool): World
    requires t < |w.work| == |w.lock.threads| && w.work[t] != Finished
    requires w.work[t].EpaySaved? ==> NumberOf(w, t) in w.orders
  {
    Apply(w, t, Chosen(w, t, ok, subOk))
  }

  ghost predicate PerformStep(w: World, t: nat, ok: bool, subOk: bool, w': World) {
    && Shaped(w) && t < |w.work| && w.lock.threads[t].pc == Inside && w.work[t] != Finished
    && (w.work[t].EpaySaved? ==> NumberOf(w, t) in w.orders)
    && w' == Perform(w, t, ok, subOk)
  }

  /** A step of the lock protocol; UnlockOrder is deferred, so it starts when the handler is done. */
  ghost predicate LockMove(w: World, t: nat, w': World) {
    && RefsOk(w.lock) && Shaped(w) && t < |w.work| && Enabled(w.lock, t)
    && (w.lock.threads[t].pc == Inside ==> w.work[t] == Finished)
    && w' == w.(lock := After(w.lock, t))
  }

  ghost predicate Arrive(w: World, t: nat, n: TradeNo, h: Handler, w': World) {
    && Shaped(w) && t < |w.work| && w.lock.threads[t].pc == Idle
    && w' == w.(work := w.work[t := Waiting(h)], lock := Begin(w.lock, t, n))
  }

  /** A new order is inserted outside the lock, under a trade number not used before. */
  ghost predicate PlaceOrder(w: World, n: TradeNo, o: Order, w': World) {
    && n !in w.orders && o.status == Pending && o.user in w.balance
    && w' == w.(orders := w.orders[n := o], placed := w.placed + {n})
  }

  /** So is a new order for a subscription; its number may also be that of a top-up order. */
  ghost predicate PlaceSubscription(w: World, n: TradeNo, sub: Subscription, w': World) {
    && n !in w.subs && sub.status == Pending && sub.user in w.balance
    && w' == w.(subs := w.subs[n := sub])
  }

  /** An order for a subscription whose payment could not be started is expired, outside the lock. */
  ghost predicate Abandon(w: World, n: TradeNo, w': World) {
    && n in w.subs && w.subs[n].provider == Epay && w.subs[n].status == Pending
    && w' == w.(subs := w.subs[n := w.subs[n].(status := Expired)])
  }

  ghost predicate Next(w: World, w': World) {
    || (exists t, ok, subOk :: PerformStep(w, t, ok, subOk, w'))
    || (exists t :: LockMove(w, t, w'))
    || (exists t, n, h :: Arrive(w, t, n, h, w'))
    || Outside(w, w')
  }

  /** A step that does not need the lock. */
  ghost predicate Outside(w: World, w': World) {
    || (exists n, o :: PlaceOrder(w, n, o, w'))
    || (exists n, sub :: PlaceSubscription(w, n, sub, w'))
    || (exists n :: Abandon(w, n, w'))
  }

  ghost predicate Init(w: World) {
    && OrderLock.Init(w.lock) && Shaped(w)
    && (forall t :: 0 <= t < |w.work| ==> w.work[t] == Finished)
    && w.ledger == [] && w.unpaid == {} && w.activations == [] && w.start == w.balance
    && w.placed == (set n | n in w.orders && w.orders[n].status == Pending)
    && w.before == set n | n in w.orders && w.orders[n].status == Success
  }

  // ---------------------------------------------------------------------------
  // The invariant
  // ---------------------------------------------------------------------------

  ghost predicate Credited(w: World, n: TradeNo) {
    exists i :: 0 <= i < |w.ledger| && w.ledger[i].tradeNo == n
  }

  function Earned(ledger: seq<Credit>, u: nat): real {
    if ledger == [] then 0.0
    else
      var c := ledger[|ledger| - 1];
      Earned(ledger[..|ledger| - 1], u) + (if c.order.user == u then c.quota else 0.0)
  }

  /** The quota an order is worth, by the route that may complete it. */
  ghost predicate Worth(o: Order, perUnit: real, quota: real) {
    quota == AdminQuota(o, perUnit) || (o.provider == Stripe && quota == RechargeQuota(o.money, perUnit))
  }

  /** The stage of a handler and the row of its order fit together. */
  ghost predicate StageFits(k: Work, row: Option<Order>) {
    match k
    case EpayLoaded(o) =>
      && row.Some? && row.value.status == Pending && row.value.provider == Epay
      && o == row.value.(payMethod := o.payMethod, status := Success)
    case EpaySaved(o) => row == Some(o) && o.status == Success && o.provider == Epay
    case FailLoaded(o) => row.Some? && row.value.status == Pending && o == row.value.(status := Failed)
    case _ => true
  }

  /** The private copy of a handler, which exists only inside the lock, is still what the table says. */
  ghost predicate CopyOk(w: World, t: nat)
    requires Shaped(w) && t < |w.work|
  {
    var n := NumberOf(w, t);
    && (w.work[t].EpayLoaded? || w.work[t].EpaySaved? || w.work[t].FailLoaded? ==> w.lock.threads[t].pc == Inside)
    && StageFits(w.work[t], Row(w, n))
    && (w.work[t].EpaySaved? ==> !Credited(w, n) && n !in w.unpaid && n !in w.before && n in w.placed)
  }

  ghost predicate CopiesOk(w: World)
    requires Shaped(w)
  {
    forall t :: 0 <= t < |w.work| ==> CopyOk(w, t)
  }

  ghost predicate Settled(w: World, n: TradeNo) {
    n in w.orders && w.orders[n].status == Success && n !in w.before
  }

  /** What no handler changes in a row. */
  predicate SameOrder(o: Order, o': Order) {
    o.user == o'.user && o.amount == o'.amount && o.provider == o'.provider
  }

  /** The row a credit was made for is still there; only a subscription under the same number may have changed it. */
  ghost predicate CreditOk(w: World, c: Credit) {
    && Settled(w, c.tradeNo) && c.tradeNo !in w.unpaid && c.tradeNo in w.placed
    && c.order.status == Success && Worth(c.order, w.perUnit, c.quota)
    && SameOrder(c.order, w.orders[c.tradeNo])
    && (c.tradeNo !in w.activations ==> c.order == w.orders[c.tradeNo])
  }

  /** Every credit stands for a successful order, for its worth and its user, and no order has two. */
  ghost predicate LedgerOk(w: World) {
    && (forall i, j :: 0 <= i < j < |w.ledger| ==> w.ledger[i].tradeNo != w.ledger[j].tradeNo)
    && (forall i :: 0 <= i < |w.ledger| ==> CreditOk(w, w.ledger[i]))
    && (forall n :: n in w.unpaid ==> Settled(w, n) && n in w.placed)
    && (forall n :: n in w.before ==> n in w.orders && w.orders[n].status == Success)
    && (forall n :: n in w.orders && w.orders[n].status == Pending ==> n in w.placed)
  }

  /** Every subscription started has its order and its row successful, and none is started twice. */
  ghost predicate ActivationsOk(w: World) {
    && (forall i, j :: 0 <= i < j < |w.activations| ==> w.activations[i] != w.activations[j])
    && (forall n :: n in w.activations ==>
          && n in w.subs && w.subs[n].status == Success && n in w.orders && w.orders[n].status == Success)
  }

  ghost predicate Paying(w: World, t: int, n: TradeNo) {
    0 <= t < |w.work| && t < |w.lock.threads| && w.lock.threads[t].tradeNo == n && w.work[t].EpaySaved?
  }

  /** A success that is not credited is a subscription, or has its quota write still to come, or that write failed. */
  ghost predicate Explained(w: World, n: TradeNo) {
    Credited(w, n) || n in w.unpaid || n in w.activations || exists t :: Paying(w, t, n)
  }

  ghost predicate SuccessOk(w: World) {
    forall n :: Settled(w, n) ==> Explained(w, n)
  }

  ghost predicate BalanceOk(w: World) {
    w.balance.Keys == w.start.Keys && forall u :: u in w.balance ==> w.balance[u] == w.start[u] + Earned(w.ledger, u)
  }

  ghost predicate WorldInv(w: World) {
    Inv(w.lock) && Shaped(w) && CopiesOk(w) && LedgerOk(w) && ActivationsOk(w) && SuccessOk(w) && BalanceOk(w)
  }

  lemma InitWorldInv(w: World)
    requires Init(w)
    ensures WorldInv(w)
  {
    InitInv(w.lock);
  }

  // ---------------------------------------------------------------------------
  // Handler steps
  // ---------------------------------------------------------------------------

  /**
   A row leaves Pending, or is marked for a subscription that starts; it is paid only when successful, for
   its worth.
   */
  ghost predicate Sound(k: Work, row: Option<Order>, sub: Option<Subscription>, out: Outcome, perUnit: real) {
    var row' := if out.row.Some? then out.row else row;
    && StageFits(out.next, row')
    && (row.Some? ==> row'.Some? && SameOrder(row.value, row'.value))
    && (row' != row && !Activates(out) ==>
          && row.Some? && row.value.status == Pending
          && row'.value == row.value.(payMethod := row'.value.payMethod, status := row'.value.status))
    && (out.pay.Some? ==>
          && row'.Some? && row'.value.status == Success && !out.giveUp && out.sub.None?
          && (k.EpaySaved? || (row.Some? && row.value.status == Pending)) && Worth(row'.value, perUnit, out.pay.value))
    && (out.giveUp ==> k.EpaySaved?)
    && (k.EpaySaved? ==> (out.pay.Some? || out.giveUp) && out.sub.None?)
    && (out.next.EpaySaved? ==> row.Some? && row.value.status == Pending && out.pay.None?)
    && (row' != row && row'.value.status == Success ==> out.pay.Some? || out.next.EpaySaved? || Activates(out))
    && (out.sub.Some? ==>
          && sub.Some? && sub.value.status == Pending && out.sub.value.user == sub.value.user && out.next == Finished
          && (Activates(out) ==>
              row'.Some? && row'.value.status == Success && (row.None? ==> row'.value.user == sub.value.user)))
  }

  lemma DecideIsSound(k: Work, row: Option<Order>, sub: Option<Subscription>, ok: bool, perUnit: real)
    requires k != Finished && StageFits(k, row)
    ensures Sound(k, row, sub, Decide(k, row, sub, ok, perUnit), perUnit)
  {
  }

  /** Sound for the rows there are, whether the subscription order could be read or not. */
  lemma ChosenIsSound(w: World, t: nat, ok: bool, subOk: bool)
    requires t < |w.work| == |w.lock.threads| && w.work[t] != Finished && StageFits(w.work[t], Row(w, NumberOf(w, t)))
    ensures var n := NumberOf(w, t);
            Sound(w.work[t], Row(w, n), Lookup(w.subs, n), Chosen(w, t, ok, subOk), w.perUnit)
  {
    var n := NumberOf(w, t);
    DecideIsSound(w.work[t], Row(w, n), SubscriptionRead(w, n, subOk), ok, w.perUnit);
  }

  /** The outcome `out` is sound for thread `t`, which is inside the lock of its order. */
  ghost predicate Ready(w: World, t: nat, out: Outcome) {
    && Shaped(w) && LedgerOk(w) && ActivationsOk(w)
    && t < |w.work| && w.lock.threads[t].pc == Inside && w.work[t] != Finished && CopyOk(w, t)
    && Sound(w.work[t], Row(w, NumberOf(w, t)), Lookup(w.subs, NumberOf(w, t)), out, w.perUnit)
  }

  /** Pending orders have not been credited, given up or successful before. */
  lemma PendingIsUnsettled(w: World, n: TradeNo)
    requires LedgerOk(w) && n in w.orders && w.orders[n].status == Pending
    ensures !Credited(w, n) && n !in w.unpaid && n !in w.before && n in w.placed
  {
  }

  lemma ApplyOwnCopy(w: World, t: nat, out: Outcome)
    requires Ready(w, t, out)
    ensures Shaped(Apply(w, t, out)) && CopyOk(Apply(w, t, out), t)
  {
    var n := NumberOf(w, t);
    if n in w.orders && w.orders[n].status == Pending { PendingIsUnsettled(w, n); }
  }

  lemma ApplyOtherCopy(w: World, t: nat, out: Outcome, u: nat)
    requires Ready(w, t, out) && Shaped(Apply(w, t, out)) && u < |w.work| && u != t && CopyOk(w, u)
    requires w.lock.threads[u].pc == Inside ==> NumberOf(w, u) != NumberOf(w, t)
    ensures CopyOk(Apply(w, t, out), u)
  {
  }

  lemma ApplyCreditOk(w: World, t: nat, out: Outcome, i: nat)
    requires Ready(w, t, out) && i < |w.ledger|
    ensures CreditOk(Apply(w, t, out), w.ledger[i])
  {
    assert CreditOk(w, w.ledger[i]);
    assert Credited(w, w.ledger[i].tradeNo);
  }

  lemma ApplyLedgerOk(w: World, t: nat, out: Outcome)
    requires Ready(w, t, out)
    ensures LedgerOk(Apply(w, t, out))
  {
    var n, w' := NumberOf(w, t), Apply(w, t, out);
    if n in w.orders && w.orders[n].status == Pending { PendingIsUnsettled(w, n); }
    forall i | 0 <= i < |w.ledger| ensures CreditOk(w', w.ledger[i]) { ApplyCreditOk(w, t, out, i); }
    forall i, j | 0 <= i < j < |w'.ledger| ensures w'.ledger[i].tradeNo != w'.ledger[j].tradeNo {
      if j == |w.ledger| { assert !Credited(w, n); }
    }
  }

  lemma ApplyActivationsOk(w: World, t: nat, out: Outcome)
    requires Ready(w, t, out)
    ensures ActivationsOk(Apply(w, t, out))
  {
  }

  lemma ApplySuccessOk(w: World, t: nat, out: Outcome)
    requires Ready(w, t, out) && SuccessOk(w)
    ensures SuccessOk(Apply(w, t, out))
  {
    var n, w' := NumberOf(w, t), Apply(w, t, out);
    forall m | Settled(w', m) ensures Explained(w', m) {
      if out.pay.Some? && m == n {
        assert w'.ledger[|w.ledger|].tradeNo == n;
      } else if Activates(out) && m == n {
        assert w'.activations[|w.activations|] == n;
      } else if !Settled(w, m) {
        assert Paying(w', t, n);
      } else if Credited(w, m) {
        var i :| 0 <= i < |w.ledger| && w.ledger[i].tradeNo == m;
        assert w'.ledger[i].tradeNo == m;
      } else if m !in w.unpaid && m !in w.activations {
        var u :| Paying(w, u, m);
        if u != t { assert Paying(w', u, m); }
      }
    }
  }

  lemma ApplyBalanceOk(w: World, t: nat, out: Outcome)
    requires Ready(w, t, out) && BalanceOk(w)
    ensures BalanceOk(Apply(w, t, out))
  {
    var w' := Apply(w, t, out);
    assert out.pay.Some? ==> w'.ledger[..|w'.ledger| - 1] == w.ledger;
  }

  lemma PerformInv(w: World, t: nat, ok: bool, subOk: bool)
    requires WorldInv(w) && t < |w.work| && w.lock.threads[t].pc == Inside && w.work[t] != Finished
    requires w.work[t].EpaySaved? ==> NumberOf(w, t) in w.orders
    ensures WorldInv(Perform(w, t, ok, subOk))
  {
    var out := Chosen(w, t, ok, subOk);
    assert CopyOk(w, t);
    ChosenIsSound(w, t, ok, subOk);
    ApplyOwnCopy(w, t, out);
    // The lock keeps every other handler away from the order.
    MutualExclusion(w.lock);
    forall u | 0 <= u < |w.work| && u != t ensures CopyOk(Apply(w, t, out), u) {
      assert CopyOk(w, u);
      ApplyOtherCopy(w, t, out, u);
    }
    ApplyLedgerOk(w, t, out);
    ApplyActivationsOk(w, t, out);
    ApplySuccessOk(w, t, out);
    ApplyBalanceOk(w, t, out);
  }

  // ---------------------------------------------------------------------------
  // The other steps
  // ---------------------------------------------------------------------------

  lemma LockMoveInv(w: World, t: nat, w': World)
    requires WorldInv(w) && LockMove(w, t, w')
    ensures WorldInv(w')
  {
    StepInv(w.lock, t);
    assert Attached(w.lock.threads[t].pc) ==> UserOf(w.lock, t, NumberOf(w, t));
    StepFrame(w.lock, t);
    KeepsNumbers(w, w');
  }

  lemma ArriveInv(w: World, t: nat, n: TradeNo, h: Handler, w': World)
    requires WorldInv(w) && Arrive(w, t, n, h, w')
    ensures WorldInv(w')
  {
    BeginInv(w.lock, t, n);
    assert CopyOk(w, t);
    KeepsNumbers(w, w');
  }

  /** Steps that leave the database alone and only move handlers without a private copy. */
  lemma KeepsNumbers(w: World, w': World)
    requires Shaped(w) && CopiesOk(w) && LedgerOk(w) && ActivationsOk(w) && SuccessOk(w) && BalanceOk(w)
    requires w' == w.(lock := w'.lock, work := w'.work) && |w'.work| == |w'.lock.threads| == |w.work|
    requires forall u :: 0 <= u < |w.work| ==>
               || (w'.work[u] == w.work[u] && w'.lock.threads[u].tradeNo == NumberOf(w, u)
                   && (w'.lock.threads[u] == w.lock.threads[u] || w.lock.threads[u].pc != Inside
                       || w.work[u] == Finished))
               || (w.lock.threads[u].pc == Idle && w'.work[u].Waiting?)
    ensures Shaped(w') && CopiesOk(w') && LedgerOk(w') && ActivationsOk(w') && SuccessOk(w') && BalanceOk(w')
  {
    forall u | 0 <= u < |w.work| ensures CopyOk(w', u) { assert CopyOk(w, u); }
    forall i | 0 <= i < |w'.ledger| ensures CreditOk(w', w'.ledger[i]) { assert CreditOk(w, w.ledger[i]); }
    forall n | Settled(w', n) ensures Explained(w', n) {
      assert Settled(w, n);
      if !Credited(w, n) && n !in w.unpaid && n !in w.activations {
        var u :| Paying(w, u, n);
        assert CopyOk(w, u);
        assert Paying(w', u, n);
      }
    }
  }

  /** Only pending rows are added, and no successful subscription order is touched. */
  ghost predicate OnlyAdds(w: World, w': World) {
    && w' == w.(orders := w'.orders, subs := w'.subs, placed := w'.placed) && w.placed <= w'.placed
    && (forall n :: n in w.orders ==>
        n in w'.orders && w'.orders[n] == w.orders[n] && (n in w'.placed ==> n in w.placed))
    && (forall n :: n in w'.orders && n !in w.orders ==>
          w'.orders[n].status == Pending && n in w'.placed && w'.orders[n].user in w.balance)
    && (forall n :: n in w.subs ==> n in w'.subs && (w.subs[n].status == Success ==> w'.subs[n] == w.subs[n]))
    && (forall n :: n in w'.subs ==> w'.subs[n].user in w.balance)
  }

  lemma OutsideOnlyAdds(w: World, w': World)
    requires Shaped(w) && Outside(w, w')
    ensures OnlyAdds(w, w')
  {
  }

  lemma OutsideInv(w: World, w': World)
    requires WorldInv(w) && OnlyAdds(w, w')
    ensures WorldInv(w')
  {
    forall u | 0 <= u < |w.work| ensures CopyOk(w', u) { assert CopyOk(w, u); }
    forall i | 0 <= i < |w'.ledger| ensures CreditOk(w', w'.ledger[i]) { assert CreditOk(w, w.ledger[i]); }
    forall m | Settled(w', m) ensures Explained(w', m) {
      assert Settled(w, m);
      if !Credited(w, m) && m !in w.unpaid && m !in w.activations {
        var u :| Paying(w, u, m);
        assert Paying(w', u, m);
      }
    }
  }

  lemma NextInv(w: World, w': World)
    requires WorldInv(w) && Next(w, w')
    ensures WorldInv(w')
  {
    if t: nat, ok, subOk :| PerformStep(w, t, ok, subOk, w') {
      PerformInv(w, t, ok, subOk);
    } else if t: nat :| LockMove(w, t, w') {
      LockMoveInv(w, t, w');
    } else if t: nat, n, h :| Arrive(w, t, n, h, w') {
      ArriveInv(w, t, n, h, w');
    } else {
      OutsideOnlyAdds(w, w');
      OutsideInv(w, w');
    }
  }

  // ---------------------------------------------------------------------------
  // Whole runs
  // ---------------------------------------------------------------------------

  /**
   A decided order never changes again, unless a subscription is started under its number, and even then
   a success stays one; and nothing recorded is taken back.
   */
  ghost predicate OrderGrows(w: World, w': World, n: TradeNo)
    requires n in w.orders
  {
    && n in w'.orders && SameOrder(w.orders[n], w'.orders[n])
    && (w.orders[n].status == Success ==> w'.orders[n].status == Success)
    && (w.orders[n].status != Pending && n !in w'.activations ==> w'.orders[n] == w.orders[n])
  }

  ghost predicate Grows(w: World, w': World) {
    && (forall n :: n in w.orders ==> OrderGrows(w, w', n) && (n in w'.placed ==> n in w.placed))
    && w.ledger <= w'.ledger && w.unpaid <= w'.unpaid && w.activations <= w'.activations
    && w'.start == w.start && w'.before == w.before && w'.perUnit == w.perUnit
  }

  lemma PerformGrows(w: World, t: nat, ok: bool, subOk: bool, w': World)
    requires WorldInv(w) && PerformStep(w, t, ok, subOk, w')
    ensures Grows(w, w')
  {
    assert CopyOk(w, t);
    ChosenIsSound(w, t, ok, subOk);
    assert Activates(Chosen(w, t, ok, subOk)) ==> w'.activations[|w.activations|] == NumberOf(w, t);
  }

  /** Nothing in the database changes. */
  lemma SameDatabaseGrows(w: World, w': World)
    requires w' == w.(lock := w'.lock, work := w'.work)
    ensures Grows(w, w')
  {
  }

  lemma OutsideGrows(w: World, w': World)
    requires OnlyAdds(w, w')
    ensures Grows(w, w')
  {
  }

  lemma NextGrows(w: World, w': World)
    requires WorldInv(w) && Next(w, w')
    ensures Grows(w, w')
  {
    if t: nat, ok, subOk :| PerformStep(w, t, ok, subOk, w') {
      PerformGrows(w, t, ok, subOk, w');
    } else if Outside(w, w') {
      OutsideOnlyAdds(w, w');
      OutsideGrows(w, w');
    } else {
      SameDatabaseGrows(w, w');
    }
  }

  lemma GrowsOn(w: World, w': World, w'': World)
    requires Grows(w, w') && Grows(w', w'')
    ensures Grows(w, w'')
  {
    forall n | n in w.orders ensures OrderGrows(w, w'', n) {
      assert OrderGrows(w, w', n) && OrderGrows(w', w'', n);
      assert n in w'.activations ==> n in w''.activations;
    }
  }

  ghost predicate IsRun(run: seq<World>) {
    |run| > 0 && Init(run[0]) && forall i :: 0 <= i < |run| - 1 ==> Next(run[i], run[i + 1])
  }

  lemma {:induction false} RunInv(run: seq<World>, i: nat)
    requires IsRun(run) && i < |run|
    ensures WorldInv(run[i])
  {
    if i == 0 {
      InitWorldInv(run[0]);
    } else {
      RunInv(run, i - 1);
      NextInv(run[i - 1], run[i - 1 + 1]);
    }
  }

  ghost predicate GrowsAt(run: seq<World>, i: nat)
    requires i + 1 < |run|
  {
    Grows(run[i], run[i + 1])
  }

  lemma StepGrows(run: seq<World>, i: nat)
    requires IsRun(run) && i + 1 < |run|
    ensures GrowsAt(run, i)
  {
    RunInv(run, i);
    NextGrows(run[i], run[i + 1]);
  }

  lemma {:induction false} GrowthChains(run: seq<World>, i: nat, j: nat)
    requires i <= j < |run| && forall k: nat :: k + 1 < |run| ==> GrowsAt(run, k)
    ensures Grows(run[i], run[j])
  {
    if i < j {
      GrowthChains(run, i, j - 1);
      assert GrowsAt(run, j - 1);
      GrowsOn(run[i], run[j - 1], run[j]);
    }
  }

  lemma RunGrows(run: seq<World>, i: nat, j: nat)
    requires IsRun(run) && i <= j < |run|
    ensures Grows(run[i], run[j])
  {
    forall k: nat | k + 1 < |run| ensures GrowsAt(run, k) { StepGrows(run, k); }
    GrowthChains(run, i, j);
  }

  /** No number stands for a top-up order and for a subscription. */
  ghost predicate Apart(w: World) {
    forall n :: n in w.placed ==> n !in w.subs
  }

  ghost predicate AtRest(w: World) {
    forall t :: 0 <= t < |w.lock.threads| ==> w.lock.threads[t].pc == Idle
  }

  /**
   Over every run of repeated and concurrent notifications: no order is credited twice and no subscription
   started twice; credits go to top-up orders that were pending when the run began or placed since, for
   their worth and to their user; and every balance has grown by exactly the credits of its user.
   */
  lemma CreditsOverRuns(run: seq<World>, k: nat)
    requires IsRun(run) && k < |run|
    ensures var w := run[k];
      && (forall i, j :: 0 <= i < j < |w.ledger| ==> w.ledger[i].tradeNo != w.ledger[j].tradeNo)
      && (forall i, j :: 0 <= i < j < |w.activations| ==> w.activations[i] != w.activations[j])
      && (forall i :: 0 <= i < |w.ledger| ==>
            var c := w.ledger[i];
            && CreditOk(w, c)
            && (c.tradeNo in run[0].orders ==> run[0].orders[c.tradeNo].status == Pending))
      && (forall u :: u in w.balance ==>
            u in run[0].balance && w.balance[u] == run[0].balance[u] + Earned(w.ledger, u))
  {
    RunInv(run, k);
    RunGrows(run, 0, k);
    var w := run[k];
    forall i | 0 <= i < |w.ledger| && w.ledger[i].tradeNo in run[0].orders
      ensures run[0].orders[w.ledger[i].tradeNo].status == Pending
    {
      assert CreditOk(w, w.ledger[i]);
    }
  }

  /**
   Once all handlers have returned, an order that became successful without a credit is one whose quota
   write failed, or a subscription that was started. If the numbers of top-ups and subscriptions are
   apart, those are exactly the orders without a credit.
   */
  lemma SuccessWithoutCredit(run: seq<World>, k: nat, n: TradeNo)
    requires IsRun(run) && k < |run| && AtRest(run[k]) && Settled(run[k], n)
    ensures var w := run[k];
      && (!Credited(w, n) ==> n in w.unpaid || n in w.activations)
      && (n in w.unpaid ==> !Credited(w, n))
      && (Apart(w) ==> (!Credited(w, n) <==> n in w.unpaid || n in w.activations))
  {
    RunInv(run, k);
    var w := run[k];
    forall t | 0 <= t < |w.work| ensures !Paying(w, t, n) { assert CopyOk(w, t); }
    assert Explained(w, n);
    if Credited(w, n) {
      var i :| 0 <= i < |w.ledger| && w.ledger[i].tradeNo == n;
      assert CreditOk(w, w.ledger[i]);
    }
  }

  /** Paying for a subscription marks a row successful, starts the subscription and credits nothing. */
  lemma SubscriptionIsNotCredited(w: World, t: nat, n: TradeNo)
    requires t < |w.work| == |w.lock.threads| && w.work[t] == Waiting(StripeFulfil) && NumberOf(w, t) == n
    requires n in w.subs && w.subs[n].provider == Stripe && w.subs[n].status == Pending && n !in w.orders
    ensures var w' := Perform(w, t, true, true);
            && n in w'.orders && w'.orders[n].status == Success && w'.subs[n].status == Success
            && w'.ledger == w.ledger && w'.balance == w.balance && w'.activations == w.activations + [n]
  {
  }

  /** Whatever is credited stays successful: no later handler, Stripe or other, turns it into a failure. */
  lemma CreditedStaysSuccessful(run: seq<World>, i: nat, j: nat, n: TradeNo)
    requires IsRun(run) && i <= j < |run| && Credited(run[i], n)
    ensures Credited(run[j], n) && n in run[i].orders && n in run[j].orders
    ensures SameOrder(run[i].orders[n], run[j].orders[n]) && run[j].orders[n].status == Success
    ensures n !in run[j].activations ==> run[j].orders[n] == run[i].orders[n]
  {
    RunInv(run, i);
    RunGrows(run, i, j);
    var k :| 0 <= k < |run[i].ledger| && run[i].ledger[k].tradeNo == n;
    assert run[j].ledger[k].tradeNo == n;
    assert CreditOk(run[i], run[i].ledger[k]);
    assert OrderGrows(run[i], run[j], n);
  }

  /** It is the lock that prevents the second credit: two handlers inside at once would both pay. */
  lemma LockIsNeeded(w: World, n: TradeNo)
    requires |w.work| == |w.lock.threads| == 2 && NumberOf(w, 0) == NumberOf(w, 1) == n
    requires w.work == [Waiting(EpayNotify("alipay")), Waiting(EpayNotify("alipay"))]
    requires n in w.orders && w.orders[n].provider == Epay && w.orders[n].status == Pending && w.ledger == []
    requires EpayQuota(w.orders[n], w.perUnit) >= 0.0
    ensures var w1 := Perform(Perform(w, 0, true, true), 1, true, true);
            var w2 := Perform(Perform(w1, 0, true, true), 0, true, true);
            var w3 := Perform(Perform(w2, 1, true, true), 1, true, true);
            |w3.ledger| == 2 && w3.ledger[0].tradeNo == w3.ledger[1].tradeNo == n
  {
    var w1 := Perform(Perform(w, 0, true, true), 1, true, true);
    var o := w.orders[n].(payMethod := "alipay", status := Success);
    assert w1.work == [EpayLoaded(o), EpayLoaded(o)];
    var w2 := Perform(Perform(w1, 0, true, true), 0, true, true);
    assert w2.work == [Finished, EpayLoaded(o)] && |w2.ledger| == 1;
  }
}
