/**
 Alipay orders and their callbacks. A callback (notify, active query or admin sync) first loads
 the order and checks the trade, then settles it with a compare-and-set; other callbacks and other
 order transitions may commit between the two halves.
 */
module AlipayOrders {
  import opened Foundations
  import opened CreditTables

  datatype TradeStatus = TradeSuccess | TradeFinished | TradeClosed | OtherTrade

  /** What Alipay reports: the parsed amount (None when it cannot be parsed) and the trade status. */
  datatype Trade = Trade(amountCents: Option<int>, status: TradeStatus)

  datatype CallbackError = OrderNotFound | AmountMismatch | InvalidStatus

  /** The first half of a callback either ends it or carries the loaded row to the second half. */
  datatype Check = Rejected(error: CallbackError) | AlreadyPaid | Proceed(order: nat, loaded: Order)

  predicate SuccessfulTrade(s: TradeStatus) {
    s == TradeSuccess || s == TradeFinished
  }

  function PlaceOrder(t: Tables, user: nat, amountCents: int, credits: int, now: int): Step<nat> {
    if amountCents <= 0 || credits <= 0 then Step(t, Refused(InvalidInput))
    else Step(t.(orders := t.orders + [Order(user, amountCents, credits, now, Pending)]), Ok(|t.orders| + 1))
  }

  function CheckCallback(t: Tables, order: nat, trade: Trade): Check {
    if !ValidId(t.orders, order) then Rejected(OrderNotFound)
    else
      var o := t.orders[order - 1];
      if trade.amountCents != Some(o.amountCents) then Rejected(AmountMismatch)
      else if o.status == Paid then AlreadyPaid
      else if !SuccessfulTrade(trade.status) then Rejected(InvalidStatus)
      else Proceed(order, o)
  }

  predicate IsTopUp(x: Transaction, order: nat) {
    x.kind == PaymentTopUp && x.related == order
  }

  predicate HasTopUp(t: Tables, order: nat) {
    exists i :: 0 <= i < |t.log| && IsTopUp(t.log[i], order)
  }

  /** Writes the whole loaded row back as paid, credits the buyer and logs the top-up once. */
  function CreditOrder(t: Tables, order: nat, loaded: Order): Tables
    requires ValidId(t.orders, order)
  {
    var b := BalanceRow(t, loaded.user);
    var b' := b.(available := b.available + loaded.credits);
    var t' := t.(orders := t.orders[order - 1 := loaded.(status := Paid)]);
    if HasTopUp(t, order) then t'.(balances := t.balances[loaded.user := b'])
    else Post(t', loaded.user, b', PaymentTopUp, loaded.credits, order)
  }

  function SettleCallback(t: Tables, order: nat, loaded: Order): Tables {
    if ValidId(t.orders, order) && t.orders[order - 1].status == Pending then CreditOrder(t, order, loaded)
    else t
  }

  function SetStatus(t: Tables, order: nat, status: OrderStatus): Tables
    requires ValidId(t.orders, order)
  {
    t.(orders := t.orders[order - 1 := t.orders[order - 1].(status := status)])
  }

  /** A query or an admin sync that finds the trade closed. */
  function CloseOrder(t: Tables, order: nat): Tables {
    if ValidId(t.orders, order) && t.orders[order - 1].status == Pending then SetStatus(t, order, Failed) else t
  }

  function Expire(o: Order, cutoff: int): Order {
    if o.status == Pending && o.createdAt < cutoff then o.(status := Expired) else o
  }

  function ExpireStale(t: Tables, cutoff: int): Tables {
    t.(orders := seq(|t.orders|, i requires 0 <= i < |t.orders| => Expire(t.orders[i], cutoff)))
  }

  /** A completed refund marks the order refunded when it covers the whole amount. */
  function CompleteRefund(t: Tables, order: nat, amountCents: int): Tables {
    if ValidId(t.orders, order) && amountCents >= t.orders[order - 1].amountCents
    then SetStatus(t, order, Refunded)
    else t
  }
}
