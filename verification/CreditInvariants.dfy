/** What every committed transaction keeps true of the credit tables. */
module CreditInvariants {
  import opened Foundations
  import opened Sums
  import opened CreditTables
  import opened AlipayOrders

  // ----- Columns to be summed -----

  function AmountColumn(log: seq<Transaction>, user: nat): seq<int> {
    seq(|log|, i requires 0 <= i < |log| => if log[i].user == user then log[i].amount else 0)
  }

  function ReservationColumn(rs: seq<Reservation>, user: nat): seq<int> {
    seq(|rs|, i requires 0 <= i < |rs| => if rs[i].user == user then rs[i].reserved else 0)
  }

  function JobColumn(jobs: seq<QueueJob>, user: nat): seq<int> {
    seq(|jobs|, i requires 0 <= i < |jobs| => if jobs[i].user == user then jobs[i].reserved else 0)
  }

  /** The holds of a reservation's items that nobody has claimed yet. */
  function OpenHoldColumn(items: seq<Item>, settlements: map<nat, Settlement>, reservation: nat): seq<int> {
    seq(|items|, i requires 0 <= i < |items| =>
      if items[i].reservation == reservation && i + 1 !in settlements then items[i].held else 0)
  }

  function SettledColumn(items: seq<Item>, reservation: nat): seq<int> {
    seq(|items|, i requires 0 <= i < |items| => if items[i].reservation == reservation then items[i].settled else 0)
  }

  function ReleasedColumn(items: seq<Item>, reservation: nat): seq<int> {
    seq(|items|, i requires 0 <= i < |items| => if items[i].reservation == reservation then items[i].released else 0)
  }

  /** The balance recorded by a user's latest log row, zero before the first one. */
  function LastBalance(log: seq<Transaction>, user: nat): int {
    if log == [] then 0
    else if log[|log| - 1].user == user then log[|log| - 1].balanceAfter
    else LastBalance(log[..|log| - 1], user)
  }

  function TopUps(log: seq<Transaction>, order: nat): nat {
    if log == [] then 0
    else TopUps(log[..|log| - 1], order) + (if IsTopUp(log[|log| - 1], order) then 1 else 0)
  }

  // ----- The invariant, one table at a time -----

  ghost predicate LogAgreesFor(t: Tables, user: nat) {
    && Available(t, user) >= 0
    && Available(t, user) == Sum(AmountColumn(t.log, user))
    && Available(t, user) == LastBalance(t.log, user)
  }

  /** Available credits are the sum of the log, and what the last log row says. */
  ghost predicate LogAgrees(t: Tables) {
    forall user: nat :: LogAgreesFor(t, user)
  }

  ghost predicate ReservedBackedFor(t: Tables, user: nat) {
    ReservedBalance(t, user) == Sum(ReservationColumn(t.reservations, user)) + Sum(JobColumn(t.jobs, user))
  }

  /** Reserved credits are what the user's reservations and queued jobs still hold. */
  ghost predicate ReservedBacked(t: Tables) {
    forall user: nat :: ReservedBackedFor(t, user)
  }

  ghost predicate ReservationSound(t: Tables, id: nat)
    requires ValidId(t.reservations, id)
  {
    var r := t.reservations[id - 1];
    && r.user in t.balances && r.user != 0 && r.project != 0
    && r.total > 0 && r.reserved >= 0 && r.settled >= 0 && r.released >= 0
    && r.reserved + r.settled + r.released == r.total
    && r.status == (if r.reserved > 0 then Reserved else if r.settled == 0 then Released else Settled)
    && r.batch.Some? && ValidId(t.batches, r.batch.value)
    && r.reserved == Sum(OpenHoldColumn(t.items, t.settlements, id))
    && r.settled == Sum(SettledColumn(t.items, id))
    && r.released == Sum(ReleasedColumn(t.items, id))
  }

  ghost predicate ReservationsSound(t: Tables) {
    forall id: nat :: ValidId(t.reservations, id) ==> ReservationSound(t, id)
  }

  ghost predicate ItemSound(t: Tables, id: nat)
    requires ValidId(t.items, id)
  {
    var i := t.items[id - 1];
    && i.held > 0
    && ValidId(t.reservations, i.reservation)
    && (var r := t.reservations[i.reservation - 1];
        r.user == i.user && r.project == i.project && r.batch == Some(i.batch))
    && (id !in t.settlements ==> i.settled == 0 && i.released == 0)
    && (id in t.settlements ==>
          var e := t.settlements[id];
          && e.user == i.user && e.project == i.project && e.batch == i.batch && e.reservation == i.reservation
          && e.held == i.held && e.settled == i.settled && e.released == i.released
          && e.settled >= 0 && e.released >= 0 && e.settled + e.released == e.held)
  }

  ghost predicate ItemsSound(t: Tables) {
    && (forall id: nat :: ValidId(t.items, id) ==> ItemSound(t, id))
    && (forall id: nat :: id in t.settlements ==> ValidId(t.items, id))
  }

  ghost predicate JobSound(t: Tables, id: nat)
    requires ValidId(t.jobs, id)
  {
    var j := t.jobs[id - 1];
    && j.user in t.balances
    && j.cost > 0
    && j.reserved == (if j.settled || j.released then 0 else j.cost)
  }

  ghost predicate JobsSound(t: Tables) {
    forall id: nat :: ValidId(t.jobs, id) ==> JobSound(t, id)
  }

  /** An order is credited once when paid, and not at all before or otherwise. */
  ghost predicate OrderSound(t: Tables, id: nat)
    requires ValidId(t.orders, id)
  {
    var o := t.orders[id - 1];
    && o.credits > 0
    && match o.status
       case Paid => TopUps(t.log, id) == 1
       case Refunded => TopUps(t.log, id) <= 1
       case _ => TopUps(t.log, id) == 0
  }

  ghost predicate OrdersSound(t: Tables) {
    && (forall id: nat :: ValidId(t.orders, id) ==> OrderSound(t, id))
    && (forall i :: 0 <= i < |t.log| && t.log[i].kind == PaymentTopUp ==>
          && ValidId(t.orders, t.log[i].related)
          && t.log[i].user == t.orders[t.log[i].related - 1].user
          && t.log[i].amount == t.orders[t.log[i].related - 1].credits)
  }

  /** Everything but the reserved balance. */
  ghost predicate Sound(t: Tables) {
    LogAgrees(t) && ReservationsSound(t) && ItemsSound(t) && JobsSound(t) && OrdersSound(t)
  }

  ghost predicate Inv(t: Tables) {
    Sound(t) && ReservedBacked(t)
  }

  lemma EmptySatisfiesInv()
    ensures Inv(EMPTY)
  {
  }

  // ----- How one change moves the sums -----

  lemma TopUpsAppend(log: seq<Transaction>, x: Transaction, order: nat)
    ensures TopUps(log + [x], order) == TopUps(log, order) + (if IsTopUp(x, order) then 1 else 0)
  {
    assert (log + [x])[..|log|] == log;
  }

  lemma {:induction false} NoTopUps(log: seq<Transaction>, order: nat)
    ensures TopUps(log, order) == 0 <==> forall i :: 0 <= i < |log| ==> !IsTopUp(log[i], order)
  {
    if log != [] {
      NoTopUps(log[..|log| - 1], order);
    }
  }

  /** One balance changes by exactly what one new log row says. */
  lemma PostKeepsLog(t: Tables, t': Tables, user: nat, b: Balance, x: Transaction)
    requires LogAgrees(t)
    requires t'.balances == t.balances[user := b] && t'.log == t.log + [x]
    requires x.user == user && x.balanceAfter == b.available
    requires b.available == Available(t, user) + x.amount && b.available >= 0
    ensures LogAgrees(t')
  {
    forall v: nat ensures LogAgreesFor(t', v) {
      assert LogAgreesFor(t, v);
      var amount := if v == user then x.amount else 0;
      assert AmountColumn(t'.log, v) == AmountColumn(t.log, v) + [amount];
      SumAppend(AmountColumn(t.log, v), amount);
      assert t'.log[..|t.log|] == t.log;
    }
  }

  lemma SilentKeepsLog(t: Tables, t': Tables)
    requires LogAgrees(t) && t'.log == t.log
    requires forall user: nat :: Available(t', user) == Available(t, user)
    ensures LogAgrees(t')
  {
    forall v: nat ensures LogAgreesFor(t', v) {
      assert LogAgreesFor(t, v);
    }
  }

  /** A log row that is not a top-up changes no order's count. */
  lemma OrdersIgnoreRow(t: Tables, t': Tables, x: Transaction)
    requires OrdersSound(t) && t'.orders == t.orders && t'.log == t.log + [x] && x.kind != PaymentTopUp
    ensures OrdersSound(t')
  {
    forall id: nat | ValidId(t'.orders, id) ensures OrderSound(t', id) {
      assert OrderSound(t, id);
      TopUpsAppend(t.log, x, id);
    }
  }

  lemma ReservedRowBound(t: Tables, id: nat)
    requires ReservationsSound(t) && JobsSound(t) && ReservedBacked(t) && ValidId(t.reservations, id)
    ensures t.reservations[id - 1].reserved <= ReservedBalance(t, t.reservations[id - 1].user)
  {
    var user := t.reservations[id - 1].user;
    assert ReservedBackedFor(t, user);
    forall i | 0 <= i < |t.reservations| ensures ReservationColumn(t.reservations, user)[i] >= 0 {
      assert ReservationSound(t, i + 1);
    }
    forall i | 0 <= i < |t.jobs| ensures JobColumn(t.jobs, user)[i] >= 0 {
      assert JobSound(t, i + 1);
    }
    SumBoundsRow(ReservationColumn(t.reservations, user), id - 1);
    SumNonNegative(JobColumn(t.jobs, user));
  }

  lemma OpenHoldBound(t: Tables, item: nat)
    requires ReservationsSound(t) && ItemsSound(t) && ValidId(t.items, item) && item !in t.settlements
    ensures ItemSound(t, item)
    ensures t.items[item - 1].held <= t.reservations[t.items[item - 1].reservation - 1].reserved
  {
    assert ItemSound(t, item);
    var r := t.items[item - 1].reservation;
    assert ReservationSound(t, r);
    var column := OpenHoldColumn(t.items, t.settlements, r);
    forall i | 0 <= i < |column| ensures column[i] >= 0 {
      assert ItemSound(t, i + 1);
    }
    SumBoundsRow(column, item - 1);
  }
}
