/** Each transaction keeps the credit invariant. */
module CreditSteps {
  import opened Sums
  import opened CreditTables
  import opened AlipayOrders
  import opened CreditInvariants

  /** The tables that neither a plain posting nor an order transition touches. */
  ghost predicate SameCommerce(t: Tables, t': Tables) {
    && t'.batches == t.batches && t'.reservations == t.reservations && t'.items == t.items
    && t'.settlements == t.settlements && t.balances.Keys <= t'.balances.Keys
  }

  lemma CommerceUntouched(t: Tables, t': Tables)
    requires ReservationsSound(t) && ItemsSound(t) && SameCommerce(t, t')
    ensures ReservationsSound(t') && ItemsSound(t')
  {
    forall id: nat | ValidId(t'.reservations, id) ensures ReservationSound(t', id) {
      assert ReservationSound(t, id);
    }
    forall id: nat | ValidId(t'.items, id) ensures ItemSound(t', id) {
      assert ItemSound(t, id);
    }
  }

  lemma JobsUntouched(t: Tables, t': Tables)
    requires JobsSound(t) && t'.jobs == t.jobs && t.balances.Keys <= t'.balances.Keys
    ensures JobsSound(t')
  {
    forall id: nat | ValidId(t'.jobs, id) ensures JobSound(t', id) {
      assert JobSound(t, id);
    }
  }

  lemma ReservedUntouched(t: Tables, t': Tables)
    requires ReservedBacked(t) && t'.reservations == t.reservations && t'.jobs == t.jobs
    requires forall user: nat :: ReservedBalance(t', user) == ReservedBalance(t, user)
    ensures ReservedBacked(t')
  {
    forall user: nat ensures ReservedBackedFor(t', user) {
      assert ReservedBackedFor(t, user);
    }
  }

  /** A posting by one of the direct writers. */
  lemma PostKeepsInv(t: Tables, user: nat, b: Balance, kind: TxKind, amount: int, related: nat)
    requires Sound(t) && kind != PaymentTopUp
    requires b.available == Available(t, user) + amount && b.available >= 0
    requires b.reserved == ReservedBalance(t, user)
    ensures Sound(Post(t, user, b, kind, amount, related))
    ensures ReservedBacked(t) ==> Inv(Post(t, user, b, kind, amount, related))
  {
    var t' := Post(t, user, b, kind, amount, related);
    var x := Transaction(user, kind, amount, b.available, related);
    PostKeepsLog(t, t', user, b, x);
    CommerceUntouched(t, t');
    JobsUntouched(t, t');
    OrdersIgnoreRow(t, t', x);
    if ReservedBacked(t) {
      ReservedUntouched(t, t');
    }
  }

  lemma SignupKeepsInv(t: Tables, user: nat)
    requires Sound(t)
    ensures Sound(GrantSignupBonus(t, user).tables)
    ensures ReservedBacked(t) ==> Inv(GrantSignupBonus(t, user).tables)
  {
    if user !in t.balances {
      PostKeepsInv(t, user, Balance(SIGNUP_BONUS_CREDITS, 0), SignupBonus, SIGNUP_BONUS_CREDITS, user);
    }
  }

  lemma AdjustKeepsInv(t: Tables, user: nat, deduct: bool, amount: int)
    requires Sound(t)
    ensures Sound(AdjustCredits(t, user, deduct, amount).tables)
    ensures ReservedBacked(t) ==> Inv(AdjustCredits(t, user, deduct, amount).tables)
  {
    var s := AdjustCredits(t, user, deduct, amount);
    assert LogAgreesFor(t, user);
    if s.reply.Ok? {
      var delta := if deduct then -amount else amount;
      var b := BalanceRow(t, user);
      PostKeepsInv(t, user, b.(available := b.available + delta),
                   if deduct then ManualDeduct else ManualTopUp, delta, 0);
    }
  }

  lemma ChargeKeepsInv(t: Tables, user: nat, creditsCost: int, record: nat)
    requires Sound(t)
    ensures Sound(ChargeGeneration(t, user, creditsCost, record).tables)
    ensures ReservedBacked(t) ==> Inv(ChargeGeneration(t, user, creditsCost, record).tables)
  {
    var s := ChargeGeneration(t, user, creditsCost, record);
    if s.reply.Ok? {
      var cost := RecordCost(creditsCost);
      var b := t.balances[user];
      PostKeepsInv(t, user, b.(available := b.available - cost), GenerationCharge, -cost, record);
    }
  }

  // ----- Submitting a batch -----

  /** No reservation can carry the id of a batch that does not exist yet, so the reserve is never a replay. */
  lemma FreshBatchReserves(t: Tables, q: BatchRequest)
    requires ReservationsSound(t)
    requires SubmitBatch(t, q).reply.Ok? && FindBatch(t.batches, q.user, q.key).None?
    ensures
      var batch := |t.batches| + 1;
      var r := BatchReserve(q, batch);
      var b := t.balances[q.user];
      && !InvalidReserve(r) && q.user in t.balances && b.available >= r.amount
      && SubmitBatch(t, q).tables ==
         Post(t.(batches := t.batches + [Batch(q.user, q.project, q.key, q.digest)],
                 reservations := t.reservations + [NewReservation(r)],
                 items := t.items + NewItems(q, batch, |t.reservations| + 1)),
              q.user, Balance(b.available - r.amount, b.reserved + r.amount),
              CommerceReserve, -r.amount, |t.reservations| + 1)
  {
    var batch := |t.batches| + 1;
    var r := BatchReserve(q, batch);
    forall id: nat | ValidId(t.reservations, id) ensures t.reservations[id - 1].batch != r.batch {
      assert ReservationSound(t, id);
    }
  }

  lemma NewItemsColumns(t: Tables, q: BatchRequest, batch: nat, id: nat)
    requires ItemsSound(t) && id == |t.reservations| + 1
    ensures
      var items := t.items + NewItems(q, batch, id);
      && Sum(OpenHoldColumn(items, t.settlements, id)) == Sum(q.holds)
      && Sum(SettledColumn(items, id)) == 0
      && Sum(ReleasedColumn(items, id)) == 0
  {
    var items := t.items + NewItems(q, batch, id);
    forall i | 0 <= i < |t.items| ensures t.items[i].reservation != id {
      assert ItemSound(t, i + 1);
    }
    assert OpenHoldColumn(items, t.settlements, id) == OpenHoldColumn(t.items, t.settlements, id) + q.holds;
    SumConcat(OpenHoldColumn(t.items, t.settlements, id), q.holds);
    SumZero(OpenHoldColumn(t.items, t.settlements, id));
    SumZero(SettledColumn(items, id));
    SumZero(ReleasedColumn(items, id));
  }

  lemma OldItemsColumns(t: Tables, q: BatchRequest, batch: nat, id: nat, other: nat)
    requires id != other
    ensures
      var items := t.items + NewItems(q, batch, id);
      && Sum(OpenHoldColumn(items, t.settlements, other)) == Sum(OpenHoldColumn(t.items, t.settlements, other))
      && Sum(SettledColumn(items, other)) == Sum(SettledColumn(t.items, other))
      && Sum(ReleasedColumn(items, other)) == Sum(ReleasedColumn(t.items, other))
  {
    var items := t.items + NewItems(q, batch, id);
    var zeros := seq(|q.holds|, i => 0);
    SumZero(zeros);
    assert OpenHoldColumn(items, t.settlements, other) == OpenHoldColumn(t.items, t.settlements, other) + zeros;
    SumConcat(OpenHoldColumn(t.items, t.settlements, other), zeros);
    assert SettledColumn(items, other) == SettledColumn(t.items, other) + zeros;
    SumConcat(SettledColumn(t.items, other), zeros);
    assert ReleasedColumn(items, other) == ReleasedColumn(t.items, other) + zeros;
    SumConcat(ReleasedColumn(t.items, other), zeros);
  }

  lemma SubmitKeepsReservations(t: Tables, q: BatchRequest)
    requires ReservationsSound(t) && ItemsSound(t)
    ensures ReservationsSound(SubmitBatch(t, q).tables)
  {
    var t' := SubmitBatch(t, q).tables;
    if t' != t {
      FreshBatchReserves(t, q);
      var id, batch := |t.reservations| + 1, |t.batches| + 1;
      forall k: nat | ValidId(t'.reservations, k) ensures ReservationSound(t', k) {
        if k == id {
          NewItemsColumns(t, q, batch, id);
        } else {
          assert ReservationSound(t, k);
          OldItemsColumns(t, q, batch, id, k);
        }
      }
    }
  }

  lemma AddedItemsAreSound(t: Tables, t': Tables, q: BatchRequest, batch: nat)
    requires ItemsSound(t) && t'.settlements == t.settlements
    requires forall i :: 0 <= i < |q.holds| ==> q.holds[i] > 0
    requires t'.reservations == t.reservations + [NewReservation(BatchReserve(q, batch))]
    requires t'.items == t.items + NewItems(q, batch, |t.reservations| + 1)
    ensures ItemsSound(t')
  {
    forall k: nat | ValidId(t'.items, k) ensures ItemSound(t', k) {
      if k <= |t.items| {
        assert ItemSound(t, k);
      } else {
        assert q.holds[k - 1 - |t.items|] > 0;
      }
    }
  }

  lemma SubmitKeepsItems(t: Tables, q: BatchRequest)
    requires ReservationsSound(t) && ItemsSound(t)
    ensures ItemsSound(SubmitBatch(t, q).tables)
  {
    if SubmitBatch(t, q).tables != t {
      FreshBatchReserves(t, q);
      AddedItemsAreSound(t, SubmitBatch(t, q).tables, q, |t.batches| + 1);
    }
  }

  lemma SubmitKeepsInv(t: Tables, q: BatchRequest)
    requires Sound(t)
    ensures Sound(SubmitBatch(t, q).tables)
    ensures ReservedBacked(t) ==> Inv(SubmitBatch(t, q).tables)
  {
    var t' := SubmitBatch(t, q).tables;
    SubmitKeepsReservations(t, q);
    SubmitKeepsItems(t, q);
    if t' != t {
      FreshBatchReserves(t, q);
      var amount, b := Sum(q.holds), t.balances[q.user];
      var x := t'.log[|t.log|];
      PostKeepsLog(t, t', q.user, t'.balances[q.user], x);
      JobsUntouched(t, t');
      OrdersIgnoreRow(t, t', x);
      if ReservedBacked(t) {
        forall user: nat ensures ReservedBackedFor(t', user) {
          assert ReservedBackedFor(t, user);
          var row := if user == q.user then amount else 0;
          assert ReservationColumn(t'.reservations, user) == ReservationColumn(t.reservations, user) + [row];
          SumAppend(ReservationColumn(t.reservations, user), row);
        }
      }
    }
  }

  // ----- Claiming an item -----

  ghost predicate GoodSplit(held: int, s: Split) {
    s.settled >= 0 && s.released >= 0 && s.settled + s.released == held
  }

  lemma ConsumeColumns(t: Tables, q: ClaimRequest, s: Split, id: nat)
    requires ItemsSound(t) && CanConsume(t, q) && q.item !in t.settlements
    ensures
      var t' := ConsumeItem(t, q, s);
      var mine := q.reservation == id;
      && Sum(OpenHoldColumn(t'.items, t'.settlements, id))
         == Sum(OpenHoldColumn(t.items, t.settlements, id)) - (if mine then q.held else 0)
      && Sum(SettledColumn(t'.items, id)) == Sum(SettledColumn(t.items, id)) + (if mine then s.settled else 0)
      && Sum(ReleasedColumn(t'.items, id)) == Sum(ReleasedColumn(t.items, id)) + (if mine then s.released else 0)
  {
    var t' := ConsumeItem(t, q, s);
    var k := q.item - 1;
    assert ItemSound(t, q.item);
    var open, settled, released :=
      OpenHoldColumn(t.items, t.settlements, id), SettledColumn(t.items, id), ReleasedColumn(t.items, id);
    var mine := q.reservation == id;
    assert OpenHoldColumn(t'.items, t'.settlements, id) == open[k := 0];
    SumUpdate(open, k, 0);
    assert SettledColumn(t'.items, id) == settled[k := if mine then s.settled else 0];
    SumUpdate(settled, k, if mine then s.settled else 0);
    assert ReleasedColumn(t'.items, id) == released[k := if mine then s.released else 0];
    SumUpdate(released, k, if mine then s.released else 0);
  }

  lemma ConsumedReservationIsSound(t: Tables, q: ClaimRequest, s: Split, id: nat)
    requires ReservationsSound(t) && ItemsSound(t) && CanConsume(t, q) && q.item !in t.settlements
    requires GoodSplit(q.held, s) && ValidId(t.reservations, id)
    ensures ReservationSound(ConsumeItem(t, q, s), id)
  {
    assert ReservationSound(t, id);
    ConsumeColumns(t, q, s, id);
  }

  lemma ConsumeKeepsReservations(t: Tables, q: ClaimRequest, s: Split)
    requires ReservationsSound(t) && ItemsSound(t) && CanConsume(t, q) && q.item !in t.settlements
    requires GoodSplit(q.held, s)
    ensures ReservationsSound(ConsumeItem(t, q, s))
  {
    var t' := ConsumeItem(t, q, s);
    assert ItemSound(t, q.item);
    forall id: nat | ValidId(t'.reservations, id) ensures ReservationSound(t', id) {
      ConsumedReservationIsSound(t, q, s, id);
    }
  }

  lemma ConsumeKeepsItems(t: Tables, q: ClaimRequest, s: Split)
    requires ItemsSound(t) && CanConsume(t, q) && q.item !in t.settlements && GoodSplit(q.held, s)
    ensures ItemsSound(ConsumeItem(t, q, s))
  {
    var t' := ConsumeItem(t, q, s);
    assert ItemSound(t, q.item);
    forall id: nat | ValidId(t'.items, id) ensures ItemSound(t', id) {
      assert ItemSound(t, id);
    }
  }

  lemma ConsumeKeepsLog(t: Tables, q: ClaimRequest, s: Split)
    requires LogAgrees(t) && OrdersSound(t) && CanConsume(t, q) && GoodSplit(q.held, s)
    ensures LogAgrees(ConsumeItem(t, q, s)) && OrdersSound(ConsumeItem(t, q, s))
  {
    var t' := ConsumeItem(t, q, s);
    if s.released == 0 {
      assert t'.log == t.log;
      SilentKeepsLog(t, t');
      forall id: nat | ValidId(t'.orders, id) ensures OrderSound(t', id) {
        assert OrderSound(t, id);
      }
    } else {
      var x := t'.log[|t.log|];
      assert LogAgreesFor(t, q.user);
      PostKeepsLog(t, t', q.user, t'.balances[q.user], x);
      OrdersIgnoreRow(t, t', x);
    }
  }

  lemma ConsumeKeepsReserved(t: Tables, q: ClaimRequest, s: Split)
    requires ReservedBacked(t) && CanConsume(t, q)
    ensures ReservedBacked(ConsumeItem(t, q, s))
  {
    var t' := ConsumeItem(t, q, s);
    forall user: nat ensures ReservedBackedFor(t', user) {
      assert ReservedBackedFor(t, user);
      var column, k := ReservationColumn(t.reservations, user), q.reservation - 1;
      var row := if user == q.user then t'.reservations[k].reserved else 0;
      assert ReservationColumn(t'.reservations, user) == column[k := row];
      SumUpdate(column, k, row);
    }
  }

  lemma ConsumeKeepsInv(t: Tables, q: ClaimRequest, s: Split)
    requires Sound(t) && CanConsume(t, q) && q.item !in t.settlements && GoodSplit(q.held, s)
    ensures Sound(ConsumeItem(t, q, s))
    ensures ReservedBacked(t) ==> Inv(ConsumeItem(t, q, s))
  {
    ConsumeKeepsReservations(t, q, s);
    ConsumeKeepsItems(t, q, s);
    ConsumeKeepsLog(t, q, s);
    JobsUntouched(t, ConsumeItem(t, q, s));
    if ReservedBacked(t) {
      ConsumeKeepsReserved(t, q, s);
    }
  }

  lemma ClaimKeepsInv(t: Tables, q: ClaimRequest, s: Split)
    requires Sound(t) && GoodSplit(q.held, s)
    ensures Sound(ClaimItem(t, q, s).tables)
    ensures ReservedBacked(t) ==> Inv(ClaimItem(t, q, s).tables)
  {
    if q.item !in t.settlements && CanConsume(t, q) {
      ConsumeKeepsInv(t, q, s);
    }
  }

  // ----- Queue jobs -----

  lemma JobRowKeepsReserved(t: Tables, t': Tables, id: nat, delta: int)
    requires ReservedBacked(t) && ValidId(t.jobs, id)
    requires t'.reservations == t.reservations && |t'.jobs| == |t.jobs|
    requires t'.jobs == t.jobs[id - 1 := t'.jobs[id - 1]] && t'.jobs[id - 1].user == t.jobs[id - 1].user
    requires forall user: nat ::
               ReservedBalance(t', user) ==
               ReservedBalance(t, user) + (if user == t.jobs[id - 1].user then delta else 0)
    ensures ReservedBacked(t') <==> delta == t'.jobs[id - 1].reserved - t.jobs[id - 1].reserved
  {
    var owner := t.jobs[id - 1].user;
    forall user: nat
      ensures Sum(JobColumn(t'.jobs, user)) == Sum(JobColumn(t.jobs, user))
                + (if user == owner then t'.jobs[id - 1].reserved - t.jobs[id - 1].reserved else 0)
      ensures ReservedBackedFor(t, user)
    {
      var column := JobColumn(t.jobs, user);
      var row := if user == owner then t'.jobs[id - 1].reserved else 0;
      assert JobColumn(t'.jobs, user) == column[id - 1 := row];
      SumUpdate(column, id - 1, row);
    }
    if delta == t'.jobs[id - 1].reserved - t.jobs[id - 1].reserved {
      forall user: nat ensures ReservedBackedFor(t', user) {
        assert ReservedBackedFor(t, user);
      }
    } else {
      assert ReservedBackedFor(t, owner);
      assert !ReservedBackedFor(t', owner);
    }
  }

  lemma EnqueueKeepsInv(t: Tables, user: nat, cost: int)
    requires Sound(t) && cost > 0
    ensures Sound(EnqueueJob(t, user, cost).tables)
    ensures ReservedBacked(t) ==> Inv(EnqueueJob(t, user, cost).tables)
  {
    var t' := EnqueueJob(t, user, cost).tables;
    if t' != t {
      var x := t'.log[|t.log|];
      PostKeepsLog(t, t', user, t'.balances[user], x);
      CommerceUntouched(t, t');
      OrdersIgnoreRow(t, t', x);
      forall id: nat | ValidId(t'.jobs, id) ensures JobSound(t', id) {
        if id <= |t.jobs| {
          assert JobSound(t, id);
        }
      }
      if ReservedBacked(t) {
        forall v: nat ensures ReservedBackedFor(t', v) {
          assert ReservedBackedFor(t, v);
          var row := if v == user then cost else 0;
          assert JobColumn(t'.jobs, v) == JobColumn(t.jobs, v) + [row];
          SumAppend(JobColumn(t.jobs, v), row);
        }
      }
    }
  }

  /** A settlement takes effect when the job is unsettled and the balance covers its cost. */
  predicate SettlesJob(t: Tables, id: nat) {
    ValidId(t.jobs, id) && !t.jobs[id - 1].settled
    && t.jobs[id - 1].user in t.balances && t.balances[t.jobs[id - 1].user].reserved >= t.jobs[id - 1].cost
  }

  lemma SettleJobKeepsSound(t: Tables, id: nat)
    requires Sound(t)
    ensures Sound(SettleJob(t, id).tables)
  {
    var t' := SettleJob(t, id).tables;
    if SettlesJob(t, id) {
      var j := t.jobs[id - 1];
      assert JobSound(t, id) && LogAgreesFor(t, j.user);
      PostKeepsLog(t, t', j.user, t'.balances[j.user], t'.log[|t.log|]);
      CommerceUntouched(t, t');
      OrdersIgnoreRow(t, t', t'.log[|t.log|]);
      forall k: nat | ValidId(t'.jobs, k) ensures JobSound(t', k) {
        assert JobSound(t, k);
      }
    }
  }

  /**
   Settling a queue job takes the job's cost out of the reserved balance without asking whether the
   hold was already released. The reserved balance stays backed exactly when it was not.
   */
  lemma SettleJobKeepsReservedIff(t: Tables, id: nat)
    requires Inv(t) && SettlesJob(t, id)
    ensures Inv(SettleJob(t, id).tables) <==> !t.jobs[id - 1].released
  {
    var t' := SettleJob(t, id).tables;
    SettleJobKeepsSound(t, id);
    assert JobSound(t, id);
    JobRowKeepsReserved(t, t', id, -t.jobs[id - 1].cost);
  }

  /** A settlement that does not take effect changes nothing. */
  lemma SettlementKeepsInvIff(t: Tables, id: nat)
    requires Inv(t)
    ensures Inv(SettleJob(t, id).tables) <==> !(SettlesJob(t, id) && t.jobs[id - 1].released)
  {
    if SettlesJob(t, id) {
      SettleJobKeepsReservedIff(t, id);
    }
  }

  lemma ReleaseJobKeepsInv(t: Tables, id: nat)
    requires Sound(t)
    ensures Sound(ReleaseJob(t, id).tables)
    ensures ReservedBacked(t) ==> Inv(ReleaseJob(t, id).tables)
  {
    var t' := ReleaseJob(t, id).tables;
    if t' != t {
      var j := t.jobs[id - 1];
      assert JobSound(t, id) && LogAgreesFor(t, j.user);
      PostKeepsLog(t, t', j.user, t'.balances[j.user], t'.log[|t.log|]);
      CommerceUntouched(t, t');
      OrdersIgnoreRow(t, t', t'.log[|t.log|]);
      forall k: nat | ValidId(t'.jobs, k) ensures JobSound(t', k) {
        assert JobSound(t, k);
      }
      if ReservedBacked(t) {
        JobRowKeepsReserved(t, t', id, -j.reserved);
      }
    }
  }

  // ----- Orders -----

  /** Order rows may change as long as buyers and credits stay and each status matches its top-ups. */
  lemma OrdersStep(t: Tables, t': Tables)
    requires Sound(t) && t' == t.(orders := t'.orders) && |t'.orders| >= |t.orders|
    requires forall i :: 0 <= i < |t.orders| ==>
               t'.orders[i].user == t.orders[i].user && t'.orders[i].credits == t.orders[i].credits
    requires forall id: nat :: ValidId(t'.orders, id) ==> OrderSound(t', id)
    ensures Sound(t')
    ensures ReservedBacked(t) ==> Inv(t')
  {
    SilentKeepsLog(t, t');
    CommerceUntouched(t, t');
    JobsUntouched(t, t');
    if ReservedBacked(t) {
      ReservedUntouched(t, t');
    }
  }

  lemma PlaceOrderKeepsInv(t: Tables, user: nat, amountCents: int, credits: int, now: int)
    requires Sound(t)
    ensures Sound(PlaceOrder(t, user, amountCents, credits, now).tables)
    ensures ReservedBacked(t) ==> Inv(PlaceOrder(t, user, amountCents, credits, now).tables)
  {
    var t' := PlaceOrder(t, user, amountCents, credits, now).tables;
    if t' != t {
      forall id: nat | ValidId(t'.orders, id) ensures OrderSound(t', id) {
        if id <= |t.orders| {
          assert OrderSound(t, id);
        } else {
          NoTopUps(t.log, id);
        }
      }
      OrdersStep(t, t');
    }
  }

  /** Nothing but order statuses changes, and those exactly where told. */
  ghost predicate OnlyMoves(t: Tables, t': Tables, moves: nat -> bool, status: OrderStatus) {
    && t' == t.(orders := t'.orders) && |t'.orders| == |t.orders|
    && forall id: nat :: ValidId(t.orders, id) ==>
         t'.orders[id - 1] == if moves(id) then t.orders[id - 1].(status := status) else t.orders[id - 1]
  }

  /** Exactly the named order moves to failed, and only from pending. */
  lemma CloseOrderKeepsInv(t: Tables, order: nat)
    requires Sound(t)
    ensures OnlyMoves(t, CloseOrder(t, order),
              (id: nat) => id == order && ValidId(t.orders, id) && t.orders[id - 1].status == Pending, Failed)
    ensures Sound(CloseOrder(t, order))
    ensures ReservedBacked(t) ==> Inv(CloseOrder(t, order))
  {
    var t' := CloseOrder(t, order);
    forall id: nat | ValidId(t'.orders, id) ensures OrderSound(t', id) {
      assert OrderSound(t, id);
    }
    OrdersStep(t, t');
  }

  /** Exactly the pending orders created before the cutoff move to expired. */
  lemma ExpireStaleKeepsInv(t: Tables, cutoff: int)
    requires Sound(t)
    ensures OnlyMoves(t, ExpireStale(t, cutoff),
              (id: nat) =>
                ValidId(t.orders, id) && t.orders[id - 1].status == Pending && t.orders[id - 1].createdAt < cutoff,
              Expired)
    ensures Sound(ExpireStale(t, cutoff))
    ensures ReservedBacked(t) ==> Inv(ExpireStale(t, cutoff))
  {
    var t' := ExpireStale(t, cutoff);
    forall id: nat | ValidId(t'.orders, id) ensures OrderSound(t', id) {
      assert OrderSound(t, id);
    }
    OrdersStep(t, t');
  }

  /** Exactly the named order moves to refunded, when the refund covers it; credits and log stay. */
  lemma CompleteRefundKeepsInv(t: Tables, order: nat, amountCents: int)
    requires Sound(t)
    ensures OnlyMoves(t, CompleteRefund(t, order, amountCents),
              (id: nat) => id == order && ValidId(t.orders, id) && amountCents >= t.orders[id - 1].amountCents,
              Refunded)
    ensures Sound(CompleteRefund(t, order, amountCents))
    ensures ReservedBacked(t) ==> Inv(CompleteRefund(t, order, amountCents))
  {
    var t' := CompleteRefund(t, order, amountCents);
    forall id: nat | ValidId(t'.orders, id) ensures OrderSound(t', id) {
      assert OrderSound(t, id);
    }
    OrdersStep(t, t');
  }

  /** The fields of an order that no transition changes. */
  predicate SameSale(a: Order, b: Order) {
    a.user == b.user && a.amountCents == b.amountCents && a.credits == b.credits && a.createdAt == b.createdAt
  }

  /** A pending order has no top-up yet, so the branch that finds one and skips the log row is unreachable. */
  lemma PendingHasNoTopUp(t: Tables, order: nat)
    requires OrdersSound(t) && ValidId(t.orders, order) && t.orders[order - 1].status == Pending
    ensures !HasTopUp(t, order)
  {
    assert OrderSound(t, order);
    NoTopUps(t.log, order);
  }

  lemma SettleCallbackKeepsInv(t: Tables, order: nat, loaded: Order)
    requires Sound(t) && ValidId(t.orders, order) && SameSale(loaded, t.orders[order - 1])
    ensures Sound(SettleCallback(t, order, loaded))
    ensures ReservedBacked(t) ==> Inv(SettleCallback(t, order, loaded))
  {
    var t' := SettleCallback(t, order, loaded);
    if t.orders[order - 1].status == Pending {
      PendingHasNoTopUp(t, order);
      assert OrderSound(t, order) && LogAgreesFor(t, loaded.user);
      var x := t'.log[|t.log|];
      PostKeepsLog(t, t', loaded.user, t'.balances[loaded.user], x);
      CommerceUntouched(t, t');
      JobsUntouched(t, t');
      forall id: nat | ValidId(t'.orders, id) ensures OrderSound(t', id) {
        assert OrderSound(t, id);
        TopUpsAppend(t.log, x, id);
      }
      if ReservedBacked(t) {
        ReservedUntouched(t, t');
      }
    }
  }
}
