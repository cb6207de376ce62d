/**
 What each transaction does to balances, rows and log, read off the tables before and after: who pays,
 how much, in which direction, and when a request is refused.
 */
module CreditEffects {
  import opened Arithmetic
  import opened Foundations
  import opened Text
  import Sums
  import opened CreditTables
  import opened CreditInvariants
  import opened CreditSteps
  import opened AlipayOrders
  import opened CreditRuns
  import opened CreditTheorems

  /**
   One user's credits move by these amounts, everybody else's stay, and exactly one row is logged: the
   change of the available credits with what they came to.
   */
  ghost predicate Moves(
    t: Tables, t': Tables, user: nat, available: int, reserved: int, kind: TxKind, related: nat)
  {
    && t'.log == t.log + [Transaction(user, kind, available, Available(t, user) + available, related)]
    && MovesSilently(t, t', user, available, reserved)
  }

  ghost predicate MovesSilently(t: Tables, t': Tables, user: nat, available: int, reserved: int) {
    && t'.balances.Keys == t.balances.Keys + {user}
    && Available(t', user) == Available(t, user) + available
    && ReservedBalance(t', user) == ReservedBalance(t, user) + reserved
    && forall v: nat :: v != user ==>
         Available(t', v) == Available(t, v) && ReservedBalance(t', v) == ReservedBalance(t, v)
  }

  // ----- Direct writers -----

  /** Five credits once, when the user has no balance yet. */
  lemma SignupEffect(t: Tables, user: nat)
    ensures var s := GrantSignupBonus(t, user);
            && (s.reply.Ok? <==> user !in t.balances)
            && (s.reply.Refused? ==> s.tables == t)
            && (s.reply.Ok? ==>
                  Moves(t, s.tables, user, 5, 0, SignupBonus, user)
                  && s.tables == t.(balances := s.tables.balances, log := s.tables.log))
  {
  }

  /** A grant adds the amount, a deduction takes it, and a deduction needs that much. */
  lemma AdjustEffect(t: Tables, user: nat, deduct: bool, amount: int)
    requires amount > 0
    ensures var s := AdjustCredits(t, user, deduct, amount);
            && (s.reply.Ok? <==> !deduct || Available(t, user) >= amount)
            && (s.reply.Refused? ==> s.reply == Refused(CreditsInsufficient) && s.tables == t)
            && (s.reply.Ok? ==>
                  && s.reply.value == Available(t, user) + (if deduct then -amount else amount)
                  && Moves(t, s.tables, user, if deduct then -amount else amount, 0,
                           if deduct then ManualDeduct else ManualTopUp, 0)
                  && s.tables == t.(balances := s.tables.balances, log := s.tables.log))
  {
  }

  /** A generation takes its price, or one credit when none is set, and needs that much. */
  lemma ChargeEffect(t: Tables, user: nat, creditsCost: int, record: nat)
    ensures var s, cost := ChargeGeneration(t, user, creditsCost, record), if creditsCost > 0 then creditsCost else 1;
            && (s.reply.Ok? <==> user in t.balances && Available(t, user) >= cost)
            && (s.reply.Refused? ==> s.reply == Refused(CreditsInsufficient) && s.tables == t)
            && (s.reply.Ok? ==>
                  && s.reply.value == Available(t, user) - cost
                  && Moves(t, s.tables, user, -cost, 0, GenerationCharge, record)
                  && s.tables == t.(balances := s.tables.balances, log := s.tables.log))
  {
  }

  // ----- Reservations -----

  predicate NotBlank(key: string) {
    exists i :: 0 <= i < |key| && !IsSpace(key[i])
  }

  predicate Usable(q: ReserveRequest) {
    q.user != 0 && q.project != 0 && q.amount > 0 && NotBlank(q.key)
  }

  /** A fresh key: the amount moves from available to reserved, and a row with all of it still reserved appears. */
  lemma ReserveEffect(t: Tables, q: ReserveRequest)
    requires forall i :: 0 <= i < |t.reservations| ==>
               !(t.reservations[i].user == q.user && t.reservations[i].key == q.key)
    ensures var s, id := Reserve(t, q), |t.reservations| + 1;
            && (s.reply == Refused(InvalidInput) <==> !Usable(q))
            && (s.reply.Ok? <==> Usable(q) && q.user in t.balances && Available(t, q.user) >= q.amount)
            && (s.reply.Refused? ==> s.tables == t)
            && (s.reply.Ok? ==>
                  && s.reply.value == ReservationSnapshot(id, q.amount, 0, 0, Available(t, q.user) - q.amount)
                  && Moves(t, s.tables, q.user, -q.amount, q.amount, CommerceReserve, id)
                  && s.tables.reservations == t.reservations + [Reservation(
                       q.user, q.project, q.batch, q.scopeType, q.scopeKey, q.key, Reserved, q.amount, q.amount, 0, 0)]
                  && s.tables == t.(balances := s.tables.balances, log := s.tables.log,
                                    reservations := s.tables.reservations))
  {
  }

  /** What the answer tells of a reservation whose key is taken: its row as it stands and what the user has left. */
  lemma ReserveAnswer(t: Tables, q: ReserveRequest, id: nat)
    requires FindReservation(t.reservations, q.user, q.key) == Some(id) && Usable(q) && q.user in t.balances
    ensures var r := t.reservations[id - 1];
            Reserve(t, q).reply ==
            if r.project == q.project && r.batch == q.batch && r.scopeType == q.scopeType && r.scopeKey == q.scopeKey
               && r.total == q.amount
            then Ok(ReservationSnapshot(id, r.reserved, r.settled, r.released, t.balances[q.user].available))
            else Refused(IdempotencyConflict)
  {
  }

  /** A fresh batch key is accepted when there are items, all with a positive cost, and the user can pay their sum. */
  predicate Payable(t: Tables, q: BatchRequest) {
    && NotBlank(q.key) && q.user != 0 && q.project != 0
    && q.holds != [] && (forall i :: 0 <= i < |q.holds| ==> q.holds[i] > 0)
    && q.user in t.balances && t.balances[q.user].available >= Sums.Sum(q.holds)
    && (forall i :: 0 <= i < |t.reservations| ==>
          !(t.reservations[i].user == q.user && t.reservations[i].key == "commerce:batch:" + q.key))
  }

  lemma {:induction false} PositiveSum(s: seq<int>)
    requires forall i :: 0 <= i < |s| ==> s[i] > 0
    ensures Sums.Sum(s) > 0 <==> s != []
    ensures Sums.Sum(s) >= 0
  {
    if s != [] {
      PositiveSum(s[..|s| - 1]);
    }
  }

  lemma PrefixedKeyIsNotBlank(key: string)
    ensures NotBlank("commerce:batch:" + key) && !IsBlank("commerce:batch:" + key)
  {
    assert ("commerce:batch:" + key)[0] == 'c' && !IsSpace('c');
  }

  lemma SubmitIsAcceptedIff(t: Tables, q: BatchRequest)
    requires ReservationsSound(t)
    requires forall i :: 0 <= i < |t.batches| ==> !(t.batches[i].user == q.user && t.batches[i].key == q.key)
    ensures SubmitBatch(t, q).reply.Ok? <==> Payable(t, q)
    ensures SubmitBatch(t, q).reply.Refused? ==> SubmitBatch(t, q).tables == t
  {
    PrefixedKeyIsNotBlank(q.key);
    if forall i :: 0 <= i < |q.holds| ==> q.holds[i] > 0 {
      PositiveSum(q.holds);
      var batch := |t.batches| + 1;
      forall id: nat | ValidId(t.reservations, id) ensures t.reservations[id - 1].batch != Some(batch) {
        assert ReservationSound(t, id);
      }
    }
  }

  /** Then the sum moves from available to reserved, and the batch appears with one item for each cost. */
  lemma SubmitEffect(t: Tables, q: BatchRequest)
    requires ReservationsSound(t) && SubmitBatch(t, q).reply.Ok?
    requires forall i :: 0 <= i < |t.batches| ==> !(t.batches[i].user == q.user && t.batches[i].key == q.key)
    ensures var s, total := SubmitBatch(t, q), Sums.Sum(q.holds);
            var batch, reservation := |t.batches| + 1, |t.reservations| + 1;
            && s.reply == Ok(batch)
            && Moves(t, s.tables, q.user, -total, total, CommerceReserve, reservation)
            && s.tables.batches == t.batches + [Batch(q.user, q.project, q.key, q.digest)]
            && |s.tables.reservations| == reservation && s.tables.reservations[..reservation - 1] == t.reservations
            && s.tables.reservations[reservation - 1] == Reservation(
                 q.user, q.project, Some(batch), "batch", Digits(batch), "commerce:batch:" + q.key,
                 Reserved, total, total, 0, 0)
            && |s.tables.items| == |t.items| + |q.holds| && s.tables.items[..|t.items|] == t.items
            && (forall i :: 0 <= i < |q.holds| ==>
                  s.tables.items[|t.items| + i] == Item(q.user, q.project, batch, reservation, q.holds[i], 0, 0))
  {
    FreshBatchReserves(t, q);
  }

  // ----- Claims -----

  /** The request names the item row, its hold and a reservation of the same user, project and batch. */
  predicate NamesItem(t: Tables, q: ClaimRequest) {
    && ValidId(t.items, q.item) && ValidId(t.reservations, q.reservation)
    && var i, r := t.items[q.item - 1], t.reservations[q.reservation - 1];
       && i.user == q.user && i.project == q.project && i.batch == q.batch && i.reservation == q.reservation
       && i.held == q.held
       && r.user == q.user && r.project == q.project && (r.batch == None || r.batch == Some(q.batch))
  }

  predicate IdsGiven(q: ClaimRequest) {
    q.user != 0 && q.project != 0 && q.batch != 0 && q.reservation != 0 && q.item != 0 && q.held >= 0
  }

  /** What a claim leaves behind: this much of the hold is paid, the rest goes back to the user. */
  ghost predicate ClaimLeaves(t: Tables, t': Tables, q: ClaimRequest, actual: int, paid: int)
    requires NamesItem(t, q)
  {
    var back := q.held - paid;
    var r := t.reservations[q.reservation - 1];
    var left := r.reserved - q.held;
    && MovesSilently(t, t', q.user, back, -q.held)
    && t'.log == t.log + (if back == 0 then [] else
         [Transaction(q.user, CommerceRelease, back, Available(t, q.user) + back, q.item)])
    && t'.items == t.items[q.item - 1 := t.items[q.item - 1].(settled := paid, released := back)]
    && t'.reservations == t.reservations[q.reservation - 1 := r.(
         reserved := left, settled := r.settled + paid, released := r.released + back,
         status := if left > 0 then r.status else if r.settled + paid == 0 then Released else Settled)]
    && t'.settlements == t.settlements[q.item := Settlement(
         q.user, q.project, q.batch, q.reservation, q.key, q.held, actual, paid, back, actual > q.held)]
    && t' == t.(balances := t'.balances, log := t'.log, items := t'.items, reservations := t'.reservations,
                settlements := t'.settlements)
  }

  predicate Covered(t: Tables, q: ClaimRequest)
    requires NamesItem(t, q)
  {
    && q.user in t.balances && t.balances[q.user].reserved >= q.held
    && t.reservations[q.reservation - 1].reserved >= q.held
  }

  /** An unclaimed item: the actual cost is paid, at least nothing and at most the hold. */
  lemma SettleEffect(t: Tables, q: ClaimRequest, actual: int)
    requires q.item !in t.settlements && IdsGiven(q)
    ensures var s := SettleItem(t, q, actual);
            && (s.reply.Ok? <==> NamesItem(t, q) && Covered(t, q))
            && (s.reply.Refused? ==> s.reply == Refused(CreditInvariant) && s.tables == t)
            && (s.reply.Ok? ==> ClaimLeaves(t, s.tables, q, Max(actual, 0), Min(Max(actual, 0), q.held)))
  {
  }

  /** A release pays nothing. */
  lemma ReleaseEffect(t: Tables, q: ClaimRequest)
    requires q.item !in t.settlements && IdsGiven(q)
    ensures var s := ReleaseItem(t, q);
            && (s.reply.Ok? <==> NamesItem(t, q) && Covered(t, q))
            && (s.reply.Refused? ==> s.reply == Refused(CreditInvariant) && s.tables == t)
            && (s.reply.Ok? ==> ClaimLeaves(t, s.tables, q, 0, 0))
  {
  }

  /** A claimed item: nothing changes, and the answer depends on four ids of the first claim. */
  lemma ClaimAgain(t: Tables, q: ClaimRequest, actual: int)
    requires q.item in t.settlements && IdsGiven(q)
    ensures var e := t.settlements[q.item];
            var same := e.user == q.user && e.project == q.project
                        && e.batch == q.batch && e.reservation == q.reservation;
            && SettleItem(t, q, actual) == Step(t, if same then Ok(()) else Refused(CreditInvariant))
            && ReleaseItem(t, q) == Step(t, if same then Ok(()) else Refused(CreditInvariant))
  {
  }

  lemma ClaimWithoutIds(t: Tables, q: ClaimRequest, actual: int)
    requires !IdsGiven(q)
    ensures SettleItem(t, q, actual) == ReleaseItem(t, q) == Step(t, Refused(InvalidInput))
  {
  }

  // ----- Queue billing -----

  lemma EnqueueEffect(t: Tables, user: nat, cost: int)
    requires cost > 0
    ensures var s, id := EnqueueJob(t, user, cost), |t.jobs| + 1;
            && (s.reply.Ok? <==> user in t.balances && Available(t, user) >= cost)
            && (s.reply.Refused? ==> s.reply == Refused(CreditsInsufficient) && s.tables == t)
            && (s.reply.Ok? ==>
                  && s.reply == Ok(id)
                  && Moves(t, s.tables, user, -cost, cost, GenerationReserve, id)
                  && s.tables.jobs == t.jobs + [QueueJob(user, cost, cost, false, false)]
                  && s.tables == t.(balances := s.tables.balances, log := s.tables.log, jobs := s.tables.jobs))
  {
  }

  /** The first settlement takes the cost from the reserved credits and leaves the available ones alone. */
  lemma SettleJobEffect(t: Tables, id: nat)
    requires ValidId(t.jobs, id) && t.jobs[id - 1].user in t.balances
    ensures var s, j := SettleJob(t, id), t.jobs[id - 1];
            && (s.reply.Ok? <==> j.settled || ReservedBalance(t, j.user) >= j.cost)
            && (s.reply.Ok? ==> s.reply.value == Available(t, j.user))
            && (s.reply.Refused? || j.settled ==> s.tables == t)
            && (s.reply.Ok? && !j.settled ==>
                  && Moves(t, s.tables, j.user, 0, -j.cost, GenerationSettle, id)
                  && s.tables.jobs == t.jobs[id - 1 := QueueJob(j.user, j.cost, 0, true, j.released)]
                  && s.tables == t.(balances := s.tables.balances, log := s.tables.log, jobs := s.tables.jobs))
  {
  }

  /** A release gives back what the job still holds, unless it was settled or released before. */
  lemma ReleaseJobEffect(t: Tables, id: nat)
    requires ValidId(t.jobs, id)
    ensures var s, j := ReleaseJob(t, id), t.jobs[id - 1];
            var open := !j.settled && !j.released && j.reserved > 0;
            && (s.reply.Ok? <==> (open ==> j.user in t.balances && ReservedBalance(t, j.user) >= j.reserved))
            && (s.reply.Refused? || !open ==> s.tables == t)
            && (s.reply.Ok? && open ==>
                  && Moves(t, s.tables, j.user, j.reserved, -j.reserved, GenerationRelease, id)
                  && s.tables.jobs == t.jobs[id - 1 := QueueJob(j.user, j.cost, 0, j.settled, true)]
                  && s.tables == t.(balances := s.tables.balances, log := s.tables.log, jobs := s.tables.jobs))
  {
  }

  // ----- Orders -----

  lemma PlaceOrderEffect(t: Tables, user: nat, amountCents: int, credits: int, now: int)
    ensures var s := PlaceOrder(t, user, amountCents, credits, now);
            && (s.reply.Ok? <==> amountCents > 0 && credits > 0)
            && (s.reply.Ok? ==>
                  && s.reply == Ok(|t.orders| + 1)
                  && s.tables == t.(orders := t.orders + [Order(user, amountCents, credits, now, Pending)]))
            && (s.reply.Refused? ==> s.tables == t)
  {
  }

  /** Every answer to a callback, by its own condition on the order row. */
  lemma CheckAnswersIff(t: Tables, order: nat, trade: Trade)
    ensures CheckCallback(t, order, trade) == Rejected(OrderNotFound) <==> !(1 <= order <= |t.orders|)
    ensures 1 <= order <= |t.orders| ==>
              var c, o := CheckCallback(t, order, trade), t.orders[order - 1];
              var sameAmount := trade.amountCents == Some(o.amountCents);
              && (c == Rejected(AmountMismatch) <==> !sameAmount)
              && (c == AlreadyPaid <==> sameAmount && o.status == Paid)
              && (c == Rejected(InvalidStatus) <==>
                    sameAmount && o.status != Paid && trade.status in {TradeClosed, OtherTrade})
              && (c == Proceed(order, o) <==>
                    sameAmount && o.status != Paid && trade.status in {TradeSuccess, TradeFinished})
  {
  }

  /** Committing a callback pays the pending order and moves its credits to the buyer, with one log row. */
  lemma SettleOrderEffect(t: Tables, order: nat, loaded: Order)
    requires OrdersSound(t) && ValidId(t.orders, order) && SameSale(loaded, t.orders[order - 1])
    ensures var t', o := SettleCallback(t, order, loaded), t.orders[order - 1];
            && (o.status != Pending ==> t' == t)
            && (o.status == Pending ==>
                  && Moves(t, t', o.user, o.credits, 0, PaymentTopUp, order)
                  && t' == t.(balances := t'.balances, log := t'.log,
                              orders := t.orders[order - 1 := o.(status := Paid)]))
  {
    if t.orders[order - 1].status == Pending {
      PendingHasNoTopUp(t, order);
    }
  }

  /** A callback repeated after it was credited is answered as already paid, and changes nothing. */
  lemma RepeatedCallbackIsAlreadyPaid(t: Tables, order: nat, trade: Trade)
    requires CheckCallback(t, order, trade).Proceed? && t.orders[order - 1].status == Pending
    ensures var t' := SettleCallback(t, order, CheckCallback(t, order, trade).loaded);
            CheckCallback(t', order, trade) == AlreadyPaid
  {
  }

  // ----- At the end of any run -----

  lemma {:induction false} CallbacksStay(s: System, ops: seq<Op>, i: nat)
    requires i < |s.callbacks|
    ensures i < |Run(s, ops).callbacks| && Run(s, ops).callbacks[i] == s.callbacks[i]
  {
    if ops != [] {
      CallbacksStay(s, ops[..|ops| - 1], i);
    }
  }

  /** The order's credits move if it was still pending; otherwise nothing changes. */
  ghost predicate Credits(t: Tables, t': Tables, order: nat)
    requires ValidId(t.orders, order)
  {
    var o := t.orders[order - 1];
    if o.status != Pending then t' == t
    else Moves(t, t', o.user, o.credits, 0, PaymentTopUp, order)
         && t'.orders == t.orders[order - 1 := o.(status := Paid)]
  }

  lemma CommitCredits(u: System, i: nat)
    requires SystemSound(u) && i < |u.callbacks|
    ensures ValidId(u.tables.orders, u.callbacks[i].order)
    ensures Credits(u.tables, ApplyToOrders(u, CommitCallback(i)), u.callbacks[i].order)
  {
    var c := u.callbacks[i];
    assert CallbackSound(u.tables, c);
    SettleOrderEffect(u.tables, c.order, c.loaded);
  }

  /**
   No payment is lost: a callback that passed its checks credits the order whenever it commits, whatever
   ran in between, as long as the order is still pending; otherwise it changes nothing.
   */
  lemma PaymentIsCredited(s: System, order: nat, trade: Trade, ops: seq<Op>)
    requires SystemSound(s) && CheckCallback(s.tables, order, trade).Proceed?
    ensures var u := Run(Apply(s, LoadCallback(order, trade)), ops);
            && ValidId(u.tables.orders, order)
            && Credits(u.tables, Apply(u, CommitCallback(|s.callbacks|)).tables, order)
  {
    var loaded, i := Apply(s, LoadCallback(order, trade)), |s.callbacks|;
    assert i < |loaded.callbacks| && loaded.callbacks[i].order == order;
    StepKeepsSystemSound(s, LoadCallback(order, trade));
    RunsStaySound(loaded, ops);
    CallbacksStay(loaded, ops, i);
    CommitCredits(Run(loaded, ops), i);
  }

  /**
   No hold is stuck: after any run without a late settlement, an item that nobody claimed can be settled
   for any cost, or given back, and that is what it then costs.
   */
  lemma OpenItemPays(s: System, ops: seq<Op>, item: nat, key: string, actual: int)
    requires SystemSound(s) && Inv(s.tables) && NoLateSettlement(s, ops)
    requires var t := Run(s, ops).tables; ValidId(t.items, item) && item !in t.settlements
    ensures var u := Run(s, ops);
            var q := RequestFor(u.tables.items[item - 1], item, key);
            && NamesItem(u.tables, q)
            && ClaimLeaves(u.tables, Apply(u, Settle(q, actual)).tables, q, Max(actual, 0), Min(Max(actual, 0), q.held))
            && ClaimLeaves(u.tables, Apply(u, Release(q)).tables, q, 0, 0)
  {
    RunsKeepReservedBacked(s, ops);
    var u := Run(s, ops);
    OpenItemTakes(u.tables, item, key, actual);
  }

  lemma ItemHasIds(t: Tables, item: nat, key: string)
    requires Inv(t) && ValidId(t.items, item)
    ensures IdsGiven(RequestFor(t.items[item - 1], item, key))
  {
    assert ItemSound(t, item);
    assert ReservationSound(t, t.items[item - 1].reservation);
  }

  lemma OpenItemTakes(t: Tables, item: nat, key: string, actual: int)
    requires Inv(t) && ValidId(t.items, item) && item !in t.settlements
    ensures var q := RequestFor(t.items[item - 1], item, key);
            && NamesItem(t, q)
            && ClaimLeaves(t, SettleItem(t, q, actual).tables, q, Max(actual, 0), Min(Max(actual, 0), q.held))
            && ClaimLeaves(t, ReleaseItem(t, q).tables, q, 0, 0)
  {
    var q := RequestFor(t.items[item - 1], item, key);
    OpenItemIsClaimable(t, q, actual);
    ItemHasIds(t, item, key);
    SettleEffect(t, q, actual);
    ReleaseEffect(t, q);
  }
}
