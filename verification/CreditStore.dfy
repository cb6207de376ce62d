/**
 The transactions themselves, statement by statement as the program issues them: rows are claimed,
 loaded and updated in sequence, and a refusal half-way is undone by rolling the transaction back.
 Each method is proved to leave exactly the tables that its specification function describes.
 */
module CreditStore {
  import opened Foundations
  import opened Sums
  import opened Text
  import opened CreditTables
  import opened AlipayOrders

  class Database {
    var balances: map<nat, Balance>
    var batches: seq<Batch>
    var reservations: seq<Reservation>
    var items: seq<Item>
    var settlements: map<nat, Settlement>
    var jobs: seq<QueueJob>
    var orders: seq<Order>
    var log: seq<Transaction>

    constructor ()
      ensures Rows() == EMPTY
    {
      balances, batches, reservations, items, settlements := map[], [], [], [], map[];
      jobs, orders, log := [], [], [];
    }

    function Rows(): Tables
      reads this
    {
      Tables(balances, batches, reservations, items, settlements, jobs, orders, log)
    }

    method Rollback(saved: Tables)
      modifies this
      ensures Rows() == saved
    {
      balances, batches, reservations, items, settlements :=
        saved.balances, saved.batches, saved.reservations, saved.items, saved.settlements;
      jobs, orders, log := saved.jobs, saved.orders, saved.log;
    }

    method CreateTransaction(user: nat, kind: TxKind, amount: int, balanceAfter: int, related: nat)
      modifies this`log
      ensures log == old(log) + [Transaction(user, kind, amount, balanceAfter, related)]
    {
      log := log + [Transaction(user, kind, amount, balanceAfter, related)];
    }

    // ----- Commerce ledger -----

    method ReserveTx(q: ReserveRequest) returns (r: Reply<ReservationSnapshot>)
      modifies this
      ensures Rows() == Reserve(old(Rows()), q).tables
      ensures r == Reserve(old(Rows()), q).reply
    {
      if q.user == 0 || q.project == 0 || q.amount <= 0 || IsBlank(q.key) {
        return Refused(InvalidInput);
      }
      var found := FindReservation(reservations, q.user, q.key);
      if found.Some? {
        var existing := reservations[found.value - 1];
        if !SameReservation(existing, q) {
          return Refused(IdempotencyConflict);
        }
        if q.user !in balances {
          return Refused(RowNotFound);
        }
        return Ok(ReservationSnapshot(
                    found.value, existing.reserved, existing.settled, existing.released, balances[q.user].available));
      }
      if !(q.user in balances && balances[q.user].available >= q.amount) {
        return Refused(CreditsInsufficient);
      }
      balances := balances[
        q.user := Balance(balances[q.user].available - q.amount, balances[q.user].reserved + q.amount)];
      reservations := reservations + [NewReservation(q)];
      var balance := balances[q.user];
      CreateTransaction(q.user, CommerceReserve, -q.amount, balance.available, |reservations|);
      r := Ok(ReservationSnapshot(|reservations|, q.amount, 0, 0, balance.available));
    }

    /** Inserts the claim row unless the item already has one; tells whether it did. */
    method ClaimSettlement(q: ClaimRequest, s: Split) returns (claimed: Reply<bool>)
      modifies this`settlements
      ensures claimed == (if q.item !in old(settlements) then Ok(true)
                          else if SameScope(old(settlements)[q.item], q) then Ok(false)
                          else Refused(CreditInvariant))
      ensures settlements == if q.item in old(settlements) then old(settlements)
                             else old(settlements)[q.item := NewSettlement(q, s)]
    {
      if q.item !in settlements {
        settlements := settlements[q.item := NewSettlement(q, s)];
        return Ok(true);
      }
      var existing := settlements[q.item];
      if existing.user != q.user || existing.project != q.project || existing.batch != q.batch
         || existing.reservation != q.reservation {
        return Refused(CreditInvariant);
      }
      claimed := Ok(false);
    }

    method MoveReservedCredits(user: nat, held: int, released: int) returns (moved: bool)
      modifies this`balances
      ensures moved <==> user in old(balances) && old(balances)[user].reserved >= held
      ensures !moved ==> balances == old(balances)
      ensures moved ==> balances == old(balances)[
                user := Balance(old(balances)[user].available + released, old(balances)[user].reserved - held)]
    {
      if !(user in balances && balances[user].reserved >= held) {
        return false;
      }
      balances := balances[user := Balance(balances[user].available + released, balances[user].reserved - held)];
      moved := true;
    }

    method UpdateReservationSettlement(id: nat, held: int, s: Split) returns (updated: bool)
      requires ValidId(reservations, id)
      modifies this`reservations
      ensures updated <==> old(reservations)[id - 1].reserved >= held
      ensures reservations ==
              if updated then old(reservations)[id - 1 := ConsumeHold(old(reservations)[id - 1], held, s)]
                              else old(reservations)
    {
      var r := reservations[id - 1];
      if r.reserved < held {
        return false;
      }
      r := r.(reserved := r.reserved - held, settled := r.settled + s.settled, released := r.released + s.released);
      reservations := reservations[id - 1 := r];
      if r.reserved == 0 {
        reservations := reservations[id - 1 := r.(status := if r.settled == 0 then Released else Settled)];
      }
      updated := true;
    }

    method CreateReleaseTransaction(user: nat, item: nat, released: int)
      requires user in balances
      modifies this`log
      ensures log == old(log) + (if released == 0 then [] else
                                   [Transaction(user, CommerceRelease, released, balances[user].available, item)])
    {
      if released != 0 {
        CreateTransaction(user, CommerceRelease, released, balances[user].available, item);
      }
    }

    /** The statements that settle and release share, in order; on a refusal the caller rolls back. */
    method ClaimItemTx(q: ClaimRequest, s: Split) returns (r: Reply<()>)
      modifies this
      ensures r == ClaimItem(old(Rows()), q, s).reply
      ensures r.Ok? ==> Rows() == ClaimItem(old(Rows()), q, s).tables
    {
      var claimed := ClaimSettlement(q, s);
      if claimed.Refused? {
        return Refused(claimed.error);
      }
      if !claimed.value {
        return Ok(());
      }
      if !InScope(Rows(), q) {
        return Refused(CreditInvariant);
      }
      var moved := MoveReservedCredits(q.user, q.held, s.released);
      if !moved {
        return Refused(CreditInvariant);
      }
      var updated := UpdateReservationSettlement(q.reservation, q.held, s);
      if !updated {
        return Refused(CreditInvariant);
      }
      items := items[q.item - 1 := items[q.item - 1].(settled := s.settled, released := s.released)];
      CreateReleaseTransaction(q.user, q.item, s.released);
      r := Ok(());
    }

    method SettleItemTx(q: ClaimRequest, actualCredits: int) returns (r: Reply<()>)
      modifies this
      ensures Rows() == SettleItem(old(Rows()), q, actualCredits).tables
      ensures r == SettleItem(old(Rows()), q, actualCredits).reply
    {
      var saved := Rows();
      if InvalidClaim(q) {
        return Refused(InvalidInput);
      }
      var actual := actualCredits;
      if actual < 0 {
        actual := 0;
      }
      var settled, released, exceedsHold := actual, 0, false;
      if actual < q.held {
        released := q.held - actual;
      } else if actual > q.held {
        settled, exceedsHold := q.held, true;
      }
      r := ClaimItemTx(q, Split(actual, settled, released, exceedsHold));
      if r.Refused? {
        Rollback(saved);
      }
    }

    method ReleaseItemTx(q: ClaimRequest) returns (r: Reply<()>)
      modifies this
      ensures Rows() == ReleaseItem(old(Rows()), q).tables
      ensures r == ReleaseItem(old(Rows()), q).reply
    {
      var saved := Rows();
      if InvalidClaim(q) {
        return Refused(InvalidInput);
      }
      r := ClaimItemTx(q, Split(0, 0, q.held, false));
      if r.Refused? {
        Rollback(saved);
      }
    }

    /** Adds up the costs of a batch, refusing a cost that is not positive. */
    static method BatchTotal(holds: seq<int>) returns (total: Option<int>)
      ensures total == if exists i :: 0 <= i < |holds| && holds[i] <= 0 then None else Some(Sum(holds))
    {
      var sum := 0;
      for i := 0 to |holds|
        invariant sum == Sum(holds[..i])
        invariant forall j :: 0 <= j < i ==> holds[j] > 0
      {
        if holds[i] <= 0 {
          return None;
        }
        assert holds[..i + 1] == holds[..i] + [holds[i]];
        SumAppend(holds[..i], holds[i]);
        sum := sum + holds[i];
      }
      assert holds[..|holds|] == holds;
      total := Some(sum);
    }

    method CreateItems(q: BatchRequest, batch: nat, reservation: nat)
      modifies this`items
      ensures items == old(items) + NewItems(q, batch, reservation)
    {
      ghost var created := NewItems(q, batch, reservation);
      for i := 0 to |q.holds|
        invariant items == old(items) + created[..i]
      {
        items := items + [Item(q.user, q.project, batch, reservation, q.holds[i], 0, 0)];
        assert created[..i + 1] == created[..i] + [created[i]];
      }
      assert created[..|q.holds|] == created;
    }

    method SubmitBatchTx(q: BatchRequest) returns (r: Reply<nat>)
      modifies this
      ensures Rows() == SubmitBatch(old(Rows()), q).tables
      ensures r == SubmitBatch(old(Rows()), q).reply
    {
      var saved := Rows();
      if IsBlank(q.key) {
        return Refused(InvalidInput);
      }
      var found := FindBatch(batches, q.user, q.key);
      if found.Some? {
        var existing := batches[found.value - 1];
        if existing.project != q.project || existing.digest != q.digest {
          return Refused(IdempotencyConflict);
        }
        return Ok(found.value);
      }
      batches := batches + [Batch(q.user, q.project, q.key, q.digest)];
      assert Rows() == saved.(batches := batches);
      var batch := |batches|;
      var total := BatchTotal(q.holds);
      if total.None? {
        Rollback(saved);
        return Refused(InvalidInput);
      }
      var reserved := ReserveTx(ReserveRequest(
        q.user, q.project, Some(batch), "batch", Digits(batch), "commerce:batch:" + q.key, total.value));
      if reserved.Refused? {
        Rollback(saved);
        return Refused(reserved.error);
      }
      CreateItems(q, batch, reserved.value.id);
      r := Ok(batch);
    }

    // ----- Direct writers -----

    method CreateSignupBonusTx(user: nat) returns (r: Reply<()>)
      modifies this
      ensures Rows() == GrantSignupBonus(old(Rows()), user).tables
      ensures r == GrantSignupBonus(old(Rows()), user).reply
    {
      if user in balances {
        return Refused(RowExists);
      }
      balances := balances[user := Balance(SIGNUP_BONUS_CREDITS, 0)];
      CreateTransaction(user, SignupBonus, SIGNUP_BONUS_CREDITS, SIGNUP_BONUS_CREDITS, user);
      r := Ok(());
    }

    /** With the amount check that handleAdminAddCredits and handleAdminAdjustCredits make before they call it. */
    method ApplyAdminCreditAdjustment(user: nat, deduct: bool, amount: int) returns (r: Reply<int>)
      modifies this
      ensures Rows() == AdjustCredits(old(Rows()), user, deduct, amount).tables
      ensures r == AdjustCredits(old(Rows()), user, deduct, amount).reply
    {
      var saved := Rows();
      if amount <= 0 {
        return Refused(InvalidInput);
      }
      if user !in balances {
        balances := balances[user := Balance(0, 0)];
      }
      var delta, kind := amount, ManualTopUp;
      if deduct {
        if balances[user].available < amount {
          Rollback(saved);
          return Refused(CreditsInsufficient);
        }
        delta, kind := -amount, ManualDeduct;
      }
      var balance := balances[user];
      balance := balance.(available := balance.available + delta);
      balances := balances[user := balance];
      assert balances == saved.balances[user := balance];
      CreateTransaction(user, kind, delta, balance.available, 0);
      r := Ok(balance.available);
    }

    method ChargeGenerationTx(user: nat, creditsCost: int, record: nat) returns (r: Reply<int>)
      modifies this
      ensures Rows() == ChargeGeneration(old(Rows()), user, creditsCost, record).tables
      ensures r == ChargeGeneration(old(Rows()), user, creditsCost, record).reply
    {
      var cost := RecordCost(creditsCost);
      if !(user in balances && balances[user].available >= cost) {
        return Refused(CreditsInsufficient);
      }
      balances := balances[user := balances[user].(available := balances[user].available - cost)];
      CreateTransaction(user, GenerationCharge, -cost, balances[user].available, record);
      r := Ok(balances[user].available);
    }

    // ----- Queue billing -----

    method EnqueueJobTx(user: nat, cost: int) returns (r: Reply<nat>)
      requires cost > 0
      modifies this
      ensures Rows() == EnqueueJob(old(Rows()), user, cost).tables
      ensures r == EnqueueJob(old(Rows()), user, cost).reply
    {
      if !(user in balances && balances[user].available >= cost) {
        return Refused(CreditsInsufficient);
      }
      balances := balances[user := Balance(balances[user].available - cost, balances[user].reserved + cost)];
      jobs := jobs + [QueueJob(user, cost, cost, false, false)];
      CreateTransaction(user, GenerationReserve, -cost, balances[user].available, |jobs|);
      r := Ok(|jobs|);
    }

    method SettleQueuedCreditsTx(id: nat) returns (r: Reply<int>)
      modifies this
      ensures Rows() == SettleJob(old(Rows()), id).tables
      ensures r == SettleJob(old(Rows()), id).reply
    {
      if !ValidId(jobs, id) {
        return Refused(RowNotFound);
      }
      var job := jobs[id - 1];
      if job.settled {
        if job.user !in balances {
          return Refused(RowNotFound);
        }
        return Ok(balances[job.user].available);
      }
      if !(job.user in balances && balances[job.user].reserved >= job.cost) {
        return Refused(CreditInvariant);
      }
      balances := balances[job.user := balances[job.user].(reserved := balances[job.user].reserved - job.cost)];
      jobs := jobs[id - 1 := job.(settled := true, reserved := 0)];
      CreateTransaction(job.user, GenerationSettle, 0, balances[job.user].available, id);
      r := Ok(balances[job.user].available);
    }

    method ReleaseQueuedCreditsTx(id: nat) returns (r: Reply<()>)
      modifies this
      ensures Rows() == ReleaseJob(old(Rows()), id).tables
      ensures r == ReleaseJob(old(Rows()), id).reply
    {
      if !ValidId(jobs, id) {
        return Refused(RowNotFound);
      }
      var job := jobs[id - 1];
      if job.released || job.settled || job.reserved <= 0 {
        return Ok(());
      }
      var moved := MoveReservedCredits(job.user, job.reserved, job.reserved);
      if !moved {
        return Refused(CreditInvariant);
      }
      jobs := jobs[id - 1 := job.(released := true, reserved := 0)];
      CreateTransaction(job.user, GenerationRelease, job.reserved, balances[job.user].available, id);
      r := Ok(());
    }

    // ----- Alipay orders -----

    /** The first half of a callback reads one order row. */
    method LoadOrder(order: nat, trade: Trade) returns (c: Check)
      ensures c == CheckCallback(Rows(), order, trade)
    {
      if !ValidId(orders, order) {
        return Rejected(OrderNotFound);
      }
      var row := orders[order - 1];
      if trade.amountCents.None? || trade.amountCents.value != row.amountCents {
        return Rejected(AmountMismatch);
      }
      if row.status == Paid {
        return AlreadyPaid;
      }
      if trade.status != TradeSuccess && trade.status != TradeFinished {
        return Rejected(InvalidStatus);
      }
      c := Proceed(order, row);
    }

    /** The second half: compare-and-set, then balance and log in the same transaction. */
    method SettleOrderTx(order: nat, loaded: Order) returns (credited: bool)
      modifies this
      ensures Rows() == SettleCallback(old(Rows()), order, loaded)
      ensures credited <==> ValidId(old(orders), order) && old(orders)[order - 1].status == Pending
    {
      if !(ValidId(orders, order) && orders[order - 1].status == Pending) {
        return false;
      }
      orders := orders[order - 1 := orders[order - 1].(status := Paid)];
      orders := orders[order - 1 := loaded.(status := Paid)];
      if loaded.user !in balances {
        balances := balances[loaded.user := Balance(0, 0)];
      }
      var balance := balances[loaded.user];
      balance := balance.(available := balance.available + loaded.credits);
      balances := balances[loaded.user := balance];
      assert balances == old(balances)[loaded.user := balance];
      if !HasTopUp(Rows(), order) {
        CreateTransaction(loaded.user, PaymentTopUp, loaded.credits, balance.available, order);
      }
      credited := true;
    }

    /** A callback that nothing interrupts: load, check, settle. */
    method CompleteAlipayOrder(order: nat, trade: Trade) returns (credited: bool)
      modifies this
      ensures var c := CheckCallback(old(Rows()), order, trade);
              Rows() == if c.Proceed? then SettleCallback(old(Rows()), c.order, c.loaded) else old(Rows())
      ensures credited <==> && ValidId(old(orders), order) && old(orders)[order - 1].status == Pending
                            && trade.amountCents == Some(old(orders)[order - 1].amountCents)
                            && SuccessfulTrade(trade.status)
    {
      var c := LoadOrder(order, trade);
      if c.Proceed? {
        credited := SettleOrderTx(c.order, c.loaded);
      } else {
        credited := false;
      }
    }
  }
}
