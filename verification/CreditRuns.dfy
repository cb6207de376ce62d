/**
 Whole runs of the credit system: any interleaving of submissions, claims, queue billing, direct
 charges, grants and order transitions, with any number of order callbacks in flight at once.
 */
module CreditRuns {
  import opened Foundations
  import opened CreditTables
  import opened AlipayOrders
  import opened CreditInvariants
  import opened CreditSteps
  import opened CreditConservation

  /** A callback that passed its checks and has not yet reached its compare-and-set, or is repeating it. */
  datatype Callback = Callback(order: nat, loaded: Order, trade: Trade)

  datatype System = System(tables: Tables, callbacks: seq<Callback>)

  datatype Op =
    | Signup(user: nat)
    | Adjust(user: nat, deduct: bool, amount: int)
    | Charge(user: nat, creditsCost: int, record: nat)
    | Submit(batch: BatchRequest)
    | Settle(claim: ClaimRequest, actual: int)
    | Release(claim: ClaimRequest)
    | Enqueue(user: nat, cost: nat)
    | SettleQueued(job: nat)
    | ReleaseQueued(job: nat)
    | Place(user: nat, amountCents: int, credits: int, now: int)
    | LoadCallback(order: nat, trade: Trade)
    | CommitCallback(index: nat)
    | Close(order: nat)
    | ExpireOrders(cutoff: int)
    | Refund(order: nat, amountCents: int)

  /** The steps that place orders or move them on; all others leave the order rows alone. */
  predicate IsOrderOp(op: Op) {
    op.Place? || op.LoadCallback? || op.CommitCallback? || op.Close? || op.ExpireOrders? || op.Refund?
  }

  function ApplyToCredits(t: Tables, op: Op): Tables {
    match op
    case Signup(user) => GrantSignupBonus(t, user).tables
    case Adjust(user, deduct, amount) => AdjustCredits(t, user, deduct, amount).tables
    case Charge(user, creditsCost, record) => ChargeGeneration(t, user, creditsCost, record).tables
    case Submit(batch) => SubmitBatch(t, batch).tables
    case Settle(claim, actual) => SettleItem(t, claim, actual).tables
    case Release(claim) => ReleaseItem(t, claim).tables
    case Enqueue(user, cost) => if cost == 0 then t else EnqueueJob(t, user, cost).tables
    case SettleQueued(job) => SettleJob(t, job).tables
    case ReleaseQueued(job) => ReleaseJob(t, job).tables
    case _ => t
  }

  function ApplyToOrders(s: System, op: Op): Tables {
    var t := s.tables;
    match op
    case Place(user, amountCents, credits, now) => PlaceOrder(t, user, amountCents, credits, now).tables
    case CommitCallback(i) =>
      if i < |s.callbacks| then SettleCallback(t, s.callbacks[i].order, s.callbacks[i].loaded) else t
    case Close(order) => AlipayOrders.CloseOrder(t, order)
    case ExpireOrders(cutoff) => ExpireStale(t, cutoff)
    case Refund(order, amountCents) => CompleteRefund(t, order, amountCents)
    case _ => t
  }

  function ApplyToTables(s: System, op: Op): Tables {
    if IsOrderOp(op) then ApplyToOrders(s, op) else ApplyToCredits(s.tables, op)
  }

  function Apply(s: System, op: Op): System {
    var check := if op.LoadCallback? then CheckCallback(s.tables, op.order, op.trade) else AlreadyPaid;
    System(ApplyToTables(s, op),
           if check.Proceed? then s.callbacks + [Callback(check.order, check.loaded, op.trade)] else s.callbacks)
  }

  function Run(s: System, ops: seq<Op>): System {
    if ops == [] then s else Apply(Run(s, ops[..|ops| - 1]), ops[|ops| - 1])
  }

  const INITIAL := System(EMPTY, [])

  /** A callback in flight checked an order that is still the same sale. */
  ghost predicate CallbackSound(t: Tables, c: Callback) {
    && ValidId(t.orders, c.order)
    && SameSale(c.loaded, t.orders[c.order - 1])
    && c.trade.amountCents == Some(c.loaded.amountCents)
    && SuccessfulTrade(c.trade.status)
  }

  ghost predicate SystemSound(s: System) {
    && Sound(s.tables) && Conserved(s.tables)
    && forall i :: 0 <= i < |s.callbacks| ==> CallbackSound(s.tables, s.callbacks[i])
  }

  /** Orders are never dropped and never turn into another sale. */
  ghost predicate OrdersExtend(t: Tables, t': Tables) {
    |t.orders| <= |t'.orders| && forall i :: 0 <= i < |t.orders| ==> SameSale(t.orders[i], t'.orders[i])
  }

  lemma SettlingExtendsOrders(t: Tables, order: nat, loaded: Order)
    requires ValidId(t.orders, order) && SameSale(loaded, t.orders[order - 1])
    ensures OrdersExtend(t, SettleCallback(t, order, loaded))
  {
  }

  lemma CreditsLeaveOrders(t: Tables, op: Op)
    ensures ApplyToCredits(t, op).orders == t.orders
  {
  }

  lemma OrdersExtendOrders(s: System, op: Op)
    requires SystemSound(s)
    ensures OrdersExtend(s.tables, ApplyToOrders(s, op))
  {
    if op.CommitCallback? && op.index < |s.callbacks| {
      assert CallbackSound(s.tables, s.callbacks[op.index]);
      SettlingExtendsOrders(s.tables, s.callbacks[op.index].order, s.callbacks[op.index].loaded);
    }
  }

  lemma OrdersPersist(s: System, op: Op)
    requires SystemSound(s)
    ensures OrdersExtend(s.tables, Apply(s, op).tables)
  {
    if IsOrderOp(op) {
      OrdersExtendOrders(s, op);
    } else {
      CreditsLeaveOrders(s.tables, op);
    }
  }

  lemma CreditsKeepSound(t: Tables, op: Op)
    requires Sound(t)
    ensures Sound(ApplyToCredits(t, op))
    ensures ReservedBacked(t) && !(op.SettleQueued? && SettlesReleasedJob(t, op.job)) ==> Inv(ApplyToCredits(t, op))
  {
    match op
    case Signup(user) => SignupKeepsInv(t, user);
    case Adjust(user, deduct, amount) => AdjustKeepsInv(t, user, deduct, amount);
    case Charge(user, creditsCost, record) => ChargeKeepsInv(t, user, creditsCost, record);
    case Submit(batch) => SubmitKeepsInv(t, batch);
    case Settle(claim, actual) =>
      if !InvalidClaim(claim) { ClaimKeepsInv(t, claim, SettleSplit(claim.held, actual)); }
    case Release(claim) =>
      if !InvalidClaim(claim) { ClaimKeepsInv(t, claim, ReleaseSplit(claim.held)); }
    case Enqueue(user, cost) => if cost != 0 { EnqueueKeepsInv(t, user, cost); }
    case SettleQueued(job) =>
      SettleJobKeepsSound(t, job);
      if ReservedBacked(t) { SettlementKeepsInvIff(t, job); }
    case ReleaseQueued(job) => ReleaseJobKeepsInv(t, job);
    case _ =>
  }

  lemma OrdersKeepSound(s: System, op: Op)
    requires SystemSound(s)
    ensures Sound(ApplyToOrders(s, op))
    ensures ReservedBacked(s.tables) ==> Inv(ApplyToOrders(s, op))
  {
    var t := s.tables;
    match op
    case Place(user, amountCents, credits, now) => PlaceOrderKeepsInv(t, user, amountCents, credits, now);
    case CommitCallback(i) =>
      if i < |s.callbacks| {
        assert CallbackSound(t, s.callbacks[i]);
        SettleCallbackKeepsInv(t, s.callbacks[i].order, s.callbacks[i].loaded);
      }
    case Close(order) => CloseOrderKeepsInv(t, order);
    case ExpireOrders(cutoff) => ExpireStaleKeepsInv(t, cutoff);
    case Refund(order, amountCents) => CompleteRefundKeepsInv(t, order, amountCents);
    case _ =>
  }

  lemma StepKeepsSound(s: System, op: Op)
    requires SystemSound(s)
    ensures Sound(Apply(s, op).tables)
    ensures ReservedBacked(s.tables) && !(op.SettleQueued? && SettlesReleasedJob(s.tables, op.job)) ==>
              Inv(Apply(s, op).tables)
  {
    if IsOrderOp(op) {
      OrdersKeepSound(s, op);
    } else {
      CreditsKeepSound(s.tables, op);
    }
  }

  lemma CreditsConserve(t: Tables, op: Op)
    requires Sound(t) && Conserved(t)
    ensures Conserved(ApplyToCredits(t, op))
  {
    var t' := ApplyToCredits(t, op);
    if t' != t && (op.Signup? || op.Adjust? || op.Charge?) {
      var x := t'.log[|t.log|];
      PostConserves(t, t', x.user, t'.balances[x.user], x);
    }
    match op
    case Submit(batch) => SubmitConserves(t, batch);
    case Settle(claim, actual) =>
      if !InvalidClaim(claim) { ClaimConserves(t, claim, SettleSplit(claim.held, actual)); }
    case Release(claim) =>
      if !InvalidClaim(claim) { ClaimConserves(t, claim, ReleaseSplit(claim.held)); }
    case Enqueue(user, cost) => if cost != 0 { EnqueueConserves(t, user, cost); }
    case SettleQueued(job) => JobRowConserves(t, t', job);
    case ReleaseQueued(job) => JobRowConserves(t, t', job);
    case _ =>
  }

  lemma SettlingConserves(t: Tables, order: nat, loaded: Order)
    requires Sound(t) && Conserved(t) && ValidId(t.orders, order)
    ensures Conserved(SettleCallback(t, order, loaded))
  {
    var t' := SettleCallback(t, order, loaded);
    if t.orders[order - 1].status == Pending {
      PendingHasNoTopUp(t, order);
      var x := t'.log[|t.log|];
      PostConserves(t, t', x.user, t'.balances[x.user], x);
    }
  }

  lemma OrdersConserve(s: System, op: Op)
    requires SystemSound(s)
    ensures Conserved(ApplyToOrders(s, op))
  {
    if op.CommitCallback? {
      if op.index < |s.callbacks| {
        assert CallbackSound(s.tables, s.callbacks[op.index]);
        SettlingConserves(s.tables, s.callbacks[op.index].order, s.callbacks[op.index].loaded);
      }
    } else {
      UnchangedConserves(s.tables, ApplyToOrders(s, op));
    }
  }

  lemma StepConserves(s: System, op: Op)
    requires SystemSound(s)
    ensures Conserved(Apply(s, op).tables)
  {
    if IsOrderOp(op) {
      OrdersConserve(s, op);
    } else {
      CreditsConserve(s.tables, op);
    }
  }

  lemma CallbackStaysSound(t: Tables, t': Tables, c: Callback)
    requires CallbackSound(t, c) && OrdersExtend(t, t')
    ensures CallbackSound(t', c)
  {
  }

  lemma LoadedCallbackIsSound(t: Tables, order: nat, trade: Trade)
    requires CheckCallback(t, order, trade).Proceed?
    ensures var check := CheckCallback(t, order, trade); CallbackSound(t, Callback(check.order, check.loaded, trade))
  {
  }

  lemma CallbacksStaySound(s: System, op: Op)
    requires SystemSound(s)
    ensures var s' := Apply(s, op);
            forall i :: 0 <= i < |s'.callbacks| ==> CallbackSound(s'.tables, s'.callbacks[i])
  {
    OrdersPersist(s, op);
    var s' := Apply(s, op);
    if op.LoadCallback? && CheckCallback(s.tables, op.order, op.trade).Proceed? {
      LoadedCallbackIsSound(s.tables, op.order, op.trade);
    }
    forall i | 0 <= i < |s'.callbacks| ensures CallbackSound(s'.tables, s'.callbacks[i]) {
      if i < |s.callbacks| {
        CallbackStaysSound(s.tables, s'.tables, s.callbacks[i]);
      }
    }
  }

  lemma StepKeepsSystemSound(s: System, op: Op)
    requires SystemSound(s)
    ensures SystemSound(Apply(s, op))
  {
    StepKeepsSound(s, op);
    StepConserves(s, op);
    CallbacksStaySound(s, op);
  }

  /**
   Over every run: available credits are never negative, are the sum of the user's log rows and are
   what the last of them recorded; every reservation divides its total into reserved, settled and
   released; every order is credited at most once and only if it was paid; credits are conserved.
   */
  lemma {:induction false} RunsStaySound(s: System, ops: seq<Op>)
    requires SystemSound(s)
    ensures SystemSound(Run(s, ops))
  {
    if ops != [] {
      RunsStaySound(s, ops[..|ops| - 1]);
      StepKeepsSystemSound(Run(s, ops[..|ops| - 1]), ops[|ops| - 1]);
    }
  }

  lemma InitialIsSound()
    ensures SystemSound(INITIAL) && Inv(INITIAL.tables)
  {
    EmptySatisfiesInv();
    EmptyIsConserved();
  }

  // ----- The reserved balance -----

  /** A queue settlement that takes effect on a job whose hold was already given back. */
  predicate SettlesReleasedJob(t: Tables, job: nat) {
    SettlesJob(t, job) && t.jobs[job - 1].released
  }

  /** No step of the run settles a queue job after its hold was released. */
  predicate NoLateSettlement(s: System, ops: seq<Op>) {
    ops == [] ||
    (var before, op := ops[..|ops| - 1], ops[|ops| - 1];
     NoLateSettlement(s, before) && !(op.SettleQueued? && SettlesReleasedJob(Run(s, before).tables, op.job)))
  }

  lemma {:induction false} RunsKeepReservedBacked(s: System, ops: seq<Op>)
    requires SystemSound(s) && Inv(s.tables) && NoLateSettlement(s, ops)
    ensures SystemSound(Run(s, ops)) && Inv(Run(s, ops).tables)
  {
    if ops != [] {
      var before := ops[..|ops| - 1];
      RunsKeepReservedBacked(s, before);
      StepKeepsSound(Run(s, before), ops[|ops| - 1]);
      StepKeepsSystemSound(Run(s, before), ops[|ops| - 1]);
    }
  }

  lemma RunThen(s: System, ops: seq<Op>, op: Op)
    ensures Run(s, ops + [op]) == Apply(Run(s, ops), op)
  {
    assert (ops + [op])[..|ops|] == ops;
  }

  /** The first late settlement of a run is also the first step after which reserved credits are not backed. */
  lemma LateSettlementBreaksReserved(s: System, ops: seq<Op>, job: nat)
    requires SystemSound(s) && Inv(s.tables) && NoLateSettlement(s, ops)
    ensures Inv(Run(s, ops + [SettleQueued(job)]).tables) <==> !SettlesReleasedJob(Run(s, ops).tables, job)
  {
    RunsKeepReservedBacked(s, ops);
    RunThen(s, ops, SettleQueued(job));
    SettlementKeepsInvIff(Run(s, ops).tables, job);
  }
}
