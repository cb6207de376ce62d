/** What the credit invariant buys a caller: claims that cannot get stuck, happen once and commute. */
module CreditTheorems {
  import opened Arithmetic
  import opened Foundations
  import opened Sums
  import opened Text
  import opened CreditTables
  import opened AlipayOrders
  import opened CreditInvariants
  import opened CreditSteps
  import opened CreditConservation
  import opened CreditRuns

  // ----- Claims cannot get stuck -----

  /** The request a caller builds from the item row it has just read. */
  function RequestFor(i: Item, id: nat, key: string): ClaimRequest {
    ClaimRequest(i.user, i.project, i.batch, i.reservation, id, i.held, key)
  }

  predicate DescribesItem(t: Tables, q: ClaimRequest) {
    ValidId(t.items, q.item) && q == RequestFor(t.items[q.item - 1], q.item, q.key)
  }

  /**
   A settle or a release of an item nobody has claimed succeeds exactly when the request describes
   the item row: the balance and the reservation always hold enough for it.
   */
  lemma OpenItemIsClaimable(t: Tables, q: ClaimRequest, actual: int)
    requires Inv(t) && q.item !in t.settlements
    ensures SettleItem(t, q, actual).reply.Ok? <==> DescribesItem(t, q)
    ensures ReleaseItem(t, q).reply.Ok? <==> DescribesItem(t, q)
    ensures DescribesItem(t, q) ==> CanConsume(t, q) && q.held > 0
  {
    if DescribesItem(t, q) {
      OpenHoldBound(t, q.item);
      ReservedRowBound(t, q.reservation);
      assert ReservationSound(t, q.reservation);
    }
  }

  lemma NothingOpenIff(t: Tables, id: nat)
    requires ItemsSound(t)
    ensures Sum(OpenHoldColumn(t.items, t.settlements, id)) == 0 <==>
            forall i :: 0 <= i < |t.items| && t.items[i].reservation == id ==> i + 1 in t.settlements
  {
    var open := OpenHoldColumn(t.items, t.settlements, id);
    forall i | 0 <= i < |t.items| ensures open[i] >= 0 && t.items[i].held > 0 {
      assert ItemSound(t, i + 1);
    }
    SumZeroIff(open);
    assert forall i {:trigger t.items[i]} :: 0 <= i < |t.items| ==>
      (open[i] == 0 <==> t.items[i].reservation != id || i + 1 in t.settlements);
  }

  lemma NothingPaidIff(t: Tables, id: nat)
    requires ItemsSound(t)
    ensures Sum(SettledColumn(t.items, id)) == 0 <==>
            forall i :: 0 <= i < |t.items| && t.items[i].reservation == id ==> t.items[i].settled == 0
  {
    var settled := SettledColumn(t.items, id);
    forall i | 0 <= i < |t.items| ensures settled[i] >= 0 {
      assert ItemSound(t, i + 1);
    }
    SumZeroIff(settled);
    assert forall i {:trigger t.items[i]} :: 0 <= i < |t.items| ==>
      (settled[i] == 0 <==> t.items[i].reservation != id || t.items[i].settled == 0);
  }

  /**
   Once every item of a reservation is claimed nothing of it stays reserved, and its status says
   whether any item was paid for.
   */
  lemma FullyClaimedReservationCloses(t: Tables, id: nat)
    requires Inv(t) && ValidId(t.reservations, id)
    ensures t.reservations[id - 1].reserved == 0 <==>
            forall i :: 0 <= i < |t.items| && t.items[i].reservation == id ==> i + 1 in t.settlements
    ensures t.reservations[id - 1].reserved == 0 ==>
              (t.reservations[id - 1].status == Released <==>
               forall i :: 0 <= i < |t.items| && t.items[i].reservation == id ==> t.items[i].settled == 0)
    ensures t.reservations[id - 1].reserved == 0 ==> t.reservations[id - 1].status in {Released, Settled}
    ensures t.reservations[id - 1].reserved > 0 ==> t.reservations[id - 1].status == Reserved
  {
    assert ReservationSound(t, id);
    NothingOpenIff(t, id);
    NothingPaidIff(t, id);
  }

  // ----- Claims happen once -----

  /** Any later settle or release of a claimed item changes nothing; it is refused when its scope differs. */
  lemma ClaimedItemReplays(t: Tables, q: ClaimRequest, actual: int)
    requires q.item in t.settlements
    ensures SettleItem(t, q, actual).tables == t && ReleaseItem(t, q).tables == t
    ensures !InvalidClaim(q) ==>
              && (SettleItem(t, q, actual).reply.Ok? <==> SameScope(t.settlements[q.item], q))
              && (ReleaseItem(t, q).reply.Ok? <==> SameScope(t.settlements[q.item], q))
  {
  }

  /** The claim of an item and the item's row are the same in both tables. */
  ghost predicate ClaimKept(t: Tables, t': Tables, item: nat) {
    && item in t.settlements && item in t'.settlements && t'.settlements[item] == t.settlements[item]
    && ValidId(t.items, item) && ValidId(t'.items, item) && t'.items[item - 1] == t.items[item - 1]
  }

  lemma ClaimKeepsClaims(t: Tables, q: ClaimRequest, split: Split, item: nat)
    requires item in t.settlements && ValidId(t.items, item)
    ensures ClaimKept(t, ClaimItem(t, q, split).tables, item)
  {
  }

  lemma SubmitKeepsClaims(t: Tables, q: BatchRequest, item: nat)
    requires ReservationsSound(t) && item in t.settlements && ValidId(t.items, item)
    ensures ClaimKept(t, SubmitBatch(t, q).tables, item)
  {
    if SubmitBatch(t, q).tables != t {
      FreshBatchReserves(t, q);
    }
  }

  lemma ClaimStaysOneStep(s: System, op: Op, item: nat)
    requires ReservationsSound(s.tables) && item in s.tables.settlements && ValidId(s.tables.items, item)
    ensures ClaimKept(s.tables, Apply(s, op).tables, item)
  {
    match op
    case Submit(batch) => SubmitKeepsClaims(s.tables, batch, item);
    case Settle(claim, actual) => ClaimKeepsClaims(s.tables, claim, SettleSplit(claim.held, actual), item);
    case Release(claim) => ClaimKeepsClaims(s.tables, claim, ReleaseSplit(claim.held), item);
    case _ =>
  }

  /** Over every run, the first claim of an item is the one that stays, whatever follows it. */
  lemma {:induction false} FirstClaimStays(s: System, ops: seq<Op>, item: nat)
    requires SystemSound(s) && item in s.tables.settlements
    ensures ClaimKept(s.tables, Run(s, ops).tables, item)
  {
    if ops != [] {
      var before := ops[..|ops| - 1];
      FirstClaimStays(s, before, item);
      RunsStaySound(s, before);
      ClaimStaysOneStep(Run(s, before), ops[|ops| - 1], item);
    }
  }

  lemma ReservedIsFound(t: Tables, q: ReserveRequest)
    requires Reserve(t, q).reply.Ok?
    ensures var t' := Reserve(t, q).tables;
            var found := FindReservation(t'.reservations, q.user, q.key);
            && found.Some? && SameReservation(t'.reservations[found.value - 1], q)
            && q.user in t'.balances
  {
    var t' := Reserve(t, q).tables;
    if FindReservation(t.reservations, q.user, q.key).None? {
      assert t'.reservations[..|t.reservations|] == t.reservations;
      assert t'.reservations[|t.reservations|] == NewReservation(q);
    }
  }

  /** Repeating a reserve with its key changes nothing; reusing the key for another request is refused. */
  lemma ReserveReplays(t: Tables, q: ReserveRequest, again: ReserveRequest)
    requires Reserve(t, q).reply.Ok? && again.user == q.user && again.key == q.key
    ensures Reserve(Reserve(t, q).tables, again).tables == Reserve(t, q).tables
    ensures Reserve(Reserve(t, q).tables, again).reply.Ok? <==>
            again.project == q.project && again.batch == q.batch && again.scopeType == q.scopeType
            && again.scopeKey == q.scopeKey && again.amount == q.amount
  {
    ReservedIsFound(t, q);
  }

  /** Submitting again with the key of a batch changes nothing; it finds that batch or is refused. */
  lemma SubmitReplays(t: Tables, q: BatchRequest, again: BatchRequest)
    requires ReservationsSound(t) && SubmitBatch(t, q).reply.Ok? && again.user == q.user && again.key == q.key
    ensures var t' := SubmitBatch(t, q).tables;
            && SubmitBatch(t', again).tables == t'
            && SubmitBatch(t', again).reply ==
               if again.project == q.project && again.digest == q.digest then SubmitBatch(t, q).reply
               else Refused(IdempotencyConflict)
  {
    var t' := SubmitBatch(t, q).tables;
    if FindBatch(t.batches, q.user, q.key).None? {
      FreshBatchReserves(t, q);
      assert t'.batches[..|t.batches|] == t.batches;
    }
  }

  // ----- Keys stay taken over whole runs -----

  /** Rows of keyed tables are appended, never dropped, and keep what identifies them. */
  ghost predicate KeysExtend(t: Tables, t': Tables) {
    && |t.batches| <= |t'.batches| && t'.batches[..|t.batches|] == t.batches
    && |t.reservations| <= |t'.reservations|
    && forall i :: 0 <= i < |t.reservations| ==> SameRequest(t.reservations[i], t'.reservations[i])
  }

  /** The fields of a reservation that no claim changes. */
  predicate SameRequest(a: Reservation, b: Reservation) {
    b == a.(status := b.status, reserved := b.reserved, settled := b.settled, released := b.released)
  }

  lemma SubmitExtendsKeys(t: Tables, q: BatchRequest)
    requires ReservationsSound(t)
    ensures KeysExtend(t, SubmitBatch(t, q).tables)
  {
    if SubmitBatch(t, q).tables != t {
      FreshBatchReserves(t, q);
    }
  }

  lemma ClaimExtendsKeys(t: Tables, q: ClaimRequest, actual: int)
    ensures KeysExtend(t, SettleItem(t, q, actual).tables) && KeysExtend(t, ReleaseItem(t, q).tables)
  {
  }

  lemma CreditsExtendKeys(t: Tables, op: Op)
    requires ReservationsSound(t)
    ensures KeysExtend(t, ApplyToCredits(t, op))
  {
    match op
    case Submit(batch) => SubmitExtendsKeys(t, batch);
    case Settle(claim, actual) => ClaimExtendsKeys(t, claim, actual);
    case Release(claim) => ClaimExtendsKeys(t, claim, 0);
    case _ =>
  }

  lemma KeysExtendFurther(a: Tables, b: Tables, c: Tables)
    requires KeysExtend(a, b) && KeysExtend(b, c)
    ensures KeysExtend(a, c)
  {
    assert c.batches[..|a.batches|] == c.batches[..|b.batches|][..|a.batches|];
  }

  lemma StepExtendsKeys(s: System, op: Op)
    requires ReservationsSound(s.tables)
    ensures KeysExtend(s.tables, Apply(s, op).tables)
  {
    if !IsOrderOp(op) {
      CreditsExtendKeys(s.tables, op);
    }
  }

  lemma {:induction false} RunsExtendKeys(s: System, ops: seq<Op>)
    requires SystemSound(s)
    ensures KeysExtend(s.tables, Run(s, ops).tables)
  {
    if ops != [] {
      var before := ops[..|ops| - 1];
      RunsExtendKeys(s, before);
      RunsStaySound(s, before);
      StepExtendsKeys(Run(s, before), ops[|ops| - 1]);
      KeysExtendFurther(s.tables, Run(s, before).tables, Run(s, ops).tables);
    }
  }

  lemma {:induction false} BatchStaysFound(bs: seq<Batch>, bs': seq<Batch>, user: nat, key: string)
    requires |bs| <= |bs'| && bs'[..|bs|] == bs && FindBatch(bs, user, key).Some?
    ensures FindBatch(bs', user, key) == FindBatch(bs, user, key)
  {
    if |bs| < |bs'| {
      var shorter := bs'[..|bs'| - 1];
      assert shorter[..|bs|] == bs'[..|bs|];
      BatchStaysFound(bs, shorter, user, key);
    } else {
      assert bs' == bs;
    }
  }

  lemma ReservationStaysFound(rs: seq<Reservation>, rs': seq<Reservation>, user: nat, key: string)
    requires |rs| <= |rs'| && forall i :: 0 <= i < |rs| ==> SameRequest(rs[i], rs'[i])
    requires FindReservation(rs, user, key).Some?
    ensures FindReservation(rs', user, key) == FindReservation(rs, user, key)
  {
    var a := FindReservation(rs, user, key);
    assert SameRequest(rs[a.value - 1], rs'[a.value - 1]);
  }

  /**
   A key stays taken over every run: whenever the submission is repeated, whatever happened since,
   nothing changes, and the answer is the same batch or a conflict, as its original row says.
   */
  lemma SubmitReplaysForever(s: System, ops: seq<Op>, again: BatchRequest)
    requires SystemSound(s) && FindBatch(s.tables.batches, again.user, again.key).Some?
    ensures var t, id := Run(s, ops).tables, FindBatch(s.tables.batches, again.user, again.key).value;
            var b := s.tables.batches[id - 1];
            && SubmitBatch(t, again).tables == t
            && SubmitBatch(t, again).reply ==
               if IsBlank(again.key) then Refused(InvalidInput)
               else if b.project == again.project && b.digest == again.digest then Ok(id)
               else Refused(IdempotencyConflict)
  {
    var t := Run(s, ops).tables;
    RunsExtendKeys(s, ops);
    BatchStaysFound(s.tables.batches, t.batches, again.user, again.key);
    var id := FindBatch(s.tables.batches, again.user, again.key).value;
    assert t.batches[..|s.tables.batches|][id - 1] == s.tables.batches[id - 1];
  }

  lemma FoundReservationReplays(t: Tables, again: ReserveRequest, id: nat)
    requires FindReservation(t.reservations, again.user, again.key) == Some(id) && again.user in t.balances
    ensures Reserve(t, again).tables == t
    ensures Reserve(t, again).reply.Ok? <==>
            !InvalidReserve(again) && SameReservation(t.reservations[id - 1], again)
    ensures Reserve(t, again).reply.Ok? ==> Reserve(t, again).reply.value.id == id
    ensures !InvalidReserve(again) && !SameReservation(t.reservations[id - 1], again) ==>
              Reserve(t, again).reply == Refused(IdempotencyConflict)
  {
  }

  lemma ReservationKeepsKey(s: System, ops: seq<Op>, user: nat, key: string)
    requires SystemSound(s) && FindReservation(s.tables.reservations, user, key).Some?
    ensures var t, found := Run(s, ops).tables, FindReservation(s.tables.reservations, user, key);
            && FindReservation(t.reservations, user, key) == found
            && SameRequest(s.tables.reservations[found.value - 1], t.reservations[found.value - 1])
            && user in t.balances
  {
    var t, id := Run(s, ops).tables, FindReservation(s.tables.reservations, user, key).value;
    RunsExtendKeys(s, ops);
    RunsStaySound(s, ops);
    ReservationStaysFound(s.tables.reservations, t.reservations, user, key);
    assert SameRequest(s.tables.reservations[id - 1], t.reservations[id - 1]);
    assert ReservationSound(t, id);
  }

  /** The same for the key of a reservation, whatever of it was settled or released since. */
  lemma ReserveReplaysForever(s: System, ops: seq<Op>, again: ReserveRequest)
    requires SystemSound(s) && FindReservation(s.tables.reservations, again.user, again.key).Some?
    ensures var t, id := Run(s, ops).tables, FindReservation(s.tables.reservations, again.user, again.key).value;
            && Reserve(t, again).tables == t
            && (Reserve(t, again).reply.Ok? <==>
                  !InvalidReserve(again) && SameReservation(s.tables.reservations[id - 1], again))
            && (Reserve(t, again).reply.Ok? ==> Reserve(t, again).reply.value.id == id)
            && (!InvalidReserve(again) && !SameReservation(s.tables.reservations[id - 1], again) ==>
                  Reserve(t, again).reply == Refused(IdempotencyConflict))
  {
    ReservationKeepsKey(s, ops, again.user, again.key);
    FoundReservationReplays(Run(s, ops).tables, again,
                            FindReservation(s.tables.reservations, again.user, again.key).value);
  }

  /** An accepted submission takes its key, so that the two statements above speak of it. */
  lemma SubmittedIsFound(t: Tables, q: BatchRequest)
    requires ReservationsSound(t) && SubmitBatch(t, q).reply.Ok?
    ensures var t', id := SubmitBatch(t, q).tables, SubmitBatch(t, q).reply.value;
            && FindBatch(t'.batches, q.user, q.key) == Some(id)
            && t'.batches[id - 1].project == q.project && t'.batches[id - 1].digest == q.digest
  {
    if FindBatch(t.batches, q.user, q.key).None? {
      FreshBatchReserves(t, q);
      assert SubmitBatch(t, q).tables.batches[..|t.batches|] == t.batches;
    }
  }

  // ----- Claims commute -----

  datatype Decision = SettleWith(key: string, actual: int) | GiveBack(key: string)

  function DecisionSplit(held: int, d: Decision): Split {
    match d
    case SettleWith(_, actual) => SettleSplit(held, actual)
    case GiveBack(_) => ReleaseSplit(held)
  }

  /** Carries out the decision taken for one item, from the item row as it stands. */
  function Decide(t: Tables, plan: map<nat, Decision>, item: nat): Tables {
    if !(item in plan && ValidId(t.items, item)) then t
    else
      var q := RequestFor(t.items[item - 1], item, plan[item].key);
      match plan[item]
      case SettleWith(_, actual) => SettleItem(t, q, actual).tables
      case GiveBack(_) => ReleaseItem(t, q).tables
  }

  /** Carries out the decisions for the listed items, in that order and with any repetitions. */
  function DecideAll(t: Tables, plan: map<nat, Decision>, items: seq<nat>): Tables {
    if items == [] then t else Decide(DecideAll(t, plan, items[..|items| - 1]), plan, items[|items| - 1])
  }

  /** The items that a list of decisions claims for the first time. */
  ghost predicate Newly(t: Tables, plan: map<nat, Decision>, items: seq<nat>, id: nat) {
    ValidId(t.items, id) && id !in t.settlements && id in plan && id in items
  }

  ghost function DecidedItem(t: Tables, plan: map<nat, Decision>, items: seq<nat>, id: nat): Item
    requires ValidId(t.items, id)
  {
    var i := t.items[id - 1];
    if !Newly(t, plan, items, id) then i
    else var s := DecisionSplit(i.held, plan[id]); i.(settled := s.settled, released := s.released)
  }

  ghost function DecidedClaim(t: Tables, plan: map<nat, Decision>, id: nat): Settlement
    requires ValidId(t.items, id) && id in plan
  {
    var i := t.items[id - 1];
    NewSettlement(RequestFor(i, id, plan[id].key), DecisionSplit(i.held, plan[id]))
  }

  /** The item and claim rows that a list of decisions leaves behind. */
  ghost predicate Decided(t: Tables, t': Tables, plan: map<nat, Decision>, items: seq<nat>) {
    && |t'.items| == |t.items|
    && (forall id: nat :: ValidId(t.items, id) ==> t'.items[id - 1] == DecidedItem(t, plan, items, id))
    && (forall id: nat :: id in t'.settlements <==> id in t.settlements || Newly(t, plan, items, id))
    && (forall id: nat :: id in t.settlements ==> t'.settlements[id] == t.settlements[id])
    && (forall id: nat :: Newly(t, plan, items, id) ==> t'.settlements[id] == DecidedClaim(t, plan, id))
  }

  /** Every row that a claim never changes. */
  ghost predicate SameFrame(t: Tables, t': Tables) {
    && t'.batches == t.batches && t'.jobs == t.jobs && t'.orders == t.orders
    && t'.balances.Keys == t.balances.Keys
    && |t'.items| == |t.items| && |t'.reservations| == |t.reservations|
    && (forall i :: 0 <= i < |t.reservations| ==>
          SameRequest(t.reservations[i], t'.reservations[i]))
    && forall user: nat :: Sum(ExternalColumn(t'.log, user)) == Sum(ExternalColumn(t.log, user))
  }

  lemma ConsumeKeepsFrame(t: Tables, q: ClaimRequest, s: Split)
    requires CanConsume(t, q) && q.item !in t.settlements && GoodSplit(q.held, s) && Conserved(t)
    ensures SameFrame(t, ConsumeItem(t, q, s)) && Conserved(ConsumeItem(t, q, s))
  {
    ClaimConserves(t, q, s);
  }

  ghost predicate Decidable(t: Tables, plan: map<nat, Decision>, item: nat) {
    item in plan && ValidId(t.items, item) && item !in t.settlements
  }

  lemma DecideConsumes(t: Tables, plan: map<nat, Decision>, item: nat)
    requires Inv(t) && Decidable(t, plan, item)
    ensures
      var q := RequestFor(t.items[item - 1], item, plan[item].key);
      q.held > 0 && CanConsume(t, q) && Decide(t, plan, item) == ConsumeItem(t, q, DecisionSplit(q.held, plan[item]))
  {
    var q := RequestFor(t.items[item - 1], item, plan[item].key);
    OpenItemIsClaimable(t, q, match plan[item] case SettleWith(_, actual) => actual case GiveBack(_) => 0);
  }

  lemma DecideStep(t: Tables, plan: map<nat, Decision>, item: nat)
    requires Inv(t) && Conserved(t)
    ensures !Decidable(t, plan, item) ==> Decide(t, plan, item) == t
    ensures Inv(Decide(t, plan, item)) && Conserved(Decide(t, plan, item)) && SameFrame(t, Decide(t, plan, item))
  {
    if Decidable(t, plan, item) {
      DecideConsumes(t, plan, item);
      var q := RequestFor(t.items[item - 1], item, plan[item].key);
      var s := DecisionSplit(q.held, plan[item]);
      ConsumeKeepsInv(t, q, s);
      ConsumeKeepsFrame(t, q, s);
    }
  }

  lemma DecidedStep(t: Tables, m: Tables, plan: map<nat, Decision>, before: seq<nat>, last: nat)
    requires Decided(t, m, plan, before)
    requires Decidable(m, plan, last)
    requires var q := RequestFor(m.items[last - 1], last, plan[last].key); CanConsume(m, q)
    ensures
      var q := RequestFor(m.items[last - 1], last, plan[last].key);
      Decided(t, ConsumeItem(m, q, DecisionSplit(q.held, plan[last])), plan, before + [last])
  {
    assert forall id: nat :: id in before + [last] <==> id in before || id == last;
    assert m.items[last - 1] == DecidedItem(t, plan, before, last);
  }

  lemma DecidedRepeat(t: Tables, m: Tables, plan: map<nat, Decision>, before: seq<nat>, last: nat)
    requires Decided(t, m, plan, before) && !Decidable(m, plan, last)
    ensures Decided(t, m, plan, before + [last])
  {
    assert forall id: nat :: id in before + [last] <==> id in before || id == last;
    assert forall id: nat :: Newly(t, plan, before + [last], id) <==> Newly(t, plan, before, id);
  }

  lemma SameFrameTransitive(a: Tables, b: Tables, c: Tables)
    requires SameFrame(a, b) && SameFrame(b, c)
    ensures SameFrame(a, c)
  {
  }

  lemma {:induction false} DecideAllKeepsInv(t: Tables, plan: map<nat, Decision>, items: seq<nat>)
    requires Inv(t) && Conserved(t)
    ensures Inv(DecideAll(t, plan, items)) && Conserved(DecideAll(t, plan, items))
    ensures SameFrame(t, DecideAll(t, plan, items))
  {
    if items != [] {
      var before, last := items[..|items| - 1], items[|items| - 1];
      DecideAllKeepsInv(t, plan, before);
      DecideStep(DecideAll(t, plan, before), plan, last);
      SameFrameTransitive(t, DecideAll(t, plan, before), DecideAll(t, plan, items));
    }
  }

  lemma {:induction false} DecideAllDecides(t: Tables, plan: map<nat, Decision>, items: seq<nat>)
    requires Inv(t) && Conserved(t)
    ensures Decided(t, DecideAll(t, plan, items), plan, items)
  {
    if items != [] {
      var before, last := items[..|items| - 1], items[|items| - 1];
      var m := DecideAll(t, plan, before);
      DecideAllDecides(t, plan, before);
      DecideAllKeepsInv(t, plan, before);
      assert items == before + [last];
      if Decidable(m, plan, last) {
        DecideConsumes(m, plan, last);
        DecidedStep(t, m, plan, before, last);
      } else {
        DecideStep(m, plan, last);
        DecidedRepeat(t, m, plan, before, last);
      }
    }
  }

  /** The rows that carry credits, without the order in which the log was written. */
  ghost predicate SameOutcome(a: Tables, b: Tables) {
    && a.balances == b.balances && a.reservations == b.reservations
    && a.items == b.items && a.settlements == b.settlements
    && a.batches == b.batches && a.jobs == b.jobs && a.orders == b.orders
  }

  /** Item and claim rows, together with what no claim changes, determine every other credit row. */
  lemma ClaimsDetermineRows(t: Tables, a: Tables, b: Tables)
    requires Inv(a) && Conserved(a) && Inv(b) && Conserved(b)
    requires SameFrame(t, a) && SameFrame(t, b)
    requires a.items == b.items && a.settlements == b.settlements
    ensures SameOutcome(a, b)
  {
    forall i | 0 <= i < |a.reservations| ensures a.reservations[i] == b.reservations[i] {
      assert ReservationSound(a, i + 1) && ReservationSound(b, i + 1);
    }
    assert a.reservations == b.reservations;
    forall user | user in a.balances ensures a.balances[user] == b.balances[user] {
      assert ReservedBackedFor(a, user) && ReservedBackedFor(b, user);
      assert ConservedFor(a, user) && ConservedFor(b, user);
    }
  }

  lemma DecidedIsUnique(t: Tables, a: Tables, b: Tables, plan: map<nat, Decision>, xs: seq<nat>, ys: seq<nat>)
    requires Decided(t, a, plan, xs) && Decided(t, b, plan, ys)
    requires forall id: nat :: id in xs <==> id in ys
    ensures a.items == b.items && a.settlements == b.settlements
  {
    assert forall id: nat :: Newly(t, plan, xs, id) <==> Newly(t, plan, ys, id);
    forall i | 0 <= i < |a.items| ensures a.items[i] == b.items[i] {
      assert a.items[i] == DecidedItem(t, plan, xs, i + 1);
      assert b.items[i] == DecidedItem(t, plan, ys, i + 1);
    }
    assert a.settlements.Keys == b.settlements.Keys;
  }

  /**
   Whatever the order in which a set of items is settled and given back, and however often a
   decision is repeated, balances, reservations, items and claims end up the same.
   */
  lemma ClaimsAreConfluent(t: Tables, plan: map<nat, Decision>, xs: seq<nat>, ys: seq<nat>)
    requires Inv(t) && Conserved(t)
    requires forall id: nat :: id in xs <==> id in ys
    ensures SameOutcome(DecideAll(t, plan, xs), DecideAll(t, plan, ys))
  {
    DecideAllKeepsInv(t, plan, xs);
    DecideAllKeepsInv(t, plan, ys);
    DecideAllDecides(t, plan, xs);
    DecideAllDecides(t, plan, ys);
    DecidedIsUnique(t, DecideAll(t, plan, xs), DecideAll(t, plan, ys), plan, xs, ys);
    ClaimsDetermineRows(t, DecideAll(t, plan, xs), DecideAll(t, plan, ys));
  }

  /** What the plan debits from a reservation: for each item settled, its actual cost capped by its hold. */
  ghost function DebitColumn(t: Tables, plan: map<nat, Decision>, items: seq<nat>, reservation: nat): seq<int> {
    seq(|t.items|, k requires 0 <= k < |t.items| =>
      if t.items[k].reservation == reservation && Newly(t, plan, items, k + 1) && plan[k + 1].SettleWith?
      then Min(Max(plan[k + 1].actual, 0), t.items[k].held) else 0)
  }

  lemma DecidedDebit(t: Tables, t': Tables, plan: map<nat, Decision>, items: seq<nat>, reservation: nat)
    requires ItemsSound(t) && Decided(t, t', plan, items)
    ensures Sum(SettledColumn(t'.items, reservation))
            == Sum(SettledColumn(t.items, reservation)) + Sum(DebitColumn(t, plan, items, reservation))
  {
    var before, after := SettledColumn(t.items, reservation), SettledColumn(t'.items, reservation);
    var debit := DebitColumn(t, plan, items, reservation);
    forall k | 0 <= k < |t.items| ensures after[k] == before[k] + debit[k] {
      assert ItemSound(t, k + 1);
      assert t'.items[k] == DecidedItem(t, plan, items, k + 1);
    }
    SumAddsRows(before, debit, after);
  }

  lemma DebitWithinHolds(t: Tables, plan: map<nat, Decision>, items: seq<nat>, reservation: nat)
    requires ItemsSound(t)
    ensures Sum(DebitColumn(t, plan, items, reservation)) <= Sum(OpenHoldColumn(t.items, t.settlements, reservation))
  {
    var debit, open := DebitColumn(t, plan, items, reservation), OpenHoldColumn(t.items, t.settlements, reservation);
    forall k | 0 <= k < |t.items| ensures debit[k] <= open[k] {
      assert ItemSound(t, k + 1);
    }
    var slack := seq(|t.items|, k requires 0 <= k < |t.items| => open[k] - debit[k]);
    SumAddsRows(debit, slack, open);
    SumNonNegative(slack);
  }

  /** The net debit of a reservation is the sum of the capped actual costs, and never more than it held. */
  lemma NetDebit(t: Tables, plan: map<nat, Decision>, items: seq<nat>, reservation: nat)
    requires Inv(t) && Conserved(t) && ValidId(t.reservations, reservation)
    ensures |DecideAll(t, plan, items).reservations| == |t.reservations|
    ensures
      var before, after := t.reservations[reservation - 1], DecideAll(t, plan, items).reservations[reservation - 1];
      after.settled - before.settled == Sum(DebitColumn(t, plan, items, reservation)) <= before.reserved
  {
    var t' := DecideAll(t, plan, items);
    DecideAllKeepsInv(t, plan, items);
    DecideAllDecides(t, plan, items);
    assert ReservationSound(t, reservation) && ReservationSound(t', reservation);
    DecidedDebit(t, t', plan, items, reservation);
    DebitWithinHolds(t, plan, items, reservation);
  }

  // ----- Late settlement of a queue job -----

  /**
   Two queued jobs of one credit each; the hold of the first is released and the first is then
   settled. That settlement takes the second job's hold, and the second can no longer be settled.
   */
  lemma LateSettlementExample(t: Tables, late: Tables)
    requires t == EnqueueJob(EnqueueJob(GrantSignupBonus(EMPTY, 7).tables, 7, 1).tables, 7, 1).tables
    requires late == SettleJob(ReleaseJob(t, 1).tables, 1).tables
    ensures SettleJob(t, 1).reply == Ok(3) && SettleJob(SettleJob(t, 1).tables, 2).reply == Ok(3)
    ensures late.balances[7] == Balance(4, 0) && late.jobs[1] == QueueJob(7, 1, 1, false, false)
    ensures SettleJob(late, 2).reply == Refused(CreditInvariant) && !ReservedBacked(late)
  {
    assert late.jobs == [QueueJob(7, 1, 0, true, true), QueueJob(7, 1, 1, false, false)];
    assert JobColumn(late.jobs, 7) == [0] + [1];
    SumAppend([0], 1);
    assert ReservationColumn(late.reservations, 7) == [];
    assert !ReservedBackedFor(late, 7);
  }

  // ----- Orders are credited once -----

  /** At most one row is appended, and it is no top-up. */
  ghost predicate LogsNoTopUp(t: Tables, t': Tables) {
    || t'.log == t.log
    || (|t'.log| == |t.log| + 1 && t'.log == t.log + [t'.log[|t.log|]] && t'.log[|t.log|].kind != PaymentTopUp)
  }

  lemma SubmitLogsNoTopUp(t: Tables, q: BatchRequest)
    requires ReservationsSound(t)
    ensures LogsNoTopUp(t, SubmitBatch(t, q).tables)
  {
    if SubmitBatch(t, q).tables != t {
      FreshBatchReserves(t, q);
    }
  }

  lemma ClaimLogsNoTopUp(t: Tables, q: ClaimRequest, actual: int)
    ensures LogsNoTopUp(t, SettleItem(t, q, actual).tables) && LogsNoTopUp(t, ReleaseItem(t, q).tables)
  {
  }

  lemma CreditsLogNoTopUp(t: Tables, op: Op)
    requires ReservationsSound(t)
    ensures LogsNoTopUp(t, ApplyToCredits(t, op))
  {
    match op
    case Submit(batch) => SubmitLogsNoTopUp(t, batch);
    case Settle(claim, actual) => ClaimLogsNoTopUp(t, claim, actual);
    case Release(claim) => ClaimLogsNoTopUp(t, claim, 0);
    case _ =>
  }

  lemma StepLogsAtMostOneRow(s: System, op: Op)
    requires SystemSound(s)
    ensures
      var log, log' := s.tables.log, Apply(s, op).tables.log;
      log' == log || (|log'| == |log| + 1 && log' == log + [log'[|log|]])
    ensures
      var log, log' := s.tables.log, Apply(s, op).tables.log;
      |log'| > |log| && log'[|log|].kind == PaymentTopUp ==>
        && op.CommitCallback? && op.index < |s.callbacks|
        && log'[|log|].related == s.callbacks[op.index].order
        && ValidId(s.tables.orders, s.callbacks[op.index].order)
        && s.tables.orders[s.callbacks[op.index].order - 1].status == Pending
  {
    if !IsOrderOp(op) {
      CreditsLogNoTopUp(s.tables, op);
    }
  }

  lemma OrdersStayOutOfPending(s: System, op: Op, order: nat)
    requires ValidId(s.tables.orders, order) && s.tables.orders[order - 1].status != Pending
    ensures ValidId(ApplyToOrders(s, op).orders, order) && ApplyToOrders(s, op).orders[order - 1].status != Pending
  {
  }

  lemma StaysOutOfPending(s: System, op: Op, order: nat)
    requires ValidId(s.tables.orders, order) && s.tables.orders[order - 1].status != Pending
    ensures ValidId(Apply(s, op).tables.orders, order) && Apply(s, op).tables.orders[order - 1].status != Pending
  {
    if IsOrderOp(op) {
      OrdersStayOutOfPending(s, op, order);
    } else {
      CreditsLeaveOrders(s.tables, op);
    }
  }

  /** An order outside pending stays outside pending, and no step credits it. */
  lemma NonPendingOrderStep(s: System, op: Op, order: nat)
    requires SystemSound(s) && ValidId(s.tables.orders, order) && s.tables.orders[order - 1].status != Pending
    ensures ValidId(Apply(s, op).tables.orders, order) && Apply(s, op).tables.orders[order - 1].status != Pending
    ensures TopUps(Apply(s, op).tables.log, order) == TopUps(s.tables.log, order)
  {
    StaysOutOfPending(s, op, order);
    StepLogsAtMostOneRow(s, op);
    var log, log' := s.tables.log, Apply(s, op).tables.log;
    if log' != log {
      TopUpsAppend(log, log'[|log|], order);
    }
  }

  /** Once an order has left pending, no run ever credits it again or makes it pending again. */
  lemma {:induction false} NonPendingOrderIsNeverCredited(s: System, ops: seq<Op>, order: nat)
    requires SystemSound(s) && ValidId(s.tables.orders, order) && s.tables.orders[order - 1].status != Pending
    ensures ValidId(Run(s, ops).tables.orders, order) && Run(s, ops).tables.orders[order - 1].status != Pending
    ensures TopUps(Run(s, ops).tables.log, order) == TopUps(s.tables.log, order)
  {
    if ops != [] {
      var before := ops[..|ops| - 1];
      NonPendingOrderIsNeverCredited(s, before, order);
      RunsStaySound(s, before);
      NonPendingOrderStep(Run(s, before), ops[|ops| - 1], order);
    }
  }

  lemma CreditingRow(log: seq<Transaction>, log': seq<Transaction>, order: nat)
    requires log' == log || (|log'| == |log| + 1 && log' == log + [log'[|log|]])
    requires TopUps(log', order) != TopUps(log, order)
    ensures |log'| > |log| && IsTopUp(log'[|log|], order)
  {
    if log' != log {
      TopUpsAppend(log, log'[|log|], order);
    }
  }

  lemma CreditingStepCommits(s: System, op: Op, order: nat)
    requires SystemSound(s) && TopUps(Apply(s, op).tables.log, order) != TopUps(s.tables.log, order)
    ensures op.CommitCallback? && op.index < |s.callbacks| && s.callbacks[op.index].order == order
    ensures ValidId(s.tables.orders, order) && s.tables.orders[order - 1].status == Pending
  {
    StepLogsAtMostOneRow(s, op);
    CreditingRow(s.tables.log, Apply(s, op).tables.log, order);
  }

  lemma SettlingCredits(t: Tables, order: nat, loaded: Order)
    requires ValidId(t.orders, order) && t.orders[order - 1].status == Pending && SameSale(loaded, t.orders[order - 1])
    ensures var t' := SettleCallback(t, order, loaded);
            && ValidId(t'.orders, order)
            && t'.orders[order - 1] == t.orders[order - 1].(status := Paid)
            && Available(t', loaded.user) == Available(t, loaded.user) + loaded.credits
  {
  }

  /**
   A step credits an order only by committing a callback whose trade succeeded for exactly the
   order's amount, while the order is pending; the buyer gets exactly the order's credits and the
   order is paid.
   */
  lemma CreditingStep(s: System, op: Op, order: nat)
    requires SystemSound(s) && TopUps(Apply(s, op).tables.log, order) != TopUps(s.tables.log, order)
    ensures op.CommitCallback? && op.index < |s.callbacks| && s.callbacks[op.index].order == order
    ensures ValidId(s.tables.orders, order) && ValidId(Apply(s, op).tables.orders, order)
    ensures
      var c, before, after := s.callbacks[op.index], s.tables.orders[order - 1], Apply(s, op).tables.orders[order - 1];
      && c.trade.amountCents == Some(before.amountCents) && SuccessfulTrade(c.trade.status)
      && before.status == Pending && after == before.(status := Paid)
      && Available(Apply(s, op).tables, before.user) == Available(s.tables, before.user) + before.credits
  {
    CreditingStepCommits(s, op, order);
    var c := s.callbacks[op.index];
    assert CallbackSound(s.tables, c);
    SettlingCredits(s.tables, order, c.loaded);
    assert Apply(s, op).tables == SettleCallback(s.tables, order, c.loaded);
  }

  /**
   Over every run, with any number of callbacks interleaved, an order is credited at most once, and
   only if it was paid.
   */
  lemma OrderIsCreditedAtMostOnce(s: System, ops: seq<Op>, order: nat)
    requires SystemSound(s)
    ensures
      var t := Run(s, ops).tables;
      ValidId(t.orders, order) ==>
        && TopUps(t.log, order) <= 1
        && (t.orders[order - 1].status == Paid ==> TopUps(t.log, order) == 1)
        && (t.orders[order - 1].status in {Pending, Failed, Expired} ==> TopUps(t.log, order) == 0)
  {
    RunsStaySound(s, ops);
    var t := Run(s, ops).tables;
    if ValidId(t.orders, order) {
      assert OrderSound(t, order);
    }
  }

  /** Two callbacks that both loaded the order while it was pending: the second commit changes nothing. */
  lemma SecondCommitIsNoOp(t: Tables, order: nat, first: Order, second: Order)
    requires OrdersSound(t) && ValidId(t.orders, order) && t.orders[order - 1].status == Pending
    ensures SettleCallback(SettleCallback(t, order, first), order, second) == SettleCallback(t, order, first)
    ensures Available(SettleCallback(t, order, first), first.user) == Available(t, first.user) + first.credits
    ensures TopUps(SettleCallback(t, order, first).log, order) == 1
  {
    assert OrderSound(t, order);
    PendingHasNoTopUp(t, order);
    var t' := SettleCallback(t, order, first);
    TopUpsAppend(t.log, t'.log[|t.log|], order);
  }
}
