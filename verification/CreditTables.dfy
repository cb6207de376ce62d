/**
 The rows that carry credits, and what each committed transaction does to them.

 A table with an auto-increment key is a sequence whose row `id` sits at index `id - 1`; a table
 read through a unique key is a map. A request that is refused leaves the tables as they were,
 because the surrounding database transaction rolls back.
 */
module CreditTables {
  import opened Arithmetic
  import opened Foundations
  import opened Sums
  import opened Text

  datatype Balance = Balance(available: int, reserved: int)

  datatype TxKind =
    | SignupBonus | ManualTopUp | ManualDeduct | PaymentTopUp | GenerationCharge
    | GenerationReserve | GenerationSettle | GenerationRelease
    | CommerceReserve | CommerceRelease

  datatype Transaction = Transaction(user: nat, kind: TxKind, amount: int, balanceAfter: int, related: nat)

  datatype ReservationStatus = Reserved | Settled | Released

  datatype Reservation = Reservation(
    user: nat, project: nat, batch: Option<nat>, scopeType: string, scopeKey: string, key: string,
    status: ReservationStatus, total: int, reserved: int, settled: int, released: int)

  datatype Batch = Batch(user: nat, project: nat, key: string, digest: string)

  datatype Item = Item(user: nat, project: nat, batch: nat, reservation: nat, held: int, settled: int, released: int)

  datatype Settlement = Settlement(
    user: nat, project: nat, batch: nat, reservation: nat, key: string,
    held: int, actual: int, settled: int, released: int, exceedsHold: bool)

  datatype QueueJob = QueueJob(user: nat, cost: int, reserved: int, settled: bool, released: bool)

  datatype OrderStatus = Pending | Paid | Failed | Expired | Refunded

  datatype Order = Order(user: nat, amountCents: int, credits: int, createdAt: int, status: OrderStatus)

  datatype Tables = Tables(
    balances: map<nat, Balance>,
    batches: seq<Batch>,
    reservations: seq<Reservation>,
    items: seq<Item>,
    settlements: map<nat, Settlement>,
    jobs: seq<QueueJob>,
    orders: seq<Order>,
    log: seq<Transaction>)

  const EMPTY := Tables(map[], [], [], [], map[], [], [], [])

  datatype LedgerError =
    | InvalidInput | IdempotencyConflict | CreditsInsufficient | CreditInvariant | RowNotFound | RowExists

  datatype Reply<+T> = Ok(value: T) | Refused(error: LedgerError)

  /** The tables after a transaction, and what its caller is told. */
  datatype Step<+T> = Step(tables: Tables, reply: Reply<T>)

  predicate ValidId<T>(rows: seq<T>, id: nat) {
    1 <= id <= |rows|
  }

  function Available(t: Tables, user: nat): int {
    if user in t.balances then t.balances[user].available else 0
  }

  function ReservedBalance(t: Tables, user: nat): int {
    if user in t.balances then t.balances[user].reserved else 0
  }

  /** Replaces one balance and appends the matching log row. */
  function Post(t: Tables, user: nat, b: Balance, kind: TxKind, amount: int, related: nat): Tables {
    t.(balances := t.balances[user := b],
       log := t.log + [Transaction(user, kind, amount, b.available, related)])
  }

  // ----- Direct writers of the available balance -----

  const SIGNUP_BONUS_CREDITS := 5

  function GrantSignupBonus(t: Tables, user: nat): Step<()> {
    if user in t.balances then Step(t, Refused(RowExists))
    else Step(Post(t, user, Balance(SIGNUP_BONUS_CREDITS, 0), SignupBonus, SIGNUP_BONUS_CREDITS, user), Ok(()))
  }

  /** The balance row that FirstOrCreate returns. */
  function BalanceRow(t: Tables, user: nat): Balance {
    if user in t.balances then t.balances[user] else Balance(0, 0)
  }

  function AdjustCredits(t: Tables, user: nat, deduct: bool, amount: int): Step<int> {
    var b := BalanceRow(t, user);
    if amount <= 0 then Step(t, Refused(InvalidInput))
    else if deduct && b.available < amount then Step(t, Refused(CreditsInsufficient))
    else
      var delta := if deduct then -amount else amount;
      var b' := b.(available := b.available + delta);
      Step(Post(t, user, b', if deduct then ManualDeduct else ManualTopUp, delta, 0), Ok(b'.available))
  }

  /** What a generation record costs: its own price, or one credit when none is set. */
  function RecordCost(creditsCost: int): (cost: int)
    ensures cost > 0
  {
    if creditsCost > 0 then creditsCost else 1
  }

  function ChargeGeneration(t: Tables, user: nat, creditsCost: int, record: nat): Step<int> {
    var cost := RecordCost(creditsCost);
    if !(user in t.balances && t.balances[user].available >= cost) then Step(t, Refused(CreditsInsufficient))
    else
      var b := t.balances[user];
      var b' := b.(available := b.available - cost);
      Step(Post(t, user, b', GenerationCharge, -cost, record), Ok(b'.available))
  }

  // ----- Commerce reservations -----

  datatype ReserveRequest = ReserveRequest(
    user: nat, project: nat, batch: Option<nat>, scopeType: string, scopeKey: string, key: string, amount: int)

  datatype ReservationSnapshot = ReservationSnapshot(
    id: nat, reserved: int, settled: int, released: int, available: int)

  /** The id of the first reservation of a user with an idempotency key. */
  function FindReservation(rs: seq<Reservation>, user: nat, key: string): (found: Option<nat>)
    ensures found.Some? ==>
              && ValidId(rs, found.value)
              && rs[found.value - 1].user == user && rs[found.value - 1].key == key
              && forall i :: 0 <= i < found.value - 1 ==> !(rs[i].user == user && rs[i].key == key)
    ensures found.None? ==> forall i :: 0 <= i < |rs| ==> !(rs[i].user == user && rs[i].key == key)
  {
    if rs == [] then None
    else
      var earlier := FindReservation(rs[..|rs| - 1], user, key);
      if earlier.Some? then earlier
      else if rs[|rs| - 1].user == user && rs[|rs| - 1].key == key then Some(|rs|)
      else None
  }

  predicate SameReservation(r: Reservation, q: ReserveRequest) {
    r.project == q.project && r.scopeType == q.scopeType && r.scopeKey == q.scopeKey
    && r.total == q.amount && r.batch == q.batch
  }

  predicate InvalidReserve(q: ReserveRequest) {
    q.user == 0 || q.project == 0 || q.amount <= 0 || IsBlank(q.key)
  }

  function NewReservation(q: ReserveRequest): Reservation {
    Reservation(q.user, q.project, q.batch, q.scopeType, q.scopeKey, q.key, Reserved, q.amount, q.amount, 0, 0)
  }

  function Reserve(t: Tables, q: ReserveRequest): Step<ReservationSnapshot> {
    var found := FindReservation(t.reservations, q.user, q.key);
    if InvalidReserve(q) then Step(t, Refused(InvalidInput))
    else if found.Some? then
      var r := t.reservations[found.value - 1];
      if !SameReservation(r, q) then Step(t, Refused(IdempotencyConflict))
      else if q.user !in t.balances then Step(t, Refused(RowNotFound))
      else Step(t, Ok(ReservationSnapshot(found.value, r.reserved, r.settled, r.released, Available(t, q.user))))
    else if !(q.user in t.balances && t.balances[q.user].available >= q.amount) then
      Step(t, Refused(CreditsInsufficient))
    else
      var b := t.balances[q.user];
      var b' := Balance(b.available - q.amount, b.reserved + q.amount);
      var id := |t.reservations| + 1;
      var t' := t.(reservations := t.reservations + [NewReservation(q)]);
      Step(Post(t', q.user, b', CommerceReserve, -q.amount, id),
           Ok(ReservationSnapshot(id, q.amount, 0, 0, b'.available)))
  }

  // ----- Batches: one reservation, and items whose holds add up to it -----

  datatype BatchRequest = BatchRequest(user: nat, project: nat, key: string, digest: string, holds: seq<int>)

  function FindBatch(bs: seq<Batch>, user: nat, key: string): (found: Option<nat>)
    ensures found.Some? ==>
              && ValidId(bs, found.value)
              && bs[found.value - 1].user == user && bs[found.value - 1].key == key
    ensures found.None? ==> forall i :: 0 <= i < |bs| ==> !(bs[i].user == user && bs[i].key == key)
  {
    if bs == [] then None
    else
      var earlier := FindBatch(bs[..|bs| - 1], user, key);
      if earlier.Some? then earlier
      else if bs[|bs| - 1].user == user && bs[|bs| - 1].key == key then Some(|bs|)
      else None
  }

  function BatchReserve(q: BatchRequest, batch: nat): ReserveRequest {
    ReserveRequest(q.user, q.project, Some(batch), "batch", Digits(batch), "commerce:batch:" + q.key, Sum(q.holds))
  }

  function NewItems(q: BatchRequest, batch: nat, reservation: nat): (items: seq<Item>) {
    seq(|q.holds|, i requires 0 <= i < |q.holds| => Item(q.user, q.project, batch, reservation, q.holds[i], 0, 0))
  }

  function SubmitBatch(t: Tables, q: BatchRequest): Step<nat> {
    var found := FindBatch(t.batches, q.user, q.key);
    if IsBlank(q.key) then Step(t, Refused(InvalidInput))
    else if found.Some? then
      var b := t.batches[found.value - 1];
      if b.project != q.project || b.digest != q.digest then Step(t, Refused(IdempotencyConflict))
      else Step(t, Ok(found.value))
    else if exists i :: 0 <= i < |q.holds| && q.holds[i] <= 0 then Step(t, Refused(InvalidInput))
    else
      var batch := |t.batches| + 1;
      var t1 := t.(batches := t.batches + [Batch(q.user, q.project, q.key, q.digest)]);
      var s := Reserve(t1, BatchReserve(q, batch));
      match s.reply
      case Refused(e) => Step(t, Refused(e))
      case Ok(snapshot) =>
        Step(s.tables.(items := s.tables.items + NewItems(q, batch, snapshot.id)), Ok(batch))
  }

  // ----- Claiming an item: settle or release -----

  datatype ClaimRequest = ClaimRequest(
    user: nat, project: nat, batch: nat, reservation: nat, item: nat, held: int, key: string)

  predicate InvalidClaim(q: ClaimRequest) {
    q.user == 0 || q.project == 0 || q.batch == 0 || q.reservation == 0 || q.item == 0 || q.held < 0
  }

  /** How a hold is divided once the actual cost is known. */
  datatype Split = Split(actual: int, settled: int, released: int, exceedsHold: bool)

  function SettleSplit(held: int, actualCredits: int): (s: Split)
    ensures held >= 0 ==>
              && s.settled == Min(Max(actualCredits, 0), held)
              && s.settled + s.released == held
              && s.settled >= 0 && s.released >= 0
              && (s.exceedsHold <==> actualCredits > held)
  {
    var actual := if actualCredits < 0 then 0 else actualCredits;
    if actual < held then Split(actual, actual, held - actual, false)
    else if actual > held then Split(actual, held, 0, true)
    else Split(actual, actual, 0, false)
  }

  function ReleaseSplit(held: int): Split {
    Split(0, 0, held, false)
  }

  function NewSettlement(q: ClaimRequest, s: Split): Settlement {
    Settlement(q.user, q.project, q.batch, q.reservation, q.key, q.held, s.actual, s.settled, s.released, s.exceedsHold)
  }

  predicate SameScope(e: Settlement, q: ClaimRequest) {
    e.user == q.user && e.project == q.project && e.batch == q.batch && e.reservation == q.reservation
  }

  /** The item row and the reservation row exist and belong to the request. */
  predicate InScope(t: Tables, q: ClaimRequest) {
    && ValidId(t.items, q.item)
    && (var i := t.items[q.item - 1];
        i.user == q.user && i.project == q.project && i.batch == q.batch
        && i.reservation == q.reservation && i.held == q.held)
    && ValidId(t.reservations, q.reservation)
    && (var r := t.reservations[q.reservation - 1];
        r.user == q.user && r.project == q.project && (r.batch.Some? ==> r.batch.value == q.batch))
  }

  /** A reservation after one hold has left it. */
  function ConsumeHold(r: Reservation, held: int, s: Split): Reservation {
    var reserved := r.reserved - held;
    var settled := r.settled + s.settled;
    r.(reserved := reserved, settled := settled, released := r.released + s.released,
       status := if reserved != 0 then r.status else if settled == 0 then Released else Settled)
  }

  predicate CanConsume(t: Tables, q: ClaimRequest) {
    && InScope(t, q)
    && q.user in t.balances && t.balances[q.user].reserved >= q.held
    && t.reservations[q.reservation - 1].reserved >= q.held
  }

  function ConsumeItem(t: Tables, q: ClaimRequest, s: Split): Tables
    requires CanConsume(t, q)
  {
    var b := t.balances[q.user];
    var b' := Balance(b.available + s.released, b.reserved - q.held);
    t.(balances := t.balances[q.user := b'],
       reservations := t.reservations[q.reservation - 1 := ConsumeHold(t.reservations[q.reservation - 1], q.held, s)],
       items := t.items[q.item - 1 := t.items[q.item - 1].(settled := s.settled, released := s.released)],
       settlements := t.settlements[q.item := NewSettlement(q, s)],
       log := t.log + (if s.released == 0 then [] else
                         [Transaction(q.user, CommerceRelease, s.released, b'.available, q.item)]))
  }

  function ClaimItem(t: Tables, q: ClaimRequest, s: Split): Step<()> {
    if q.item in t.settlements then
      Step(t, if SameScope(t.settlements[q.item], q) then Ok(()) else Refused(CreditInvariant))
    else if !CanConsume(t, q) then Step(t, Refused(CreditInvariant))
    else Step(ConsumeItem(t, q, s), Ok(()))
  }

  function SettleItem(t: Tables, q: ClaimRequest, actualCredits: int): Step<()> {
    if InvalidClaim(q) then Step(t, Refused(InvalidInput))
    else ClaimItem(t, q, SettleSplit(q.held, actualCredits))
  }

  function ReleaseItem(t: Tables, q: ClaimRequest): Step<()> {
    if InvalidClaim(q) then Step(t, Refused(InvalidInput))
    else ClaimItem(t, q, ReleaseSplit(q.held))
  }

  // ----- Billing of the durable image queue -----

  function EnqueueJob(t: Tables, user: nat, cost: int): Step<nat>
    requires cost > 0
  {
    if !(user in t.balances && t.balances[user].available >= cost) then Step(t, Refused(CreditsInsufficient))
    else
      var b := t.balances[user];
      var id := |t.jobs| + 1;
      var t' := t.(jobs := t.jobs + [QueueJob(user, cost, cost, false, false)]);
      Step(Post(t', user, Balance(b.available - cost, b.reserved + cost), GenerationReserve, -cost, id), Ok(id))
  }

  function SettleJob(t: Tables, id: nat): Step<int> {
    if !ValidId(t.jobs, id) then Step(t, Refused(RowNotFound))
    else
      var j := t.jobs[id - 1];
      if j.settled then Step(t, if j.user in t.balances then Ok(Available(t, j.user)) else Refused(RowNotFound))
      else if !(j.user in t.balances && t.balances[j.user].reserved >= j.cost) then Step(t, Refused(CreditInvariant))
      else
        var b := t.balances[j.user];
        var t' := t.(jobs := t.jobs[id - 1 := j.(settled := true, reserved := 0)]);
        Step(Post(t', j.user, b.(reserved := b.reserved - j.cost), GenerationSettle, 0, id), Ok(b.available))
  }

  function ReleaseJob(t: Tables, id: nat): Step<()> {
    if !ValidId(t.jobs, id) then Step(t, Refused(RowNotFound))
    else
      var j := t.jobs[id - 1];
      if j.released || j.settled || j.reserved <= 0 then Step(t, Ok(()))
      else if !(j.user in t.balances && t.balances[j.user].reserved >= j.reserved) then
        Step(t, Refused(CreditInvariant))
      else
        var b := t.balances[j.user];
        var t' := t.(jobs := t.jobs[id - 1 := j.(released := true, reserved := 0)]);
        Step(Post(t', j.user, Balance(b.available + j.reserved, b.reserved - j.reserved),
                  GenerationRelease, j.reserved, id), Ok(()))
  }
}
