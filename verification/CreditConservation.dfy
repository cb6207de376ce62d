/**
 Credits are conserved: what a user has available, what is reserved and what has been spent from
 reservations add up to what top-ups, grants and direct charges brought in. This holds after every
 transaction, even one that takes more out of the reserved balance than is held there.
 */
module CreditConservation {
  import opened Sums
  import opened CreditTables
  import opened CreditInvariants
  import opened CreditSteps

  predicate IsExternal(kind: TxKind) {
    kind in {SignupBonus, ManualTopUp, ManualDeduct, PaymentTopUp, GenerationCharge}
  }

  function ExternalAmount(x: Transaction, user: nat): int {
    if x.user == user && IsExternal(x.kind) then x.amount else 0
  }

  function ExternalColumn(log: seq<Transaction>, user: nat): seq<int> {
    seq(|log|, i requires 0 <= i < |log| => ExternalAmount(log[i], user))
  }

  function SpentColumn(rs: seq<Reservation>, user: nat): seq<int> {
    seq(|rs|, i requires 0 <= i < |rs| => if rs[i].user == user then rs[i].settled else 0)
  }

  function ChargedColumn(jobs: seq<QueueJob>, user: nat): seq<int> {
    seq(|jobs|, i requires 0 <= i < |jobs| => if jobs[i].user == user && jobs[i].settled then jobs[i].cost else 0)
  }

  /** Credits a user has or has spent out of a hold. */
  function Holdings(t: Tables, user: nat): int {
    Available(t, user) + ReservedBalance(t, user)
    + Sum(SpentColumn(t.reservations, user)) + Sum(ChargedColumn(t.jobs, user))
  }

  ghost predicate ConservedFor(t: Tables, user: nat) {
    Holdings(t, user) == Sum(ExternalColumn(t.log, user))
  }

  ghost predicate Conserved(t: Tables) {
    forall user: nat :: ConservedFor(t, user)
  }

  lemma EmptyIsConserved()
    ensures Conserved(EMPTY)
  {
  }

  lemma LogRow(log: seq<Transaction>, x: Transaction, user: nat)
    ensures Sum(ExternalColumn(log + [x], user)) == Sum(ExternalColumn(log, user)) + ExternalAmount(x, user)
  {
    assert ExternalColumn(log + [x], user) == ExternalColumn(log, user) + [ExternalAmount(x, user)];
    SumAppend(ExternalColumn(log, user), ExternalAmount(x, user));
  }

  /** A posting that leaves reservations and jobs alone and moves only the available balance. */
  lemma PostConserves(t: Tables, t': Tables, user: nat, b: Balance, x: Transaction)
    requires Conserved(t) && t'.reservations == t.reservations && t'.jobs == t.jobs
    requires t'.balances == t.balances[user := b] && t'.log == t.log + [x]
    requires x.user == user && IsExternal(x.kind)
    requires b.available == Available(t, user) + x.amount && b.reserved == ReservedBalance(t, user)
    ensures Conserved(t')
  {
    forall v: nat ensures ConservedFor(t', v) {
      assert ConservedFor(t, v);
      LogRow(t.log, x, v);
    }
  }

  lemma UnchangedConserves(t: Tables, t': Tables)
    requires Conserved(t) && t'.reservations == t.reservations && t'.jobs == t.jobs
    requires t'.balances == t.balances && t'.log == t.log
    ensures Conserved(t')
  {
    forall v: nat ensures ConservedFor(t', v) {
      assert ConservedFor(t, v);
    }
  }

  lemma SubmitConserves(t: Tables, q: BatchRequest)
    requires ReservationsSound(t) && Conserved(t)
    ensures Conserved(SubmitBatch(t, q).tables)
  {
    var t' := SubmitBatch(t, q).tables;
    if t' != t {
      FreshBatchReserves(t, q);
      forall v: nat ensures ConservedFor(t', v) {
        assert ConservedFor(t, v);
        LogRow(t.log, t'.log[|t.log|], v);
        assert SpentColumn(t'.reservations, v) == SpentColumn(t.reservations, v) + [0];
        SumAppend(SpentColumn(t.reservations, v), 0);
      }
    }
  }

  lemma ClaimConserves(t: Tables, q: ClaimRequest, s: Split)
    requires Conserved(t) && GoodSplit(q.held, s)
    ensures Conserved(ClaimItem(t, q, s).tables)
    ensures forall user: nat ::
              Sum(ExternalColumn(ClaimItem(t, q, s).tables.log, user)) == Sum(ExternalColumn(t.log, user))
  {
    var t' := ClaimItem(t, q, s).tables;
    if q.item !in t.settlements && CanConsume(t, q) {
      forall v: nat
        ensures ConservedFor(t', v) && Sum(ExternalColumn(t'.log, v)) == Sum(ExternalColumn(t.log, v))
      {
        assert ConservedFor(t, v);
        var column, k := SpentColumn(t.reservations, v), q.reservation - 1;
        var row := if v == q.user then t'.reservations[k].settled else 0;
        assert SpentColumn(t'.reservations, v) == column[k := row];
        SumUpdate(column, k, row);
        if s.released == 0 {
          assert t'.log == t.log;
        } else {
          LogRow(t.log, t'.log[|t.log|], v);
        }
      }
    }
  }

  lemma EnqueueConserves(t: Tables, user: nat, cost: int)
    requires Conserved(t) && cost > 0
    ensures Conserved(EnqueueJob(t, user, cost).tables)
  {
    var t' := EnqueueJob(t, user, cost).tables;
    if t' != t {
      forall v: nat ensures ConservedFor(t', v) {
        assert ConservedFor(t, v);
        LogRow(t.log, t'.log[|t.log|], v);
        assert ChargedColumn(t'.jobs, v) == ChargedColumn(t.jobs, v) + [0];
        SumAppend(ChargedColumn(t.jobs, v), 0);
      }
    }
  }

  lemma JobRowConserves(t: Tables, t': Tables, id: nat)
    requires Conserved(t) && (t' == SettleJob(t, id).tables || t' == ReleaseJob(t, id).tables)
    ensures Conserved(t')
  {
    if t' != t {
      forall v: nat ensures ConservedFor(t', v) {
        assert ConservedFor(t, v);
        LogRow(t.log, t'.log[|t.log|], v);
        var column, j := ChargedColumn(t.jobs, v), t'.jobs[id - 1];
        var row := if v == j.user && j.settled then j.cost else 0;
        assert ChargedColumn(t'.jobs, v) == column[id - 1 := row];
        SumUpdate(column, id - 1, row);
      }
    }
  }
}
