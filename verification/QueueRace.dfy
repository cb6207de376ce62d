/**
 One job of the durable image queue between its workers and a cancellation. A cancellation releases the
 job's hold and marks the generation record failed; a worker writes the record as running when it
 starts, looks at it once after the provider has answered, and settles the hold when it commits. When
 a lease expires another worker may claim the job while the first one still runs.
 */
module QueueRace {
  import opened Foundations
  import opened CreditTables
  import opened CreditInvariants
  import opened CreditSteps

  datatype JobStatus = Waiting | Running | Closed

  /** How far a worker has come: claimed the job, written the record as running, seen it still active. */
  datatype Phase = Claimed | Started | Checked

  /** The workers by the lease token each of them was given. */
  datatype Queue = Queue(
    tables: Tables, job: nat, status: JobStatus, lease: Option<nat>, recordActive: bool, workers: map<nat, Phase>)

  datatype Event =
    | Claim(worker: nat)
    | Start(worker: nat)
    | Check(worker: nat)
    | Persist(worker: nat)
    | Commit(worker: nat)
    | CommitSpool(worker: nat)
    | GiveBack(worker: nat)
    | Stop(worker: nat)
    | Close(holder: Option<nat>)
    | FailRecord
    | Finish
    | Recover
    | Elsewhere(tables: Tables)

  predicate Is(q: Queue, worker: nat, phase: Phase) {
    worker in q.workers && q.workers[worker] == phase
  }

  ghost predicate JobKept(q: Queue, t: Tables) {
    && ValidId(q.tables.jobs, q.job) && ValidId(t.jobs, q.job) && t.jobs[q.job - 1] == q.tables.jobs[q.job - 1]
    && (Inv(q.tables) ==> Inv(t))
  }

  /** Cancelling, expiring or failing a job: guarded by its status and, when one is given, by its lease. */
  function CloseJob(q: Queue, holder: Option<nat>): Queue {
    var released := ReleaseJob(q.tables, q.job);
    if q.status == Closed || (holder.Some? && q.lease != holder) || released.reply.Refused? then q
    else q.(tables := released.tables, status := Closed, lease := None, recordActive := false)
  }

  /** The success transaction: it looks neither at the job's status nor at its lease. */
  function CommitJob(q: Queue, worker: nat): Queue {
    var settled := SettleJob(q.tables, q.job);
    var u := q.(workers := q.workers - {worker});
    if settled.reply.Refused? then u else u.(tables := settled.tables, recordActive := false)
  }

  /** An event that cannot happen leaves the queue as it is. */
  ghost function Step(q: Queue, e: Event): Queue {
    match e
    case Claim(w) =>
      if w in q.workers || q.status != Waiting then q
      else q.(status := Running, lease := Some(w), workers := q.workers[w := Claimed])
    case Start(w) => if Is(q, w, Claimed) then q.(workers := q.workers[w := Started], recordActive := true) else q
    case Check(w) =>
      if !Is(q, w, Started) then q
      else q.(workers := if q.recordActive then q.workers[w := Checked] else q.workers - {w})
    case Persist(w) => if Is(q, w, Checked) then q.(recordActive := true) else q
    case Commit(w) => if Is(q, w, Checked) then CommitJob(q, w) else q
    case CommitSpool(w) =>
      if !Is(q, w, Claimed) then q
      else if q.lease == Some(w) then CommitJob(q, w) else q.(workers := q.workers - {w})
    case GiveBack(w) =>
      if w !in q.workers then q
      else
        var u := q.(workers := q.workers - {w});
        if q.lease == Some(w) then u.(status := Waiting, lease := None) else u
    case Stop(w) => q.(workers := q.workers - {w})
    case Close(holder) => CloseJob(q, holder)
    case FailRecord => q.(recordActive := false)
    case Finish => if q.status == Running && !q.recordActive then q.(status := Closed, lease := None) else q
    case Recover => if q.status == Running && q.recordActive then q.(status := Waiting, lease := None) else q
    case Elsewhere(t) => if JobKept(q, t) then q.(tables := t) else q
  }

  function Row(q: Queue): QueueJob
    requires ValidId(q.tables.jobs, q.job)
  {
    q.tables.jobs[q.job - 1]
  }

  ghost predicate QueueSound(q: Queue) {
    && ValidId(q.tables.jobs, q.job)
    && Row(q).cost > 0 && Row(q).reserved == (if Row(q).settled || Row(q).released then 0 else Row(q).cost)
    && (Row(q).released ==> q.status == Closed)
    && (q.lease.Some? ==> q.status == Running)
  }

  /** A job as it is enqueued. */
  predicate IsFresh(q: Queue) {
    && ValidId(q.tables.jobs, q.job) && Row(q).cost > 0
    && Row(q) == QueueJob(Row(q).user, Row(q).cost, Row(q).cost, false, false)
    && q.status == Waiting && q.lease == None && q.recordActive && q.workers == map[]
  }

  lemma StepKeepsQueueSound(q: Queue, e: Event)
    requires QueueSound(q)
    ensures QueueSound(Step(q, e))
    ensures Row(q).released ==> Row(Step(q, e)).released
    ensures Row(q).settled ==> Row(Step(q, e)).settled
    ensures q.status == Closed ==> Step(q, e).status == Closed
  {
  }

  // ----- Who may move a job -----

  /** A hold is given back exactly by closing an open, unsettled job, and a worker needs the lease for that. */
  lemma GivenBackIff(q: Queue, e: Event)
    requires QueueSound(q) && !Row(q).released
    ensures ValidId(Step(q, e).tables.jobs, q.job)
    ensures Step(q, e).tables.jobs[q.job - 1].released <==>
            && e.Close? && q.status != Closed && (e.holder.Some? ==> e.holder == q.lease) && !Row(q).settled
            && Row(q).user in q.tables.balances && ReservedBalance(q.tables, Row(q).user) >= Row(q).cost
  {
  }

  /**
   A hold is taken exactly by a worker that has seen the record active, whatever became of the job or
   its lease since, or that finds a stored result while it holds the lease.
   */
  lemma TakenIff(q: Queue, e: Event)
    requires QueueSound(q) && !Row(q).settled
    ensures ValidId(Step(q, e).tables.jobs, q.job)
    ensures Step(q, e).tables.jobs[q.job - 1].settled <==>
            && (|| (e.Commit? && Is(q, e.worker, Checked))
                || (e.CommitSpool? && Is(q, e.worker, Claimed) && q.lease == Some(e.worker)))
            && Row(q).user in q.tables.balances && ReservedBalance(q.tables, Row(q).user) >= Row(q).cost
  {
  }

  /** A lease is given to one new worker of a waiting job, and only then; a job has one exactly while it runs. */
  lemma LeaseMoves(q: Queue, e: Event)
    requires q.lease.Some? <==> q.status == Running
    ensures Step(q, e).lease.Some? <==> Step(q, e).status == Running
    ensures Step(q, e).lease.Some? && Step(q, e).lease != q.lease <==>
            e.Claim? && q.status == Waiting && e.worker !in q.workers
    ensures e.Claim? && q.status == Waiting && e.worker !in q.workers ==>
              Step(q, e) == q.(status := Running, lease := Some(e.worker), workers := q.workers[e.worker := Claimed])
  {
  }

  // ----- The ledger invariant -----

  /** A commit that takes effect on a job whose hold was already given back. */
  ghost predicate LateCommit(q: Queue, e: Event) {
    e.Commit? && Is(q, e.worker, Checked) && SettlesJob(q.tables, q.job) && Row(q).released
  }

  /** Of everything that can happen to a job, exactly such a commit breaks the reserved balance. */
  lemma InvIsLostIff(q: Queue, e: Event)
    requires QueueSound(q) && Inv(q.tables)
    ensures Inv(Step(q, e).tables) <==> !LateCommit(q, e)
  {
    SettlementKeepsInvIff(q.tables, q.job);
    ReleaseJobKeepsInv(q.tables, q.job);
  }

  ghost function Steps(q: Queue, events: seq<Event>): Queue
    decreases |events|
  {
    if events == [] then q else Step(Steps(q, events[..|events| - 1]), events[|events| - 1])
  }

  lemma {:induction false} StepsKeepQueueSound(q: Queue, events: seq<Event>)
    requires QueueSound(q)
    ensures QueueSound(Steps(q, events))
    decreases |events|
  {
    if events != [] {
      StepsKeepQueueSound(q, events[..|events| - 1]);
      StepKeepsQueueSound(Steps(q, events[..|events| - 1]), events[|events| - 1]);
    }
  }

  /** Over every history of a job without such a commit the whole ledger invariant is kept. */
  lemma {:induction false} HistoriesKeepInv(q: Queue, events: seq<Event>)
    requires QueueSound(q) && Inv(q.tables)
    requires forall n :: 0 <= n < |events| ==> !LateCommit(Steps(q, events[..n]), events[n])
    ensures QueueSound(Steps(q, events)) && Inv(Steps(q, events).tables)
    decreases |events|
  {
    if events != [] {
      var n := |events| - 1;
      var before := events[..n];
      forall k | 0 <= k < n ensures !LateCommit(Steps(q, before[..k]), before[k]) {
        assert before[k] == events[k] && before[..k] == events[..k];
      }
      HistoriesKeepInv(q, before);
      InvIsLostIff(Steps(q, before), events[n]);
      StepKeepsQueueSound(Steps(q, before), events[n]);
    }
  }

  // ----- Settled at most once -----

  /** The queue before event `n` of a history. */
  ghost function At(q: Queue, events: seq<Event>, n: nat): Queue
    requires n <= |events|
  {
    Steps(q, events[..n])
  }

  ghost predicate SettlesAt(q: Queue, events: seq<Event>, n: nat) {
    n < |events| && QueueSound(At(q, events, n))
    && !Row(At(q, events, n)).settled && QueueSound(At(q, events, n + 1)) && Row(At(q, events, n + 1)).settled
  }

  ghost predicate ReleasesAt(q: Queue, events: seq<Event>, n: nat) {
    n < |events| && QueueSound(At(q, events, n))
    && !Row(At(q, events, n)).released && QueueSound(At(q, events, n + 1)) && Row(At(q, events, n + 1)).released
  }

  lemma {:induction false} FlagsStay(q: Queue, events: seq<Event>, m: nat, n: nat)
    requires QueueSound(q) && m <= n <= |events|
    ensures QueueSound(At(q, events, m)) && QueueSound(At(q, events, n))
    ensures Row(At(q, events, m)).settled ==> Row(At(q, events, n)).settled
    ensures Row(At(q, events, m)).released ==> Row(At(q, events, n)).released
    ensures At(q, events, m).status == Closed ==> At(q, events, n).status == Closed
    decreases n - m
  {
    StepsKeepQueueSound(q, events[..m]);
    if m < n {
      FlagsStay(q, events, m, n - 1);
      assert events[..n][..n - 1] == events[..n - 1];
      StepKeepsQueueSound(At(q, events, n - 1), events[n - 1]);
    }
  }

  lemma NextAt(q: Queue, events: seq<Event>, n: nat)
    requires n < |events|
    ensures At(q, events, n + 1) == Step(At(q, events, n), events[n])
  {
    assert events[..n + 1][..n] == events[..n];
  }

  lemma SettledIsNotReleased(u: Queue, e: Event)
    requires QueueSound(u) && Row(u).settled && !Row(u).released && QueueSound(Step(u, e))
    ensures !Row(Step(u, e)).released
  {
  }

  /** However many workers commit, the hold is settled at most once, released at most once, and not released after. */
  lemma SettledAndReleasedOnce(q: Queue, events: seq<Event>, m: nat, n: nat)
    requires QueueSound(q) && m < n < |events|
    ensures !(SettlesAt(q, events, m) && SettlesAt(q, events, n))
    ensures !(ReleasesAt(q, events, m) && ReleasesAt(q, events, n))
    ensures !(SettlesAt(q, events, m) && ReleasesAt(q, events, n))
  {
    FlagsStay(q, events, m + 1, n);
    if SettlesAt(q, events, m) && ReleasesAt(q, events, n) {
      NextAt(q, events, n);
      SettledIsNotReleased(At(q, events, n), events[n]);
      assert false;
    }
  }

  lemma ReleaseStays(q: Queue, events: seq<Event>, n: nat)
    requires QueueSound(q) && ReleasesAt(q, events, n)
    ensures QueueSound(Steps(q, events)) && Row(Steps(q, events)).released
  {
    FlagsStay(q, events, n + 1, |events|);
    assert events[..|events|] == events;
  }

  // ----- Which releases a worker does not notice -----

  /** The event writes the record as running again, without looking at it. */
  ghost predicate RevivesAt(q: Queue, events: seq<Event>, n: nat) {
    && n < |events|
    && ((events[n].Start? && Is(At(q, events, n), events[n].worker, Claimed))
        || (events[n].Persist? && Is(At(q, events, n), events[n].worker, Checked)))
  }

  /** The worker looks at the record and goes on. */
  ghost predicate LooksAt(q: Queue, events: seq<Event>, n: nat, worker: nat) {
    n < |events| && events[n] == Check(worker) && Is(At(q, events, n), worker, Started) && At(q, events, n).recordActive
  }

  /** The hold was released when the worker had already looked. */
  ghost predicate ReleasedAfterLook(q: Queue, events: seq<Event>, worker: nat) {
    exists n :: 0 <= n < |events| && ReleasesAt(q, events, n) && Is(At(q, events, n), worker, Checked)
  }

  /** The hold was released and the record brought back to life. */
  ghost predicate RevivedAfterRelease(q: Queue, events: seq<Event>) {
    exists n, m :: 0 <= n < m < |events| && ReleasesAt(q, events, n) && RevivesAt(q, events, m)
  }

  /** And it was brought back before the worker looked. */
  ghost predicate RevivedBeforeLook(q: Queue, events: seq<Event>, worker: nat) {
    exists n, m, k :: 0 <= n < m < k < |events|
      && ReleasesAt(q, events, n) && RevivesAt(q, events, m) && LooksAt(q, events, k, worker)
  }

  ghost predicate Unnoticed(q: Queue, events: seq<Event>, worker: nat) {
    ReleasedAfterLook(q, events, worker) || RevivedBeforeLook(q, events, worker)
  }

  lemma SamePrefix(q: Queue, events: seq<Event>, e: Event, n: nat)
    requires n < |events|
    ensures At(q, events + [e], n) == At(q, events, n) && At(q, events + [e], n + 1) == At(q, events, n + 1)
    ensures (events + [e])[n] == events[n]
  {
    assert (events + [e])[..n] == events[..n] && (events + [e])[..n + 1] == events[..n + 1];
  }

  lemma LastPrefix(q: Queue, events: seq<Event>, e: Event)
    ensures At(q, events + [e], |events|) == Steps(q, events)
    ensures At(q, events + [e], |events| + 1) == Steps(q, events + [e]) == Step(Steps(q, events), e)
  {
    assert (events + [e])[..|events|] == events && (events + [e])[..|events| + 1] == events + [e];
  }

  lemma RevivalStays(q: Queue, events: seq<Event>, e: Event)
    requires RevivedAfterRelease(q, events)
    ensures RevivedAfterRelease(q, events + [e])
  {
    var n, m :| 0 <= n < m < |events| && ReleasesAt(q, events, n) && RevivesAt(q, events, m);
    SamePrefix(q, events, e, n);
    SamePrefix(q, events, e, m);
    assert ReleasesAt(q, events + [e], n) && RevivesAt(q, events + [e], m);
  }

  lemma UnnoticedStays(q: Queue, events: seq<Event>, e: Event, worker: nat)
    requires Unnoticed(q, events, worker)
    ensures Unnoticed(q, events + [e], worker)
  {
    var more := events + [e];
    if ReleasedAfterLook(q, events, worker) {
      var n :| 0 <= n < |events| && ReleasesAt(q, events, n) && Is(At(q, events, n), worker, Checked);
      SamePrefix(q, events, e, n);
      assert ReleasesAt(q, more, n) && Is(At(q, more, n), worker, Checked);
    } else {
      var n, m, k :| 0 <= n < m < k < |events|
        && ReleasesAt(q, events, n) && RevivesAt(q, events, m) && LooksAt(q, events, k, worker);
      SamePrefix(q, events, e, n);
      SamePrefix(q, events, e, m);
      SamePrefix(q, events, e, k);
      assert ReleasesAt(q, more, n) && RevivesAt(q, more, m) && LooksAt(q, more, k, worker);
    }
  }

  lemma SomeRelease(q: Queue, events: seq<Event>, n: nat)
    requires QueueSound(q) && !Row(q).released && n <= |events|
    requires QueueSound(At(q, events, n)) && Row(At(q, events, n)).released
    ensures exists m :: 0 <= m < n && ReleasesAt(q, events, m)
  {
    FlagsStay(q, events, n - 1, n);
    if Row(At(q, events, n - 1)).released {
      SomeRelease(q, events, n - 1);
    } else {
      assert ReleasesAt(q, events, n - 1);
    }
  }

  /** Where a released job stands: an active record was revived, and a worker past its look did not notice. */
  ghost predicate Explained(q: Queue, events: seq<Event>) {
    var u := Steps(q, events);
    QueueSound(u) && (Row(u).released ==>
      && (u.recordActive ==> RevivedAfterRelease(q, events))
      && (forall w :: Is(u, w, Checked) ==> Unnoticed(q, events, w)))
  }

  lemma OnlyClosingReleases(u: Queue, e: Event)
    requires QueueSound(u) && !Row(u).released && QueueSound(Step(u, e)) && Row(Step(u, e)).released
    ensures e.Close? && !Step(u, e).recordActive && Step(u, e).workers == u.workers
  {
  }

  lemma ReleaseIsExplained(q: Queue, events: seq<Event>, e: Event)
    requires Explained(q, events) && !Row(Steps(q, events)).released
    requires QueueSound(Steps(q, events + [e])) && Row(Steps(q, events + [e])).released
    ensures Explained(q, events + [e])
  {
    LastPrefix(q, events, e);
    OnlyClosingReleases(Steps(q, events), e);
    var v, more := Steps(q, events + [e]), events + [e];
    assert ReleasesAt(q, more, |events|);
    forall w | Is(v, w, Checked) ensures ReleasedAfterLook(q, more, w) {
      assert Is(At(q, more, |events|), w, Checked);
    }
  }

  lemma OnlyWritingRevives(u: Queue, e: Event)
    requires !u.recordActive && Step(u, e).recordActive
    ensures (e.Start? && Is(u, e.worker, Claimed)) || (e.Persist? && Is(u, e.worker, Checked))
  {
  }

  lemma RevivalIsExplained(q: Queue, events: seq<Event>, e: Event)
    requires QueueSound(q) && !Row(q).released
    requires Explained(q, events) && Row(Steps(q, events)).released && Steps(q, events + [e]).recordActive
    ensures RevivedAfterRelease(q, events + [e])
  {
    if Steps(q, events).recordActive {
      RevivalStays(q, events, e);
    } else {
      var more := events + [e];
      LastPrefix(q, events, e);
      OnlyWritingRevives(Steps(q, events), e);
      SomeRelease(q, more, |events|);
      assert RevivesAt(q, more, |events|);
    }
  }

  lemma OnlyLookingChecks(u: Queue, e: Event, worker: nat)
    requires !Is(u, worker, Checked) && Is(Step(u, e), worker, Checked)
    ensures e == Check(worker) && Is(u, worker, Started) && u.recordActive
  {
  }

  lemma LookIsExplained(q: Queue, events: seq<Event>, e: Event, worker: nat)
    requires Explained(q, events) && Row(Steps(q, events)).released && Is(Steps(q, events + [e]), worker, Checked)
    ensures Unnoticed(q, events + [e], worker)
  {
    if Is(Steps(q, events), worker, Checked) {
      UnnoticedStays(q, events, e, worker);
    } else {
      var more := events + [e];
      LastPrefix(q, events, e);
      OnlyLookingChecks(Steps(q, events), e, worker);
      assert LooksAt(q, more, |events|, worker);
      var n, m :| 0 <= n < m < |events| && ReleasesAt(q, events, n) && RevivesAt(q, events, m);
      SamePrefix(q, events, e, n);
      SamePrefix(q, events, e, m);
      assert ReleasesAt(q, more, n) && RevivesAt(q, more, m);
    }
  }

  lemma {:induction false} HistoryIsExplained(q: Queue, events: seq<Event>)
    requires QueueSound(q) && !Row(q).released
    ensures Explained(q, events)
    decreases |events|
  {
    if events != [] {
      var before, e := events[..|events| - 1], events[|events| - 1];
      assert events == before + [e];
      HistoryIsExplained(q, before);
      StepKeepsQueueSound(Steps(q, before), e);
      LastPrefix(q, before, e);
      if Row(Steps(q, before)).released {
        if Steps(q, events).recordActive { RevivalIsExplained(q, before, e); }
        forall w | Is(Steps(q, events), w, Checked) ensures Unnoticed(q, events, w) {
          LookIsExplained(q, before, e, w);
        }
      } else if Row(Steps(q, events)).released {
        ReleaseIsExplained(q, before, e);
      }
    }
  }

  /**
   With any number of workers, over every history: a worker about to commit settles a hold that was
   given back if and only if the hold was released after that worker had looked at the record, or a
   worker wrote the record as running again between the release and that look.
   */
  lemma CommitIsLateIff(q: Queue, events: seq<Event>, worker: nat)
    requires IsFresh(q) && Is(Steps(q, events), worker, Checked)
    ensures QueueSound(Steps(q, events))
    ensures Row(Steps(q, events)).released <==> Unnoticed(q, events, worker)
  {
    HistoryIsExplained(q, events);
    if Unnoticed(q, events, worker) {
      var n :| 0 <= n < |events| && ReleasesAt(q, events, n);
      ReleaseStays(q, events, n);
    }
  }

  // ----- One worker: before its start, or after its look -----

  /** Only this worker ever acts on the job. */
  ghost predicate OnlyWorker(events: seq<Event>, worker: nat) {
    forall n :: 0 <= n < |events| ==>
      (events[n].Start? || events[n].Persist? || events[n].Check? ==> events[n].worker == worker)
  }

  /** The hold was released between claim and start, or between the look at the record and the commit. */
  ghost predicate ReleasedInWindow(q: Queue, events: seq<Event>, worker: nat) {
    exists n :: 0 <= n < |events| && ReleasesAt(q, events, n)
      && (Is(At(q, events, n), worker, Claimed) || Is(At(q, events, n), worker, Checked))
  }

  /** On a closed job a worker only moves on. */
  lemma {:induction false} ClosedPhases(q: Queue, events: seq<Event>, m: nat, n: nat, worker: nat)
    requires QueueSound(q) && m <= n <= |events| && At(q, events, m).status == Closed
    ensures Is(At(q, events, n), worker, Claimed) ==> Is(At(q, events, m), worker, Claimed)
    ensures Is(At(q, events, m), worker, Checked) ==> !Is(At(q, events, n), worker, Started)
    ensures Is(At(q, events, n), worker, Started) ==> worker in At(q, events, m).workers
    decreases n - m
  {
    if m < n {
      ClosedPhases(q, events, m, n - 1, worker);
      FlagsStay(q, events, m, n - 1);
      assert events[..n][..n - 1] == events[..n - 1];
    }
  }

  lemma RevivalByOneWorker(q: Queue, events: seq<Event>, worker: nat, n: nat, m: nat, k: nat)
    requires QueueSound(q) && OnlyWorker(events, worker) && n < m < k < |events|
    requires ReleasesAt(q, events, n) && RevivesAt(q, events, m) && LooksAt(q, events, k, worker)
    ensures Is(At(q, events, n), worker, Claimed)
  {
    StepKeepsQueueSound(At(q, events, n), events[n]);
    NextAt(q, events, n);
    OnlyClosingReleases(At(q, events, n), events[n]);
    assert At(q, events, n + 1).status == Closed;
    FlagsStay(q, events, n + 1, m);
    ClosedPhases(q, events, n + 1, m, worker);
    ClosedPhases(q, events, m, k, worker);
  }

  lemma WindowIsUnnoticed(q: Queue, events: seq<Event>, worker: nat)
    requires QueueSound(q) && OnlyWorker(events, worker) && RevivedBeforeLook(q, events, worker)
    ensures ReleasedInWindow(q, events, worker)
  {
    var n, m, k :| 0 <= n < m < k < |events|
      && ReleasesAt(q, events, n) && RevivesAt(q, events, m) && LooksAt(q, events, k, worker);
    RevivalByOneWorker(q, events, worker, n, m, k);
  }

  /**
   For a job that one worker alone acts on, that is: the hold was released between the worker's claim
   and its start, or between its look at the record and its commit. In between the worker notices.
   */
  lemma OneWorkerIsLateIff(q: Queue, events: seq<Event>, worker: nat)
    requires IsFresh(q) && OnlyWorker(events, worker) && Is(Steps(q, events), worker, Checked)
    ensures QueueSound(Steps(q, events))
    ensures Row(Steps(q, events)).released <==> ReleasedInWindow(q, events, worker)
  {
    CommitIsLateIff(q, events, worker);
    if ReleasedInWindow(q, events, worker) {
      var n :| 0 <= n < |events| && ReleasesAt(q, events, n);
      ReleaseStays(q, events, n);
    } else if RevivedBeforeLook(q, events, worker) {
      WindowIsUnnoticed(q, events, worker);
    }
  }

  // ----- Both windows are open -----

  lemma CancelledState(q: Queue, worker: nat)
    requires QueueSound(q) && Inv(q.tables) && !Row(q).released && !Row(q).settled
    requires q.status == Running && q.lease == Some(worker) && worker in q.workers
    requires ReservedBalance(q.tables, Row(q).user) >= 2 * Row(q).cost
    ensures var u := Step(q, Close(Some(worker)));
            && QueueSound(u) && Inv(u.tables) && u.workers == q.workers
            && Row(u).released && SettlesJob(u.tables, u.job)
  {
    assert JobSound(q.tables, q.job);
    ReleaseJobKeepsInv(q.tables, q.job);
    StepKeepsQueueSound(q, Close(Some(worker)));
  }

  lemma LateCommitBreaks(q: Queue, w: nat)
    requires QueueSound(q) && Inv(q.tables) && Is(q, w, Checked)
    requires Row(q).released && SettlesJob(q.tables, q.job)
    ensures !Inv(Step(q, Commit(w)).tables)
  {
    InvIsLostIff(q, Commit(w));
  }

  /** A claimed worker that starts passes its look, because it has just revived the record itself. */
  lemma StartedWorkerPasses(q: Queue, w: nat)
    requires QueueSound(q) && Is(q, w, Claimed)
    ensures var u := Step(Step(q, Start(w)), Check(w));
            QueueSound(u) && Is(u, w, Checked) && u.tables == q.tables && u.job == q.job
  {
  }

  /** A cancellation right after the claim: the worker brings the record back to life and never learns of it. */
  lemma CancelAfterClaim(q: Queue, w: nat)
    requires IsFresh(q) && Inv(q.tables) && ReservedBalance(q.tables, Row(q).user) >= 2 * Row(q).cost
    ensures !Inv(Step(Step(Step(Step(Step(q, Claim(w)), Close(Some(w))), Start(w)), Check(w)), Commit(w)).tables)
  {
    var claimed := Step(q, Claim(w));
    CancelledState(claimed, w);
    var closed := Step(claimed, Close(Some(w)));
    StartedWorkerPasses(closed, w);
    LateCommitBreaks(Step(Step(closed, Start(w)), Check(w)), w);
  }

  /** A cancellation after the worker's look at the record and before its commit. */
  lemma CancelBeforeCommit(q: Queue, w: nat)
    requires IsFresh(q) && Inv(q.tables) && ReservedBalance(q.tables, Row(q).user) >= 2 * Row(q).cost
    ensures !Inv(Step(Step(Step(Step(Step(q, Claim(w)), Start(w)), Check(w)), Close(Some(w))), Commit(w)).tables)
  {
    var checked := Step(Step(Step(q, Claim(w)), Start(w)), Check(w));
    assert checked == q.(status := Running, lease := Some(w), workers := checked.workers) && Is(checked, w, Checked);
    CancelledState(checked, w);
    LateCommitBreaks(Step(checked, Close(Some(w))), w);
  }

  /** A worker whose lease ran out and who still runs brings back a record that the next one then trusts. */
  lemma StaleWorkerHidesCancel(q: Queue, v: nat, w: nat)
    requires IsFresh(q) && Inv(q.tables) && ReservedBalance(q.tables, Row(q).user) >= 2 * Row(q).cost && v != w
    ensures var running := Step(Step(Step(Step(q, Claim(v)), Recover), Claim(w)), Start(w));
            var closed := Step(running, Close(Some(w)));
            !Inv(Step(Step(Step(closed, Start(v)), Check(w)), Commit(w)).tables)
  {
    var running := Step(Step(Step(Step(q, Claim(v)), Recover), Claim(w)), Start(w));
    assert running.tables == q.tables && running.status == Running && running.lease == Some(w);
    assert Is(running, v, Claimed) && Is(running, w, Started);
    CancelledState(running, w);
    var closed := Step(running, Close(Some(w)));
    var checked := Step(Step(closed, Start(v)), Check(w));
    assert checked == closed.(workers := checked.workers, recordActive := true) && Is(checked, w, Checked);
    LateCommitBreaks(checked, w);
  }
}
