/** How a provider failure is classified, and what the classification allows next. */
module ProviderErrors {

  /** Provider error codes, already trimmed and recognised. `Http(n)` is the code provider_http_n. */
  datatype Code =
    | Timeout | RequestFailed | DecodeFailed | EmptyImage | RateLimited | Unavailable | AuthFailed
    | RequestBuildFailed | ModelUnavailable | Http(status: int) | ResultUnknown | OtherCode

  /** `policyRejected` and `assetFetch` stand for the text searches in the message and the failure stage. */
  datatype ProviderError = ProviderError(
    code: Code, httpStatus: int, assetFetch: bool, policyRejected: bool, requestNotSent: bool)

  predicate StatusTriggersFailover(status: int) {
    status in {401, 403, 429, 500, 502, 503, 504}
  }

  predicate StatusTriggersRetry(status: int) {
    status in {502, 503, 504}
  }

  predicate TriggersModelFailover(e: ProviderError) {
    !e.assetFetch && !e.policyRejected &&
    match e.code
    case ModelUnavailable => true
    case Timeout | RequestFailed | DecodeFailed | EmptyImage => true
    case RateLimited | Unavailable | AuthFailed | RequestBuildFailed => true
    case Http(status) => status != 400 && StatusTriggersFailover(status)
    case _ => e.httpStatus != 400 && StatusTriggersFailover(e.httpStatus)
  }

  predicate TriggersSameChannelRetry(e: ProviderError) {
    !e.assetFetch && !e.policyRejected &&
    match e.code
    case Timeout => true
    case Http(status) => StatusTriggersRetry(status)
    case _ => StatusTriggersRetry(e.httpStatus)
  }

  /** The failure goes back to the durable queue instead of being retried in place. */
  predicate WaitsInQueue(e: ProviderError) {
    e.requestNotSent || e.httpStatus == 429 || e.code == Http(429)
  }

  /** The provider may have received the request and acted on it. */
  predicate Ambiguous(e: ProviderError) {
    !e.requestNotSent && (e.code == Timeout || e.code == RequestFailed)
  }

  /** Whether a call billed from outside may be repeated after this failure. */
  predicate AllowsRetry(external: bool, idempotent: bool, e: ProviderError) {
    !external || idempotent || !Ambiguous(e)
  }

  /** What would be retried on the same channel would also be tried on the next one. */
  lemma RetryImpliesFailover(e: ProviderError)
    ensures TriggersSameChannelRetry(e) ==> TriggersModelFailover(e)
  {
  }

  /** The status of a failure: the one in its code, or else the one of the response. */
  function Status(e: ProviderError): int {
    if e.code.Http? then e.code.status else e.httpStatus
  }

  /** The classification by codes and statuses. */
  lemma Classification(e: ProviderError)
    ensures TriggersModelFailover(e) <==>
            && !e.assetFetch && !e.policyRejected
            && (|| e.code in {Timeout, RequestFailed, DecodeFailed, EmptyImage, RateLimited, Unavailable, AuthFailed,
                              RequestBuildFailed, ModelUnavailable}
                || Status(e) in {401, 403, 429, 500, 502, 503, 504})
    ensures TriggersSameChannelRetry(e) <==>
            !e.assetFetch && !e.policyRejected && (e.code == Timeout || Status(e) in {502, 503, 504})
    ensures WaitsInQueue(e) <==> e.requestNotSent || 429 in {e.httpStatus, Status(e)}
    ensures forall idempotent: bool ::
              !AllowsRetry(true, idempotent, e) <==>
              !idempotent && !e.requestNotSent && e.code in {Timeout, RequestFailed}
    ensures forall idempotent: bool :: AllowsRetry(false, idempotent, e)
  {
  }

  datatype NextStep = RetrySame | NextCandidate | StopWaiting | StopUnknown | StopFailed

  /** What follows a failed attempt, in the order in which the conditions are asked. */
  function AfterFailure(external: bool, idempotent: bool, attempt: nat, perCandidate: nat, live: bool,
                        e: ProviderError): NextStep
  {
    if external && WaitsInQueue(e) then StopWaiting
    else if !AllowsRetry(external, idempotent, e) then StopUnknown
    else if attempt < perCandidate && TriggersSameChannelRetry(e) && live then RetrySame
    else if !TriggersModelFailover(e) then StopFailed
    else NextCandidate
  }
}

/** Failover of one generation over its candidate channels or models. */
module Failover {
  import opened Foundations
  import opened ProviderErrors

  const MAX_EXTERNAL_ATTEMPTS: nat := 3
  const MAX_CHANNEL_ATTEMPTS: nat := 2

  datatype Candidate = Candidate(channel: nat, idempotent: bool)

  /** `Broken` is an attempt whose bookkeeping failed: the run is given up without a verdict. */
  datatype Reply = Succeeded | Failed(error: ProviderError) | Broken

  /** The `ordinal`-th attempt on the candidate at `position`, and the `index`-th of the whole run. */
  datatype Attempt = Attempt(position: nat, ordinal: nat, index: nat, reply: Reply)

  /** Everything one run depends on: the provider may answer attempt `i` in any way whatsoever. */
  datatype Setup = Setup(
    candidates: seq<Candidate>, external: bool, perCandidate: nat, reply: nat -> Reply, live: nat -> bool)

  datatype Outcome =
    | Success(index: nat, position: nat)
    | Failure(error: ProviderError, position: nat)
    | Aborted(position: nat)
    | NoCandidate

  function StepAfter(setup: Setup, a: Attempt): NextStep
    requires a.position < |setup.candidates| && a.reply.Failed?
  {
    AfterFailure(setup.external, setup.candidates[a.position].idempotent, a.ordinal, setup.perCandidate,
                 setup.live(a.index), a.reply.error)
  }

  function AttemptAt(setup: Setup, position: nat, ordinal: nat, index: nat): Attempt {
    Attempt(position, ordinal, index, setup.reply(index))
  }

  /** The attempt that follows `a`, if any. */
  function Next(setup: Setup, a: Attempt): Option<Attempt>
    requires a.position < |setup.candidates|
  {
    if !a.reply.Failed? || a.index >= MAX_EXTERNAL_ATTEMPTS then None
    else match StepAfter(setup, a)
         case RetrySame => Some(AttemptAt(setup, a.position, a.ordinal + 1, a.index + 1))
         case NextCandidate =>
           if a.position + 1 < |setup.candidates| then Some(AttemptAt(setup, a.position + 1, 1, a.index + 1)) else None
         case _ => None
  }

  /** The attempts `t` start at the first candidate and each one is the follower of the one before. */
  ghost predicate Chained(setup: Setup, t: seq<Attempt>) {
    && (forall k :: 0 <= k < |t| ==> t[k].position < |setup.candidates|)
    && (t != [] ==> t[0] == AttemptAt(setup, 0, 1, 1))
    && (forall k :: 0 < k < |t| ==> Next(setup, t[k - 1]) == Some(t[k]))
  }

  /** `t` is the whole run: it is only empty for want of candidates and nothing follows its last attempt. */
  ghost predicate IsTrace(setup: Setup, t: seq<Attempt>) {
    && Chained(setup, t)
    && if t == [] then setup.candidates == [] else Next(setup, t[|t| - 1]) == None
  }

  // ----- The shape of every trace -----

  ghost predicate AttemptSound(setup: Setup, a: Attempt, index: nat) {
    && a.index == index <= MAX_EXTERNAL_ATTEMPTS
    && 1 <= a.ordinal <= setup.perCandidate
    && a.position < |setup.candidates|
    && a.reply == setup.reply(index)
  }

  /** Attempt `b` may directly follow attempt `a`. */
  ghost predicate Follows(setup: Setup, a: Attempt, b: Attempt)
    requires a.position < |setup.candidates|
  {
    && a.reply.Failed?
    && AllowsRetry(setup.external, setup.candidates[a.position].idempotent, a.reply.error)
    && !(setup.external && WaitsInQueue(a.reply.error))
    && if b.position == a.position then
         b.ordinal == a.ordinal + 1 && TriggersSameChannelRetry(a.reply.error) && setup.live(a.index)
       else
         b.position == a.position + 1 && b.ordinal == 1 && TriggersModelFailover(a.reply.error)
  }

  lemma {:induction false} ChainedIsSound(setup: Setup, t: seq<Attempt>, k: nat)
    requires Chained(setup, t) && k < |t| && setup.perCandidate >= 1
    ensures AttemptSound(setup, t[k], k + 1)
    ensures k > 0 ==> Follows(setup, t[k - 1], t[k])
  {
    if k > 0 {
      ChainedIsSound(setup, t, k - 1);
      assert Next(setup, t[k - 1]) == Some(t[k]);
    }
  }

  lemma {:induction false} PositionsOnlyGrow(setup: Setup, t: seq<Attempt>, i: nat, j: nat)
    requires Chained(setup, t) && i <= j < |t|
    ensures t[i].position <= t[j].position <= t[i].position + (j - i)
    ensures t[i].position == t[j].position ==> t[j].ordinal == t[i].ordinal + (j - i)
  {
    if i < j {
      PositionsOnlyGrow(setup, t, i, j - 1);
      assert Next(setup, t[j - 1]) == Some(t[j]);
    }
  }

  /**
   Every trace, for any candidates and any provider: at most three calls, numbered from one;
   positions start at the first candidate, never go back and never skip one; no candidate is called
   more often than allowed; a repeated call follows only a same-channel-retry error, a move only a
   failover error, and neither follows a failure that may not be retried.
   */
  lemma TraceShape(setup: Setup, t: seq<Attempt>)
    requires setup.perCandidate >= 1 && IsTrace(setup, t)
    ensures |t| <= 3
    ensures t == [] <==> setup.candidates == []
    ensures t != [] ==> t[0].position == 0
    ensures forall k :: 0 <= k < |t| ==> AttemptSound(setup, t[k], k + 1)
    ensures forall k :: 0 < k < |t| ==> Follows(setup, t[k - 1], t[k])
    ensures forall i, j :: 0 <= i <= j < |t| ==>
              && t[i].position <= t[j].position
              && (t[i].position == t[j].position ==> j - i < setup.perCandidate)
  {
    forall k | 0 <= k < |t| ensures AttemptSound(setup, t[k], k + 1) && (k > 0 ==> Follows(setup, t[k - 1], t[k])) {
      ChainedIsSound(setup, t, k);
    }
    if t != [] { assert AttemptSound(setup, t[|t| - 1], |t|); }
    forall i, j | 0 <= i <= j < |t|
      ensures t[i].position <= t[j].position && (t[i].position == t[j].position ==> j - i < setup.perCandidate)
    {
      PositionsOnlyGrow(setup, t, i, j);
      assert AttemptSound(setup, t[i], i + 1) && AttemptSound(setup, t[j], j + 1);
    }
  }

  /** A failure after which a run billed from outside must stop: it waits in the queue or its effect is unknown. */
  predicate MustStop(setup: Setup, a: Attempt)
    requires a.position < |setup.candidates| && a.reply.Failed?
  {
    setup.external
    && (WaitsInQueue(a.reply.error) || (!setup.candidates[a.position].idempotent && Ambiguous(a.reply.error)))
  }

  /** A failure that is worth another attempt on its own channel, with the request still alive. */
  predicate WorthRetrying(setup: Setup, a: Attempt)
    requires a.reply.Failed?
  {
    a.ordinal < setup.perCandidate && setup.live(a.index) && TriggersSameChannelRetry(a.reply.error)
  }

  /**
   What follows a failed attempt of any trace, both ways: the same channel again exactly when that is
   worth it, the next candidate exactly when that is not and the error moves on, and otherwise nothing.
   */
  lemma WhatFollows(setup: Setup, t: seq<Attempt>, k: nat)
    requires setup.perCandidate >= 1 && IsTrace(setup, t) && k < |t| && t[k].reply.Failed?
    ensures var a, more := t[k], k + 1 < |t|;
            && a.position < |setup.candidates|
            && (more && t[k + 1].position == a.position && t[k + 1].ordinal == a.ordinal + 1 <==>
                  k + 1 < 3 && !MustStop(setup, a) && WorthRetrying(setup, a))
            && (more && t[k + 1].position == a.position + 1 && t[k + 1].ordinal == 1 <==>
                  && k + 1 < 3 && !MustStop(setup, a) && !WorthRetrying(setup, a)
                  && TriggersModelFailover(a.reply.error) && a.position + 1 < |setup.candidates|)
            && (more ==> t[k + 1].position == a.position || t[k + 1].position == a.position + 1)
  {
    ChainedIsSound(setup, t, k);
    if k + 1 < |t| {
      ChainedIsSound(setup, t, k + 1);
      assert Next(setup, t[k]) == Some(t[k + 1]);
    }
  }

  /** A run that failed before the cap, with candidates left, was not allowed to go on or had no reason to. */
  lemma StoppedForAReason(setup: Setup, t: seq<Attempt>)
    requires setup.perCandidate >= 1 && IsTrace(setup, t) && t != [] && t[|t| - 1].reply.Failed? && |t| < 3
    ensures var a := t[|t| - 1];
            && (a.position + 1 < |setup.candidates| ==> MustStop(setup, a) || !TriggersModelFailover(a.reply.error))
            && (MustStop(setup, a) || !WorthRetrying(setup, a))
  {
    WhatFollows(setup, t, |t| - 1);
    RetryImpliesFailover(t[|t| - 1].reply.error);
  }

  /** The candidates and the answers leave no choice: a setup has one trace. */
  lemma TraceIsUnique(setup: Setup, t: seq<Attempt>, u: seq<Attempt>)
    requires IsTrace(setup, t) && IsTrace(setup, u)
    ensures t == u
  {
    if |t| <= |u| {
      TraceHasNoExtension(setup, t, u);
    } else {
      TraceHasNoExtension(setup, u, t);
    }
  }

  lemma TraceHasNoExtension(setup: Setup, t: seq<Attempt>, u: seq<Attempt>)
    requires IsTrace(setup, t) && Chained(setup, u) && |t| <= |u|
    ensures t == u
  {
    forall k | 0 <= k < |u| - 1 ensures Next(setup, u[k]) != None {
      assert Next(setup, u[k]) == Some(u[k + 1]);
    }
    AgreeUpTo(setup, t, u, |t|);
    if t != [] {
      var last := |t| - 1;
      assert t[last] == t[..|t|][last] == u[..|t|][last] == u[last];
    }
  }

  lemma {:induction false} AgreeUpTo(setup: Setup, t: seq<Attempt>, u: seq<Attempt>, n: nat)
    requires Chained(setup, t) && Chained(setup, u) && n <= |t| <= |u|
    ensures t[..n] == u[..n]
  {
    if n > 0 {
      AgreeUpTo(setup, t, u, n - 1);
      if n > 1 {
        assert t[n - 2] == t[..n - 1][n - 2] == u[..n - 1][n - 2] == u[n - 2];
        assert Next(setup, t[n - 2]) == Some(t[n - 1]);
        assert Next(setup, u[n - 2]) == Some(u[n - 1]);
      }
      assert t[..n] == t[..n - 1] + [t[n - 1]];
      assert u[..n] == u[..n - 1] + [u[n - 1]];
    }
  }

  // ----- What the caller is told -----

  /** The verdict on a channel trace. When the cap ends the run on the way to another channel, that channel is named. */
  function ChannelOutcome(setup: Setup, t: seq<Attempt>): Outcome
    requires forall k :: 0 <= k < |t| ==> t[k].position < |setup.candidates|
  {
    if t == [] then NoCandidate
    else
      var last := t[|t| - 1];
      match last.reply
      case Succeeded => Success(last.index, last.position)
      case Broken => Aborted(last.position)
      case Failed(e) =>
        match StepAfter(setup, last)
        case StopUnknown => Failure(e.(code := ResultUnknown), last.position)
        case NextCandidate =>
          Failure(e, if last.position + 1 < |setup.candidates| then last.position + 1 else last.position)
        case _ => Failure(e, last.position)
  }

  /** The verdict on a trace over plain models, which always names the model called last. */
  function ModelOutcome(setup: Setup, t: seq<Attempt>): Outcome
    requires forall k :: 0 <= k < |t| ==> t[k].position < |setup.candidates|
  {
    match ChannelOutcome(setup, t)
    case Failure(e, _) => Failure(e, t[|t| - 1].position)
    case other => other
  }

  /**
   The verdict, read off the last attempt: its success, its error, or nothing when the bookkeeping
   failed. The error is renamed exactly when the effect of a keyless call billed from outside is unknown;
   the place is that of the last attempt, except for a run over channels that the cap cut off.
   */
  lemma Verdict(setup: Setup, t: seq<Attempt>)
    requires setup.perCandidate >= 1 && IsTrace(setup, t)
    ensures t == [] ==> ChannelOutcome(setup, t) == ModelOutcome(setup, t) == NoCandidate
    ensures t != [] ==>
              var a, channels, models := t[|t| - 1], ChannelOutcome(setup, t), ModelOutcome(setup, t);
              && a.position < |setup.candidates|
              && (a.reply == Succeeded ==> channels == models == Success(|t|, a.position))
              && (a.reply == Broken ==> channels == models == Aborted(a.position))
              && (a.reply.Failed? ==>
                    var e, c := a.reply.error, setup.candidates[a.position];
                    var unknown := setup.external && !c.idempotent && Ambiguous(e) && !WaitsInQueue(e);
                    var told := if unknown then e.(code := ResultUnknown) else e;
                    var cutOff := |t| == 3 && a.position + 1 < |setup.candidates| && !MustStop(setup, a)
                                  && !WorthRetrying(setup, a) && TriggersModelFailover(e);
                    && models == Failure(told, a.position)
                    && channels == Failure(told, if cutOff then a.position + 1 else a.position))
  {
    if t != [] {
      ChainedIsSound(setup, t, |t| - 1);
    }
  }

  /** Success is reported exactly when the last call succeeded, and no call is made after a success. */
  lemma SuccessIffLastCallSucceeded(setup: Setup, t: seq<Attempt>)
    requires setup.perCandidate >= 1 && IsTrace(setup, t)
    ensures ChannelOutcome(setup, t).Success? <==> (exists k :: 0 <= k < |t| && t[k].reply == Succeeded)
    ensures ChannelOutcome(setup, t).Success? ==> ChannelOutcome(setup, t) == Success(|t|, t[|t| - 1].position)
    ensures ModelOutcome(setup, t).Success? <==> ChannelOutcome(setup, t).Success?
  {
    forall k | 0 <= k < |t| - 1 ensures t[k].reply.Failed? {
      assert Next(setup, t[k]) == Some(t[k + 1]);
    }
    if t != [] { ChainedIsSound(setup, t, |t| - 1); }
  }

  /**
   The channel named by a failed run is one that was never called exactly when the run was cut off
   by the cap while moving on to a channel that exists.
   */
  lemma NamedChannelWasNotCalledIff(setup: Setup, t: seq<Attempt>)
    requires setup.perCandidate >= 1 && IsTrace(setup, t) && ChannelOutcome(setup, t).Failure?
    ensures (forall k :: 0 <= k < |t| ==> t[k].position != ChannelOutcome(setup, t).position) <==>
            (|t| == MAX_EXTERNAL_ATTEMPTS && StepAfter(setup, t[|t| - 1]) == NextCandidate
             && t[|t| - 1].position + 1 < |setup.candidates|)
  {
    ChainedIsSound(setup, t, |t| - 1);
    forall k | 0 <= k < |t| ensures t[k].position <= t[|t| - 1].position {
      PositionsOnlyGrow(setup, t, k, |t| - 1);
    }
  }

  // ----- The loops -----

  /** After the attempts `t`, the next one to make would be the `ordinal`-th on `position`. */
  ghost predicate Due(setup: Setup, t: seq<Attempt>, position: nat, ordinal: nat) {
    if t == [] then position == 0 && ordinal == 1
    else
      var last := t[|t| - 1];
      && last.position < |setup.candidates| && last.reply.Failed?
      && if ordinal == 1 then StepAfter(setup, last) == NextCandidate && position == last.position + 1
         else StepAfter(setup, last) == RetrySame && position == last.position && ordinal == last.ordinal + 1
  }

  lemma Extend(setup: Setup, t: seq<Attempt>, position: nat, ordinal: nat)
    requires Chained(setup, t) && Due(setup, t, position, ordinal) && setup.perCandidate >= 1
    requires |t| < MAX_EXTERNAL_ATTEMPTS && position < |setup.candidates|
    ensures Chained(setup, t + [AttemptAt(setup, position, ordinal, |t| + 1)])
  {
    var u := t + [AttemptAt(setup, position, ordinal, |t| + 1)];
    if t != [] { ChainedIsSound(setup, t, |t| - 1); }
    forall k | 0 < k < |u| ensures Next(setup, u[k - 1]) == Some(u[k]) {
      if k < |t| {
        assert Next(setup, t[k - 1]) == Some(t[k]);
      }
    }
  }

  /** What making that attempt means for the run: it is over, or the next attempt is due. */
  lemma Attempted(setup: Setup, t: seq<Attempt>, position: nat, ordinal: nat) returns (a: Attempt)
    requires Chained(setup, t) && Due(setup, t, position, ordinal) && setup.perCandidate >= 1
    requires |t| < MAX_EXTERNAL_ATTEMPTS && position < |setup.candidates|
    ensures a == AttemptAt(setup, position, ordinal, |t| + 1) && Chained(setup, t + [a])
    ensures var step := if a.reply.Failed? then StepAfter(setup, a) else StopFailed;
            && (step == RetrySame ==> Due(setup, t + [a], position, ordinal + 1))
            && (step == NextCandidate ==> Due(setup, t + [a], position + 1, 1))
            && (step in {StopWaiting, StopUnknown, StopFailed} ==> IsTrace(setup, t + [a]))
  {
    a := AttemptAt(setup, position, ordinal, |t| + 1);
    Extend(setup, t, position, ordinal);
    if t != [] { ChainedIsSound(setup, t, |t| - 1); }
  }

  lemma CutOff(setup: Setup, t: seq<Attempt>, position: nat, ordinal: nat)
    requires Chained(setup, t) && Due(setup, t, position, ordinal) && setup.perCandidate >= 1
    requires |t| >= MAX_EXTERNAL_ATTEMPTS || position >= |setup.candidates|
    ensures IsTrace(setup, t)
  {
    if t != [] { ChainedIsSound(setup, t, |t| - 1); }
  }

  /** Every candidate channel in turn, each at most twice, at most three calls in all. */
  method GenerateOverChannels(candidates: seq<Candidate>, external: bool, reply: nat -> Reply, live: nat -> bool)
    returns (trace: seq<Attempt>, outcome: Outcome)
    ensures var setup := Setup(candidates, external, 2, reply, live);
            IsTrace(setup, trace) && outcome == ChannelOutcome(setup, trace)
  {
    ghost var setup := Setup(candidates, external, MAX_CHANNEL_ATTEMPTS, reply, live);
    trace := [];
    var lastError: Option<ProviderError> := None;
    var attemptIndex := 1;
    for position := 0 to |candidates|
      invariant attemptIndex == |trace| + 1
      invariant Chained(setup, trace) && Due(setup, trace, position, 1)
      invariant lastError == if trace == [] then None else Some(trace[|trace| - 1].reply.error)
    {
      var ordinal := 1;
      while ordinal <= MAX_CHANNEL_ATTEMPTS
        invariant 1 <= ordinal <= MAX_CHANNEL_ATTEMPTS
        invariant attemptIndex == |trace| + 1
        invariant Chained(setup, trace) && Due(setup, trace, position, ordinal)
        invariant lastError == if trace == [] then None else Some(trace[|trace| - 1].reply.error)
        decreases MAX_CHANNEL_ATTEMPTS - ordinal
      {
        if attemptIndex > MAX_EXTERNAL_ATTEMPTS {
          CutOff(setup, trace, position, ordinal);
          outcome := Failure(lastError.value, position);
          return;
        }
        ghost var a := Attempted(setup, trace, position, ordinal);
        var answer := reply(attemptIndex);
        var current := attemptIndex;
        trace := trace + [Attempt(position, ordinal, current, answer)];
        attemptIndex := attemptIndex + 1;
        if answer.Broken? {
          outcome := Aborted(position);
          return;
        }
        if answer.Succeeded? {
          outcome := Success(current, position);
          return;
        }
        var e := answer.error;
        lastError := Some(e);
        if external && WaitsInQueue(e) {
          outcome := Failure(e, position);
          return;
        }
        if !AllowsRetry(external, candidates[position].idempotent, e) {
          outcome := Failure(e.(code := ResultUnknown), position);
          return;
        }
        if ordinal < MAX_CHANNEL_ATTEMPTS && TriggersSameChannelRetry(e) && live(current) {
          ordinal := ordinal + 1;
        } else {
          if !TriggersModelFailover(e) {
            outcome := Failure(e, position);
            return;
          }
          break;
        }
      }
    }
    CutOff(setup, trace, |candidates|, 1);
    if lastError.None? {
      outcome := NoCandidate;
    } else {
      outcome := Failure(lastError.value, |candidates| - 1);
    }
  }

  /** Plain models are one-attempt candidates without an idempotency key. */
  function ModelSetup(models: nat, external: bool, reply: nat -> Reply): (s: Setup)
    ensures |s.candidates| == models && forall c :: c in s.candidates ==> !c.idempotent
    ensures s.external == external && s.perCandidate == 1 && s.reply == reply
  {
    Setup(seq(models, i => Candidate(0, false)), external, 1, reply, i => true)
  }

  /** Every candidate model in turn, each once, at most three calls in all; models carry no idempotency key. */
  method GenerateOverModels(models: nat, external: bool, reply: nat -> Reply)
    returns (trace: seq<Attempt>, outcome: Outcome)
    ensures var setup := ModelSetup(models, external, reply);
            IsTrace(setup, trace) && outcome == ModelOutcome(setup, trace)
  {
    ghost var setup := ModelSetup(models, external, reply);
    trace := [];
    var lastError: Option<ProviderError> := None;
    for position := 0 to models
      invariant |trace| == position
      invariant Chained(setup, trace) && Due(setup, trace, position, 1)
      invariant lastError == if trace == [] then None else Some(trace[|trace| - 1].reply.error)
    {
      if position >= MAX_EXTERNAL_ATTEMPTS {
        break;
      }
      ghost var a := Attempted(setup, trace, position, 1);
      var answer := reply(position + 1);
      trace := trace + [Attempt(position, 1, position + 1, answer)];
      if answer.Broken? {
        outcome := Aborted(position);
        return;
      }
      if answer.Succeeded? {
        outcome := Success(position + 1, position);
        return;
      }
      var e := answer.error;
      lastError := Some(e);
      if external && WaitsInQueue(e) {
        outcome := Failure(e, position);
        return;
      }
      if !AllowsRetry(external, false, e) {
        outcome := Failure(e.(code := ResultUnknown), position);
        return;
      }
      if !TriggersModelFailover(e) {
        outcome := Failure(e, position);
        return;
      }
    }
    CutOff(setup, trace, |trace|, 1);
    if lastError.None? {
      outcome := NoCandidate;
    } else {
      outcome := Failure(lastError.value, trace[|trace| - 1].position);
    }
  }
}
